/** What becomes of an armed key over whole runs of the detector engine: every interleaving of
    observations, ticks and detector reloads (Process and Tick in internal/detect/engine.go). */
module DebounceRuns {
  import opened DebounceEngine

  function HistoryAt(frames: seq<Frame>, i: nat, k: Key): seq<Event>
    requires i < |frames|
  {
    History(frames[i].track, k)
  }

  /** The longer history adds this event to the shorter one. */
  predicate Adds(h: seq<Event>, longer: seq<Event>, e: Event) {
    h <= longer && e in longer[|h|..]
  }

  /** The steps that can take the key out: an observation by a detector of the key that
      disarms it, and a tick that drops it. */
  predicate TakesOut(a: Frame, s: Step, k: Key) {
    match s
    case Process(o, _) => exists i :: 0 <= i < |a.ds| && KeyOf(a.ds[i], o) == k && Disarms(a.ds[i], o)
    case Tick(now) => k in a.track.states && ActOn(a.track.states[k], a.ds, k.playbook, now, true).Drop?
    case Load(_) => false
  }

  // ---- One step ----

  lemma ObserveAdds(t: Track, d: Detector, o: Observation, evidence: string, k: Key)
    ensures var h, longer := History(t, k), History(Observe(t, d, o, evidence), k);
            h <= longer && (Adds(h, longer, Disarmed) ==> KeyOf(d, o) == k && Disarms(d, o))
  {
  }

  lemma {:induction false} ObserveAllAdds(t: Track, ds: seq<Detector>, o: Observation, evidence: string, k: Key)
    ensures var h, longer := History(t, k), History(ObserveAll(t, ds, o, evidence), k);
            h <= longer && (Adds(h, longer, Disarmed) ==> exists i :: 0 <= i < |ds| && KeyOf(ds[i], o) == k && Disarms(ds[i], o))
    decreases |ds|
  {
    if ds != [] {
      var mid := Observe(t, ds[0], o, evidence);
      hide Observe;
      ObserveAdds(t, ds[0], o, evidence, k);
      ObserveAllAdds(mid, ds[1..], o, evidence, k);
      var h, m, longer := History(t, k), History(mid, k), History(ObserveAll(mid, ds[1..], o, evidence), k);
      assert longer[|h|..] == m[|h|..] + longer[|m|..];
      if Adds(m, longer, Disarmed) {
        var i :| 0 <= i < |ds| - 1 && KeyOf(ds[1..][i], o) == k && Disarms(ds[1..][i], o);
        assert ds[i + 1] == ds[1..][i];
      }
    }
  }

  /** Histories only grow, and only these steps add a disarming. */
  lemma StepAdds(a: Frame, s: Step, b: Frame, k: Key)
    requires StepOf(a, s, b)
    ensures History(a.track, k) <= History(b.track, k)
    ensures Adds(History(a.track, k), History(b.track, k), Disarmed) ==> TakesOut(a, s, k)
  {
    match s {
      case Process(o, evidence) => ObserveAllAdds(a.track, a.ds, o, evidence, k);
      case Tick(now) =>
        if k in a.track.states {
          assert SameKey(b.track, TickKey(a.track, k, a.ds, now, true), k);
        } else {
          assert SameKey(b.track, a.track, k);
        }
      case Load(_) =>
    }
  }

  // ---- Runs ----

  lemma {:induction false} HistoriesGrow(frames: seq<Frame>, steps: seq<Step>, k: Key, a: nat, n: nat)
    requires IsRun(frames, steps) && a <= n < |frames|
    ensures HistoryAt(frames, a, k) <= HistoryAt(frames, n, k)
  {
    if a < n {
      HistoriesGrow(frames, steps, k, a, n - 1);
      assert StepOf(frames[n - 1], steps[n - 1], frames[n]);
      StepAdds(frames[n - 1], steps[n - 1], frames[n], k);
    }
  }

  /** The key is armed and has not fired. */
  predicate StillArmed(f: Frame, k: Key) {
    k in f.track.states && !f.track.states[k].fired
  }

  lemma ArmedMeansWaiting(frames: seq<Frame>, steps: seq<Step>, i: nat, k: Key)
    requires IsRun(frames, steps) && i < |frames|
    ensures PhaseOf(HistoryAt(frames, i, k)) != Broken
    ensures StillArmed(frames[i], k) <==> PhaseOf(HistoryAt(frames, i, k)).Waiting?
    ensures StillArmed(frames[i], k) ==> PhaseOf(HistoryAt(frames, i, k)) == Waiting(frames[i].track.states[k].armedAt)
  {
    RunsAreLawful(frames, steps);
    assert LawfulAt(frames[i].track, k);
  }

  /** What follows an arming in a history that is not broken is a disarming or a firing. */
  lemma WaitingIsFollowed(h: seq<Event>, longer: seq<Event>)
    requires h <= longer && h != longer && PhaseOf(h).Waiting? && PhaseOf(longer) != Broken
    ensures longer[|h|] == Disarmed || longer[|h|].Fired?
  {
    var one := longer[..|h| + 1];
    assert one[..|h|] == h;
    if PhaseOf(one) == Broken {
      BrokenStaysBroken(longer, |h| + 1);
    }
  }

  /** The longer history does not go on from the shorter one with a disarming. */
  predicate Spared(h: seq<Event>, longer: seq<Event>) {
    h <= longer && (|h| < |longer| ==> longer[|h|] != Disarmed)
  }

  /** In every run, a key that is armed in some frame, and whose history does not go on with
      a disarming, has fired by the end of any tick past its debounce with its detector
      loaded: at that tick or before. */
  lemma ArmedKeyFires(frames: seq<Frame>, steps: seq<Step>, k: Key, a: nat, n: nat)
    requires IsRun(frames, steps) && a <= n < |steps| && StillArmed(frames[a], k) && steps[n].Tick?
    requires var i := ByName(frames[n].ds, k.playbook);
             i < |frames[n].ds| && steps[n].now - frames[a].track.states[k].armedAt >= frames[n].ds[i].debounce as real
    requires Spared(HistoryAt(frames, a, k), HistoryAt(frames, n, k))
    ensures var h, after := HistoryAt(frames, a, k), HistoryAt(frames, n + 1, k); h < after && after[|h|].Fired?
  {
    hide PhaseOf, History;
    var h, longer := HistoryAt(frames, a, k), HistoryAt(frames, n, k);
    HistoriesGrow(frames, steps, k, a, n);
    HistoriesGrow(frames, steps, k, n, n + 1);
    ArmedMeansWaiting(frames, steps, a, k);
    ArmedMeansWaiting(frames, steps, n, k);
    assert StepOf(frames[n], steps[n], frames[n + 1]);
    if h == longer {
      DueKeyFires(frames[n].track, frames[n + 1].track, frames[n].ds, steps[n].now, k);
    } else {
      WaitingIsFollowed(h, longer);
    }
  }

  /** No step from a to n takes the key out while it is armed. */
  predicate NeverTakenOut(frames: seq<Frame>, steps: seq<Step>, k: Key, a: nat, n: nat)
    requires n <= |steps| < |frames|
  {
    forall i :: a <= i < n && StillArmed(frames[i], k) ==> !TakesOut(frames[i], steps[i], k)
  }

  /** The history of an armed key does not go on with a disarming, as long as no step takes
      it out before it has fired. */
  lemma {:induction false} NotTakenOut(frames: seq<Frame>, steps: seq<Step>, k: Key, a: nat, n: nat)
    requires IsRun(frames, steps) && a <= n < |frames| && StillArmed(frames[a], k)
    requires NeverTakenOut(frames, steps, k, a, n)
    ensures Spared(HistoryAt(frames, a, k), HistoryAt(frames, n, k))
  {
    assert |frames| == |steps| + 1;
    assert a == n ==> Spared(HistoryAt(frames, a, k), HistoryAt(frames, n, k));
    assert a < n ==> NeverTakenOut(frames, steps, k, a, n - 1) && (StillArmed(frames[n - 1], k) ==> !TakesOut(frames[n - 1], steps[n - 1], k));
    hide *;
    if a < n {
      NotTakenOut(frames, steps, k, a, n - 1);
      StepSpares(frames, steps, k, a, n);
    }
  }

  lemma StepSpares(frames: seq<Frame>, steps: seq<Step>, k: Key, a: nat, n: nat)
    requires IsRun(frames, steps) && a < n < |frames| && StillArmed(frames[a], k)
    requires Spared(HistoryAt(frames, a, k), HistoryAt(frames, n - 1, k))
    requires |frames| == |steps| + 1 && (StillArmed(frames[n - 1], k) ==> !TakesOut(frames[n - 1], steps[n - 1], k))
    ensures Spared(HistoryAt(frames, a, k), HistoryAt(frames, n, k))
  {
    hide *;
    StepInRunAdds(frames, steps, k, n - 1);
    if HistoryAt(frames, a, k) == HistoryAt(frames, n - 1, k) {
      ArmedMeansWaiting(frames, steps, a, k);
      ArmedMeansWaiting(frames, steps, n - 1, k);
    }
    NoDisarmingNext(HistoryAt(frames, a, k), HistoryAt(frames, n - 1, k), HistoryAt(frames, n, k));
  }

  lemma NoDisarmingNext(h: seq<Event>, m: seq<Event>, longer: seq<Event>)
    requires Spared(h, m) && m <= longer && (h == m ==> !Adds(m, longer, Disarmed))
    ensures Spared(h, longer)
  {
    if |h| < |m| {
      assert longer[|h|] == m[|h|];
    } else if |h| < |longer| {
      FirstIsAdded(m, longer);
    }
  }

  lemma FirstIsAdded(h: seq<Event>, longer: seq<Event>)
    requires h < longer
    ensures Adds(h, longer, longer[|h|])
  {
    assert longer[|h|..][0] == longer[|h|];
  }

  lemma StepInRunAdds(frames: seq<Frame>, steps: seq<Step>, k: Key, i: nat)
    requires IsRun(frames, steps) && i < |steps|
    ensures |frames| == |steps| + 1 && HistoryAt(frames, i, k) <= HistoryAt(frames, i + 1, k)
    ensures Adds(HistoryAt(frames, i, k), HistoryAt(frames, i + 1, k), Disarmed) ==> TakesOut(frames[i], steps[i], k)
  {
    assert StepOf(frames[i], steps[i], frames[i + 1]);
    StepAdds(frames[i], steps[i], frames[i + 1], k);
  }

  // ---- Nodes ----

  /** Of the observations about this key from a to n all are node statuses. */
  predicate OnlyNodeStatuses(frames: seq<Frame>, steps: seq<Step>, k: Key, a: nat, n: nat)
    requires n <= |steps| < |frames|
  {
    forall i :: a <= i < n && steps[i].Process? ==> NodeStatusFor(frames[i], steps[i].o, k)
  }

  predicate NodeStatusFor(f: Frame, o: Observation, k: Key) {
    (exists j :: 0 <= j < |f.ds| && KeyOf(f.ds[j], o) == k) ==> o.kind == "node_status"
  }

  /** A disarming of a key that only node statuses touch comes from a tick: its detector is
      not loaded any more, or it has fired and ten minutes went by without a match. */
  lemma NodesAreDisarmedByTicks(frames: seq<Frame>, steps: seq<Step>, k: Key, i: nat)
    requires IsRun(frames, steps) && i < |steps| && (steps[i].Process? ==> NodeStatusFor(frames[i], steps[i].o, k))
    requires Adds(HistoryAt(frames, i, k), HistoryAt(frames, i + 1, k), Disarmed)
    ensures steps[i].Tick? && k in frames[i].track.states
    ensures var st := frames[i].track.states[k];
            ByName(frames[i].ds, k.playbook) == |frames[i].ds| || (st.fired && steps[i].now - st.lastMatch > EVENT_ARM_TTL)
  {
    assert StepOf(frames[i], steps[i], frames[i + 1]);
    StepAdds(frames[i], steps[i], frames[i + 1], k);
  }

  /** So, against the engine's own description, a node that has recovered inside its debounce
      still fires: in every run in which only node statuses touch an armed key, whatever they
      say, it has fired by the end of any tick past its debounce, if its detector is loaded
      then and at the ticks before. */
  lemma RecoveredNodeFires(frames: seq<Frame>, steps: seq<Step>, k: Key, a: nat, n: nat)
    requires IsRun(frames, steps) && a <= n < |steps| && StillArmed(frames[a], k) && steps[n].Tick?
    requires OnlyNodeStatuses(frames, steps, k, a, n)
    requires forall i :: a <= i <= n && steps[i].Tick? ==> ByName(frames[i].ds, k.playbook) < |frames[i].ds|
    requires steps[n].now - frames[a].track.states[k].armedAt >= frames[n].ds[ByName(frames[n].ds, k.playbook)].debounce as real
    ensures var h, after := HistoryAt(frames, a, k), HistoryAt(frames, n + 1, k); h < after && after[|h|].Fired?
  {
    NotTakenOut(frames, steps, k, a, n);
    ArmedKeyFires(frames, steps, k, a, n);
  }

  // ---- What an observation does ----

  /** The detectors see an observation one after the other. */
  lemma {:induction false} SweepSplits(t: Track, ds: seq<Detector>, i: nat, o: Observation, evidence: string)
    requires i <= |ds|
    ensures var mid := ObserveAll(t, ds[..i], o, evidence);
            ObserveAll(t, ds, o, evidence) == ObserveAll(mid, ds[i..], o, evidence) &&
            FindingsOf(t, ds, o, evidence, "watch") == FindingsOf(t, ds[..i], o, evidence, "watch") + FindingsOf(mid, ds[i..], o, evidence, "watch")
    decreases |ds|
  {
    if i > 0 {
      var first := Observe(t, ds[0], o, evidence);
      hide Observe, ShotBy;
      SweepSplits(first, ds[1..], i - 1, o, evidence);
      assert ds[..i][0] == ds[0] && ds[..i][1..] == ds[1..][..i - 1] && ds[1..][i - 1..] == ds[i..];
      assert ObserveAll(t, ds[..i], o, evidence) == ObserveAll(first, ds[1..][..i - 1], o, evidence);
      FindingsRegroup(ShotBy(t, ds[0], o, evidence, "watch"), FindingsOf(first, ds[1..][..i - 1], o, evidence, "watch"),
                      FindingsOf(ObserveAll(t, ds[..i], o, evidence), ds[i..], o, evidence, "watch"));
    } else {
      assert ds[0..] == ds && ds[..0] == [];
    }
  }

  lemma FindingsRegroup(a: seq<Finding>, b: seq<Finding>, c: seq<Finding>)
    ensures a + (b + c) == (a + b) + c
  {
  }

  /** What detector i finds and leaves when an observation reaches it. */
  function SeenBy(f: Frame, i: nat, o: Observation, evidence: string): Track
    requires i <= |f.ds|
  {
    ObserveAll(f.track, f.ds[..i], o, evidence)
  }

  lemma SeenInTurn(f: Frame, i: nat, o: Observation, evidence: string)
    requires i < |f.ds|
    ensures SeenBy(f, i + 1, o, evidence) == Observe(SeenBy(f, i, o, evidence), f.ds[i], o, evidence)
    ensures ObserveAll(f.track, f.ds, o, evidence) == ObserveAll(SeenBy(f, i + 1, o, evidence), f.ds[i + 1..], o, evidence)
    ensures forall x :: x in ShotBy(SeenBy(f, i, o, evidence), f.ds[i], o, evidence, "watch") ==> x in FindingsOf(f.track, f.ds, o, evidence, "watch")
  {
    var ds := f.ds;
    hide Observe, ShotBy;
    SweepSplits(f.track, ds, i, o, evidence);
    SweepSplits(f.track, ds, i + 1, o, evidence);
    SweepSplits(f.track, ds[..i + 1], i, o, evidence);
    assert ds[..i + 1][..i] == ds[..i] && ds[..i + 1][i..] == [ds[i]] && ds[i..][0] == ds[i];
    OneDetector(SeenBy(f, i, o, evidence), ds[i], o, evidence);
  }

  lemma OneDetector(t: Track, d: Detector, o: Observation, evidence: string)
    ensures ObserveAll(t, [d], o, evidence) == Observe(t, d, o, evidence)
  {
    assert [d][1..] == [];
  }

  /** A key that is armed or touched now, and whether it fires at once. */
  predicate Answered(before: Track, after: Track, k: Key, d: Detector, o: Observation, evidence: string) {
    k in after.states &&
    var st, h := after.states[k], History(before, k);
    var due := o.ts - st.armedAt >= d.debounce as real;
    var fired := if due then [Fired(o.ts, d.debounce)] else [];
    st.lastMatch == o.ts &&
    if k in before.states then
      st.armedAt == before.states[k].armedAt && st.evidence == before.states[k].evidence &&
      st.fired == (before.states[k].fired || due) && History(after, k) == h + (if before.states[k].fired then [] else fired)
    else
      st.armedAt == o.ts && st.evidence == evidence && st.fired == due && History(after, k) == h + [Armed(o.ts)] + fired
  }

  /** In every run, an observation that is no deletion and that some predicate of a loaded
      detector is about and true of arms the key, if it is idle when the detector sees it. It
      fires at once exactly if its debounce has passed, for a key that it arms exactly if the
      debounce is 0, and not again if it has fired. The finding is reported. */
  lemma MatchIsAnswered(frames: seq<Frame>, steps: seq<Step>, n: nat, i: nat, p: Predicate)
    requires IsRun(frames, steps) && n < |steps| && steps[n].Process? && i < |frames[n].ds|
    requires var o := steps[n].o;
             p in frames[n].ds[i].predicates && p.test(o) && !(o.kind == "pod_status" && o.deleted) &&
             (p.kind, o.kind) in {("Pod", "pod_status"), ("Node", "node_status"), ("Event", "event")}
    ensures
      var o, evidence, d := steps[n].o, steps[n].evidence, frames[n].ds[i];
      var k, before, after := Key(d.playbook, o.namespace, o.name), SeenBy(frames[n], i, o, evidence), SeenBy(frames[n], i + 1, o, evidence);
      Answered(before, after, k, d, o, evidence) &&
      (k !in before.states <==> PhaseOf(History(before, k)) == Idle) &&
      (after.states[k].fired && (k in before.states ==> !before.states[k].fired) ==>
         Finding(k, after.states[k].armedAt, after.states[k].evidence, "watch") in FindingsOf(frames[n].track, frames[n].ds, o, evidence, "watch")) &&
      History(after, k) <= HistoryAt(frames, n + 1, k)
  {
    var o, evidence, d := steps[n].o, steps[n].evidence, frames[n].ds[i];
    var k, before, after := Key(d.playbook, o.namespace, o.name), SeenBy(frames[n], i, o, evidence), SeenBy(frames[n], i + 1, o, evidence);
    hide Observe, ShotBy, FindingsOf, Lawful;
    assert StepOf(frames[n], steps[n], frames[n + 1]);
    SeenInTurn(frames[n], i, o, evidence);
    SeenIsLawful(frames, steps, n, i);
    LawfulThere(before, k);
    ObserveAllAdds(after, frames[n].ds[i + 1..], o, evidence, k);
    var j :| 0 <= j < |d.predicates| && d.predicates[j] == p;
    assert MatchesOne(d.predicates[j], o);
    MatchAnswers(before, d, o, evidence);
  }

  lemma LawfulThere(t: Track, k: Key)
    requires Lawful(t)
    ensures PhaseOf(History(t, k)) == PhaseIn(t.states, k)
  {
    assert LawfulAt(t, k);
  }

  lemma SeenIsLawful(frames: seq<Frame>, steps: seq<Step>, n: nat, i: nat)
    requires IsRun(frames, steps) && n < |steps| && steps[n].Process? && i <= |frames[n].ds|
    ensures Lawful(SeenBy(frames[n], i, steps[n].o, steps[n].evidence))
  {
    hide Lawful;
    RunsAreLawful(frames, steps);
    ObserveAllKeepsLawful(frames[n].track, frames[n].ds[..i], steps[n].o, steps[n].evidence);
  }

  lemma MatchAnswers(t: Track, d: Detector, o: Observation, evidence: string)
    requires Matches(d, o) && !(o.kind == "pod_status" && o.deleted)
    ensures Answered(t, Observe(t, d, o, evidence), KeyOf(d, o), d, o, evidence)
    ensures var after := Observe(t, d, o, evidence).states[KeyOf(d, o)];
            after.fired && (KeyOf(d, o) in t.states ==> !t.states[KeyOf(d, o)].fired) ==>
            Finding(KeyOf(d, o), after.armedAt, after.evidence, "watch") in ShotBy(t, d, o, evidence, "watch")
  {
  }

  /** A pod status takes the key of a detector that watches a status out of the table if the
      pod is gone or none of the detector's pod predicates is true of it. */
  lemma RecoveryDisarms(frames: seq<Frame>, steps: seq<Step>, n: nat, i: nat, watched: Predicate)
    requires IsRun(frames, steps) && n < |steps| && steps[n].Process? && i < |frames[n].ds|
    requires watched in frames[n].ds[i].predicates && watched.kind in {"Pod", "Node"}
    requires steps[n].o.kind == "pod_status"
    requires steps[n].o.deleted || forall p :: p in frames[n].ds[i].predicates && p.kind == "Pod" ==> !p.test(steps[n].o)
    ensures
      var o, evidence, d := steps[n].o, steps[n].evidence, frames[n].ds[i];
      var k, before, after := Key(d.playbook, o.namespace, o.name), SeenBy(frames[n], i, o, evidence), SeenBy(frames[n], i + 1, o, evidence);
      k !in after.states && History(after, k) == History(before, k) + (if k in before.states then [Disarmed] else []) &&
      History(after, k) <= HistoryAt(frames, n + 1, k)
  {
    var o, evidence, d := steps[n].o, steps[n].evidence, frames[n].ds[i];
    assert StepOf(frames[n], steps[n], frames[n + 1]);
    SeenInTurn(frames[n], i, o, evidence);
    ObserveAllAdds(SeenBy(frames[n], i + 1, o, evidence), frames[n].ds[i + 1..], o, evidence, KeyOf(d, o));
    var j :| 0 <= j < |d.predicates| && d.predicates[j] == watched;
  }

  /** After the whole observation the key that its last matching detector answered is in the
      table, unless a later detector of the same playbook disarms it. */
  lemma MatchKeepsKey(frames: seq<Frame>, steps: seq<Step>, n: nat, i: nat)
    requires IsRun(frames, steps) && n < |steps| && steps[n].Process? && i < |frames[n].ds|
    requires Matches(frames[n].ds[i], steps[n].o) && !(steps[n].o.kind == "pod_status" && steps[n].o.deleted)
    requires forall j :: i < j < |frames[n].ds| && frames[n].ds[j].playbook == frames[n].ds[i].playbook ==> !Matches(frames[n].ds[j], steps[n].o)
    ensures KeyOf(frames[n].ds[i], steps[n].o) in frames[n + 1].track.states <==>
            forall j :: i < j < |frames[n].ds| && frames[n].ds[j].playbook == frames[n].ds[i].playbook ==> !Disarms(frames[n].ds[j], steps[n].o)
  {
    var f, o, evidence := frames[n], steps[n].o, steps[n].evidence;
    assert StepOf(f, steps[n], frames[n + 1]);
    SeenInTurn(f, i, o, evidence);
    var rest := f.ds[i + 1..];
    assert forall j :: 0 <= j < |rest| ==> rest[j] == f.ds[i + 1 + j];
    MatchAnswers(SeenBy(f, i, o, evidence), f.ds[i], o, evidence);
    SweepDisarms(SeenBy(f, i + 1, o, evidence), rest, o, evidence, KeyOf(f.ds[i], o));
    assert forall j :: i < j < |f.ds| ==> f.ds[j] == rest[j - i - 1];
  }

  lemma {:induction false} SweepDisarms(t: Track, ds: seq<Detector>, o: Observation, evidence: string, k: Key)
    requires forall j :: 0 <= j < |ds| && KeyOf(ds[j], o) == k ==> !Matches(ds[j], o)
    ensures k in ObserveAll(t, ds, o, evidence).states <==>
            k in t.states && forall j :: 0 <= j < |ds| && KeyOf(ds[j], o) == k ==> !Disarms(ds[j], o)
    decreases |ds|
  {
    if ds != [] {
      var rest := ds[1..];
      assert forall j :: 0 <= j < |rest| ==> rest[j] == ds[j + 1];
      SweepDisarms(Observe(t, ds[0], o, evidence), rest, o, evidence, k);
      UnmatchedObserve(t, ds[0], o, evidence, k);
      hide Observe, Disarms, Matches;
      assert forall j :: 0 < j < |ds| ==> ds[j] == rest[j - 1];
    }
  }

  lemma UnmatchedObserve(t: Track, d: Detector, o: Observation, evidence: string, k: Key)
    requires KeyOf(d, o) == k ==> !Matches(d, o)
    ensures k in Observe(t, d, o, evidence).states <==> k in t.states && !(KeyOf(d, o) == k && Disarms(d, o))
  {
  }

  // ---- What a tick does ----

  /** A tick fires a key exactly if its debounce has passed and it has not fired, and drops it
      exactly if no detector of its playbook is loaded, or it has fired and ten minutes went
      by without a match. */
  lemma TickSettles(frames: seq<Frame>, steps: seq<Step>, n: nat, k: Key)
    requires IsRun(frames, steps) && n < |steps| && steps[n].Tick? && k in frames[n].track.states
    ensures
      var st, ds, now, i := frames[n].track.states[k], frames[n].ds, steps[n].now, ByName(frames[n].ds, k.playbook);
      var h, after := HistoryAt(frames, n, k), frames[n + 1].track;
      var fires := i < |ds| && !st.fired && now - st.armedAt >= ds[i].debounce as real;
      var drops := i == |ds| || (st.fired && now - st.lastMatch > 600.0);
      HistoryAt(frames, n + 1, k) == h + (if fires then [Fired(now, ds[i].debounce)] else if drops then [Disarmed] else []) &&
      (k in after.states <==> !drops) && (k in after.states ==> after.states[k] == st.(fired := st.fired || fires))
  {
    assert StepOf(frames[n], steps[n], frames[n + 1]);
    assert SameKey(frames[n + 1].track, TickKey(frames[n].track, k, frames[n].ds, steps[n].now, true), k);
  }

  // ---- Where keys come from ----

  /** This step armed the key as it stands: an observation of its object, at the time and with
      the evidence in its state, that a loaded detector of its playbook matches. */
  predicate ArmedBy(f: Frame, s: Step, k: Key, st: KeyState) {
    s.Process? && s.o.ts == st.armedAt && s.evidence == st.evidence && s.o.namespace == k.namespace && s.o.name == k.name &&
    exists i :: 0 <= i < |f.ds| && f.ds[i].playbook == k.playbook && Matches(f.ds[i], s.o)
  }

  /** Nothing is ever armed without a match: in every run each key in the table, and so each
      finding made from it, has the time and the evidence of an observation that matched. */
  lemma {:induction false} KeysWereObserved(frames: seq<Frame>, steps: seq<Step>, n: nat, k: Key) returns (m: nat)
    requires IsRun(frames, steps) && n < |frames| && k in frames[n].track.states
    ensures m < n && ArmedBy(frames[m], steps[m], k, frames[n].track.states[k])
  {
    m := n - 1;
    var a, s, b := frames[m], steps[m], frames[n];
    assert StepOf(a, s, b);
    if !(s.Process? && ArmedBy(a, s, k, b.track.states[k])) {
      match s {
        case Process(o, evidence) => SweepKeepsArming(a.track, a.ds, o, evidence, k);
        case Tick(now) =>
          assert k !in a.track.states ==> SameKey(b.track, a.track, k);
          assert k in a.track.states ==> SameKey(b.track, TickKey(a.track, k, a.ds, now, true), k);
        case Load(_) =>
      }
      m := KeysWereObserved(frames, steps, n - 1, k);
    }
  }

  /** The same arming as before. */
  predicate SameArming(before: Track, after: Track, k: Key)
    requires k in after.states
  {
    k in before.states && after.states[k].armedAt == before.states[k].armedAt && after.states[k].evidence == before.states[k].evidence
  }

  lemma {:induction false} SweepKeepsArming(t: Track, ds: seq<Detector>, o: Observation, evidence: string, k: Key)
    requires k in ObserveAll(t, ds, o, evidence).states
    ensures var after := ObserveAll(t, ds, o, evidence);
            SameArming(t, after, k) ||
            (after.states[k].armedAt == o.ts && after.states[k].evidence == evidence &&
             exists i :: 0 <= i < |ds| && KeyOf(ds[i], o) == k && Matches(ds[i], o))
    decreases |ds|
  {
    if ds != [] {
      var mid, rest := Observe(t, ds[0], o, evidence), ds[1..];
      SweepKeepsArming(mid, rest, o, evidence, k);
      ObserveKeepsArming(t, ds[0], o, evidence, k);
      hide Observe, Matches;
      assert forall j :: 0 <= j < |rest| ==> rest[j] == ds[j + 1];
    }
  }

  lemma ObserveKeepsArming(t: Track, d: Detector, o: Observation, evidence: string, k: Key)
    ensures var after := Observe(t, d, o, evidence);
            k in after.states ==>
              SameArming(t, after, k) ||
              (after.states[k].armedAt == o.ts && after.states[k].evidence == evidence && KeyOf(d, o) == k && Matches(d, o))
  {
  }
}
