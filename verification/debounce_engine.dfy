/** The debounce and dedup machine of the detector engine (advance, Process, Tick in
    internal/detect/engine.go). Findings are told apart from the history of each key. */
module DebounceEngine {

  const EVENT_ARM_TTL: real := 600.0
  const RING_SIZE := 500

  datatype Observation = Observation(kind: string, ts: real, namespace: string, name: string, deleted: bool, payload: string)

  datatype Predicate = Predicate(kind: string, test: Observation -> bool)

  datatype Detector = Detector(playbook: string, debounce: nat, predicates: seq<Predicate>)

  datatype Key = Key(playbook: string, namespace: string, name: string)

  datatype KeyState = KeyState(armedAt: real, lastMatch: real, fired: bool, evidence: string)

  predicate MatchesOne(p: Predicate, o: Observation) {
    ((p.kind == "Pod" && o.kind == "pod_status") || (p.kind == "Node" && o.kind == "node_status") || (p.kind == "Event" && o.kind == "event"))
    && p.test(o)
  }

  predicate Matches(d: Detector, o: Observation) {
    exists i :: 0 <= i < |d.predicates| && MatchesOne(d.predicates[i], o)
  }

  /** Whether the detector watches a status at all. */
  predicate Stateful(d: Detector) {
    exists i :: 0 <= i < |d.predicates| && d.predicates[i].kind in {"Pod", "Node"}
  }

  // ---- The history of a key ----

  datatype Event = Armed(at: real) | Disarmed | Fired(at: real, debounce: nat)

  /** What a history comes to: nothing, armed since some time, fired since, or a history
      that no machine may produce. */
  datatype Phase = Idle | Waiting(since: real) | Done(since: real) | Broken

  function After(p: Phase, e: Event): Phase {
    match (p, e)
    case (Idle, Armed(at)) => Waiting(at)
    case (Waiting(_), Disarmed) => Idle
    case (Done(_), Disarmed) => Idle
    case (Waiting(since), Fired(at, debounce)) => if at - since >= debounce as real then Done(since) else Broken
    case (_, _) => Broken
  }

  function PhaseOf(h: seq<Event>): Phase {
    if h == [] then Idle else After(PhaseOf(h[..|h| - 1]), h[|h| - 1])
  }

  /** The phase that a key's state stands for. */
  function PhaseIn(states: map<Key, KeyState>, k: Key): Phase {
    if k !in states then Idle else if states[k].fired then Done(states[k].armedAt) else Waiting(states[k].armedAt)
  }

  /** The live half of the engine, with the history of every key. */
  datatype Track = Track(states: map<Key, KeyState>, log: map<Key, seq<Event>>)

  function History(t: Track, k: Key): seq<Event> {
    if k in t.log then t.log[k] else []
  }

  function Note(t: Track, k: Key, e: Event): map<Key, seq<Event>> {
    t.log[k := History(t, k) + [e]]
  }

  // ---- One observation, one detector ----

  function KeyOf(d: Detector, o: Observation): Key { Key(d.playbook, o.namespace, o.name) }

  /** Whether this observation takes the key of this detector out of the table. */
  predicate Disarms(d: Detector, o: Observation) {
    o.kind == "pod_status" && Stateful(d) && (o.deleted || !Matches(d, o))
  }

  predicate Due(st: KeyState, debounce: nat, now: real) {
    !st.fired && now - st.armedAt >= debounce as real
  }

  function Forget(t: Track, k: Key): Track {
    Track(t.states - {k}, Note(t, k, Disarmed))
  }

  function Arm(t: Track, k: Key, now: real, evidence: string): Track {
    Track(t.states[k := KeyState(now, now, false, evidence)], Note(t, k, Armed(now)))
  }

  function Touch(t: Track, k: Key, now: real): Track
    requires k in t.states
  {
    t.(states := t.states[k := t.states[k].(lastMatch := now)])
  }

  /** advance: the state after the observation, and whether the key fires now. */
  function Advance(t: Track, d: Detector, o: Observation, evidence: string): (r: (Track, bool))
    ensures r.1 ==> KeyOf(d, o) in r.0.states && Due(r.0.states[KeyOf(d, o)], d.debounce, o.ts)
  {
    var k := KeyOf(d, o);
    if o.kind == "pod_status" && o.deleted then
      (if k in t.states && Stateful(d) then Forget(t, k) else t, false)
    else if Matches(d, o) then
      var armed := if k in t.states then Touch(t, k, o.ts) else Arm(t, k, o.ts, evidence);
      (armed, Due(armed.states[k], d.debounce, o.ts))
    else
      (if k in t.states && o.kind == "pod_status" && Stateful(d) then Forget(t, k) else t, false)
  }

  function Fire(t: Track, k: Key, debounce: nat, now: real): Track
    requires k in t.states
  {
    Track(t.states[k := t.states[k].(fired := true)], Note(t, k, Fired(now, debounce)))
  }

  /** advance, and the firing that follows it. */
  function Observe(t: Track, d: Detector, o: Observation, evidence: string): Track {
    var (after, due) := Advance(t, d, o, evidence);
    if due then Fire(after, KeyOf(d, o), d.debounce, o.ts) else after
  }

  datatype Finding = Finding(key: Key, firstSeen: real, evidence: string, source: string)

  function FindingFor(t: Track, k: Key, source: string): Finding
    requires k in t.states
  {
    Finding(k, t.states[k].armedAt, t.states[k].evidence, source)
  }

  /** The finding that one detector makes of the observation, if any. */
  function ShotBy(t: Track, d: Detector, o: Observation, evidence: string, source: string): seq<Finding> {
    var (after, due) := Advance(t, d, o, evidence);
    if due then [FindingFor(after, KeyOf(d, o), source)] else []
  }

  /** The findings of one observation, in the order of the detectors. */
  function FindingsOf(t: Track, ds: seq<Detector>, o: Observation, evidence: string, source: string): seq<Finding>
    decreases |ds|
  {
    if ds == [] then []
    else ShotBy(t, ds[0], o, evidence, source) + FindingsOf(Observe(t, ds[0], o, evidence), ds[1..], o, evidence, source)
  }

  /** Every loaded detector sees the observation in turn. */
  function ObserveAll(t: Track, ds: seq<Detector>, o: Observation, evidence: string): Track
    decreases |ds|
  {
    if ds == [] then t else ObserveAll(Observe(t, ds[0], o, evidence), ds[1..], o, evidence)
  }

  // ---- One tick ----

  /** The first loaded detector of a playbook, as its position, or |ds|. */
  function ByName(ds: seq<Detector>, playbook: string): (i: nat)
    ensures i <= |ds|
    ensures i < |ds| ==> ds[i].playbook == playbook
    ensures forall j :: 0 <= j < i ==> ds[j].playbook != playbook
  {
    if ds == [] then 0 else if ds[0].playbook == playbook then 0 else
      var i := ByName(ds[1..], playbook);
      assert forall j :: 0 < j < |ds| ==> ds[j] == ds[1..][j - 1];
      1 + i
  }

  /** What a tick does to one key. Only live keys expire. */
  datatype TickAct = Leave | Drop | Shoot(debounce: nat)

  function ActOn(st: KeyState, ds: seq<Detector>, playbook: string, now: real, live: bool): TickAct {
    var i := ByName(ds, playbook);
    if i == |ds| then Drop
    else if Due(st, ds[i].debounce, now) then Shoot(ds[i].debounce)
    else if live && st.fired && now - st.lastMatch > EVENT_ARM_TTL then Drop
    else Leave
  }

  function TickKey(t: Track, k: Key, ds: seq<Detector>, now: real, live: bool): Track
    requires k in t.states
  {
    match ActOn(t.states[k], ds, k.playbook, now, live)
    case Leave => t
    case Drop => Forget(t, k)
    case Shoot(debounce) => Fire(t, k, debounce, now)
  }

  /** after is t with every key of ks ticked once, whatever the order. */
  ghost predicate Ticked(t: Track, after: Track, ks: set<Key>, ds: seq<Detector>, now: real, live: bool)
    requires ks <= t.states.Keys
  {
    (forall k :: k in ks ==> SameKey(after, TickKey(t, k, ds, now, live), k)) &&
    (forall k :: k !in ks ==> SameKey(after, t, k))
  }

  /** Two tracks agree on a key. */
  ghost predicate SameKey(a: Track, b: Track, k: Key) {
    (k in a.states <==> k in b.states) && (k in a.states ==> a.states[k] == b.states[k]) && History(a, k) == History(b, k)
  }

  // ---- What every step keeps ----

  ghost predicate LawfulAt(t: Track, k: Key) {
    PhaseOf(History(t, k)) == PhaseIn(t.states, k)
  }

  /** Each key's state is exactly what its history says, so no history is ever broken. */
  ghost predicate Lawful(t: Track) {
    forall k :: LawfulAt(t, k)
  }

  /** Only the key k may differ. */
  ghost predicate OnlyAt(k: Key, t: Track, after: Track) {
    forall j :: j != k ==> SameKey(after, t, j)
  }

  lemma Snoc(h: seq<Event>, e: Event)
    ensures PhaseOf(h + [e]) == After(PhaseOf(h), e)
  {
    assert (h + [e])[..|h|] == h;
  }

  lemma SameKeyIsLawful(t: Track, after: Track, k: Key)
    requires LawfulAt(t, k) && SameKey(after, t, k)
    ensures LawfulAt(after, k)
  {
  }

  lemma LawfulByKey(t: Track, after: Track, k: Key)
    requires Lawful(t) && OnlyAt(k, t, after) && LawfulAt(after, k)
    ensures Lawful(after)
  {
    forall j
      ensures LawfulAt(after, j)
    {
      assert LawfulAt(t, j);
      if j != k {
        assert SameKey(after, t, j);
        SameKeyIsLawful(t, after, j);
      }
    }
  }

  lemma ForgetKeepsLawful(t: Track, k: Key)
    requires LawfulAt(t, k) && k in t.states
    ensures LawfulAt(Forget(t, k), k) && OnlyAt(k, t, Forget(t, k))
  {
    Snoc(History(t, k), Disarmed);
  }

  lemma ArmKeepsLawful(t: Track, k: Key, now: real, evidence: string)
    requires LawfulAt(t, k) && k !in t.states
    ensures LawfulAt(Arm(t, k, now, evidence), k) && OnlyAt(k, t, Arm(t, k, now, evidence))
  {
    Snoc(History(t, k), Armed(now));
  }

  lemma TouchKeepsLawful(t: Track, k: Key, now: real)
    requires LawfulAt(t, k) && k in t.states
    ensures LawfulAt(Touch(t, k, now), k) && OnlyAt(k, t, Touch(t, k, now))
  {
  }

  lemma FireKeepsLawful(t: Track, k: Key, debounce: nat, now: real)
    requires LawfulAt(t, k) && k in t.states && Due(t.states[k], debounce, now)
    ensures LawfulAt(Fire(t, k, debounce, now), k) && OnlyAt(k, t, Fire(t, k, debounce, now))
  {
    Snoc(History(t, k), Fired(now, debounce));
  }

  lemma AdvanceKeepsLawful(t: Track, d: Detector, o: Observation, evidence: string)
    requires Lawful(t)
    ensures Lawful(Advance(t, d, o, evidence).0)
  {
    var k, after := KeyOf(d, o), Advance(t, d, o, evidence).0;
    assert LawfulAt(t, k);
    if after != t {
      if k !in t.states {
        ArmKeepsLawful(t, k, o.ts, evidence);
      } else if Disarms(d, o) {
        ForgetKeepsLawful(t, k);
      } else {
        TouchKeepsLawful(t, k, o.ts);
      }
      LawfulByKey(t, after, k);
    }
  }

  lemma ObserveKeepsLawful(t: Track, d: Detector, o: Observation, evidence: string)
    requires Lawful(t)
    ensures Lawful(Observe(t, d, o, evidence))
  {
    var (after, due) := Advance(t, d, o, evidence);
    AdvanceKeepsLawful(t, d, o, evidence);
    if due {
      var k := KeyOf(d, o);
      assert LawfulAt(after, k);
      FireKeepsLawful(after, k, d.debounce, o.ts);
      LawfulByKey(after, Fire(after, k, d.debounce, o.ts), k);
    }
  }

  lemma {:induction false} ObserveAllKeepsLawful(t: Track, ds: seq<Detector>, o: Observation, evidence: string)
    requires Lawful(t)
    ensures Lawful(ObserveAll(t, ds, o, evidence))
    decreases |ds|
  {
    if ds != [] {
      ObserveKeepsLawful(t, ds[0], o, evidence);
      ObserveAllKeepsLawful(Observe(t, ds[0], o, evidence), ds[1..], o, evidence);
    }
  }

  lemma TickKeyKeepsLawful(t: Track, k: Key, ds: seq<Detector>, now: real, live: bool)
    requires LawfulAt(t, k) && k in t.states
    ensures LawfulAt(TickKey(t, k, ds, now, live), k)
  {
    match ActOn(t.states[k], ds, k.playbook, now, live)
    case Leave =>
    case Drop => ForgetKeepsLawful(t, k);
    case Shoot(debounce) => FireKeepsLawful(t, k, debounce, now);
  }

  lemma TickKeepsLawful(t: Track, after: Track, ds: seq<Detector>, now: real, live: bool)
    requires Lawful(t) && Ticked(t, after, t.states.Keys, ds, now, live)
    ensures Lawful(after)
  {
    forall k
      ensures LawfulAt(after, k)
    {
      assert LawfulAt(t, k);
      if k in t.states {
        TickKeyKeepsLawful(t, k, ds, now, live);
        SameKeyIsLawful(TickKey(t, k, ds, now, live), after, k);
      } else {
        SameKeyIsLawful(t, after, k);
      }
    }
  }

  // ---- Runs ----

  datatype Step = Process(o: Observation, evidence: string) | Tick(now: real) | Load(ds: seq<Detector>)

  /** A run: the loaded detectors and the track before each step and at the end. */
  datatype Frame = Frame(ds: seq<Detector>, track: Track)

  ghost predicate StepOf(a: Frame, s: Step, b: Frame) {
    match s
    case Process(o, evidence) => b == Frame(a.ds, ObserveAll(a.track, a.ds, o, evidence))
    case Tick(now) => b.ds == a.ds && Ticked(a.track, b.track, a.track.states.Keys, a.ds, now, true)
    case Load(ds) => b == Frame(ds, a.track)
  }

  ghost predicate IsRun(frames: seq<Frame>, steps: seq<Step>) {
    |frames| == |steps| + 1 && frames[0].track == Track(map[], map[]) &&
    forall i :: 0 <= i < |steps| ==> StepOf(frames[i], steps[i], frames[i + 1])
  }

  /** In every interleaving of observations, ticks and detector reloads, all histories are
      lawful. */
  lemma {:induction false} RunsAreLawful(frames: seq<Frame>, steps: seq<Step>)
    requires IsRun(frames, steps)
    ensures forall i :: 0 <= i < |frames| ==> Lawful(frames[i].track)
  {
    for n := 1 to |frames|
      invariant forall i :: 0 <= i < n ==> Lawful(frames[i].track)
    {
      var a, s, b := frames[n - 1], steps[n - 1], frames[n];
      assert StepOf(a, s, b);
      match s {
        case Process(o, evidence) => ObserveAllKeepsLawful(a.track, a.ds, o, evidence);
        case Tick(now) => TickKeepsLawful(a.track, b.track, a.ds, now, true);
        case Load(_) =>
      }
    }
  }

  // ---- What a lawful history means ----

  lemma {:induction false} BrokenStaysBroken(h: seq<Event>, i: nat)
    requires i <= |h| && PhaseOf(h[..i]) == Broken
    ensures PhaseOf(h) == Broken
    decreases |h| - i
  {
    if i < |h| {
      assert h[..i + 1][..i] == h[..i];
      BrokenStaysBroken(h, i + 1);
    } else {
      assert h[..i] == h;
    }
  }

  /** Before every firing the key was armed at least the debounce time earlier, and was
      neither disarmed nor fired since. */
  lemma FiringFollowsArming(h: seq<Event>, j: nat)
    requires PhaseOf(h) != Broken && j < |h| && h[j].Fired?
    ensures exists i :: 0 <= i < j && h[i].Armed? && h[j].at - h[i].at >= h[j].debounce as real && i + 1 == j
  {
    if PhaseOf(h[..j + 1]) == Broken {
      BrokenStaysBroken(h, j + 1);
    }
    assert h[..j + 1][..j] == h[..j];
    assert PhaseOf(h[..j]).Waiting?;
    assert h[..j] != [];
    assert h[..j][..j - 1] == h[..j - 1];
    assert h[j - 1].Armed?;
  }

  lemma ArmingFollowsDisarming(h: seq<Event>, k: nat)
    requires PhaseOf(h) != Broken && 0 < k < |h| && h[k].Armed?
    ensures h[k - 1] == Disarmed
  {
    if PhaseOf(h[..k + 1]) == Broken {
      BrokenStaysBroken(h, k + 1);
    }
    assert h[..k + 1][..k] == h[..k];
    assert PhaseOf(h[..k]) == Idle;
    assert h[..k][..k - 1] == h[..k - 1];
  }

  /** Two firings of a key always have a disarming between them. */
  lemma FiringsAreSeparated(h: seq<Event>, i: nat, j: nat)
    requires PhaseOf(h) != Broken && i < j < |h| && h[i].Fired? && h[j].Fired?
    ensures exists m :: i < m < j && h[m] == Disarmed
  {
    FiringFollowsArming(h, j);
    ArmingFollowsDisarming(h, j - 1);
  }

  /** So in every run, whatever is observed, ticked and reloaded, and for every key: a firing
      comes right after an arming at least the debounce time before it, and between it and
      any earlier firing the key was disarmed. */
  lemma FindingsAreDebounced(frames: seq<Frame>, steps: seq<Step>, n: nat, k: Key, j: nat)
    requires IsRun(frames, steps) && n < |frames| && j < |History(frames[n].track, k)| && History(frames[n].track, k)[j].Fired?
    ensures var h := History(frames[n].track, k);
            (exists i :: 0 <= i < j && h[i].Armed? && h[j].at - h[i].at >= h[j].debounce as real && i + 1 == j) &&
            (forall i :: 0 <= i < j && h[i].Fired? ==> exists m :: i < m < j && h[m] == Disarmed)
  {
    var t := frames[n].track;
    var h := History(t, k);
    RunsAreLawful(frames, steps);
    assert LawfulAt(t, k);
    FiringFollowsArming(h, j);
    forall i: nat | i < j && h[i].Fired?
      ensures exists m :: i < m < j && h[m] == Disarmed
    {
      FiringsAreSeparated(h, i, j);
    }
  }

  /** A key that is still armed when its debounce has passed fires at that tick, and the
      finding is logged. */
  lemma DueKeyFires(t: Track, after: Track, ds: seq<Detector>, now: real, k: Key)
    requires Ticked(t, after, t.states.Keys, ds, now, true)
    requires k in t.states && ByName(ds, k.playbook) < |ds| && Due(t.states[k], ds[ByName(ds, k.playbook)].debounce, now)
    ensures k in after.states && after.states[k].fired && after.states[k].armedAt == t.states[k].armedAt
    ensures History(after, k) == History(t, k) + [Fired(now, ds[ByName(ds, k.playbook)].debounce)]
  {
    assert SameKey(after, TickKey(t, k, ds, now, true), k);
  }

  /** An observation takes a key out exactly if it is a pod status, the detector watches a
      status, and the object is gone or no longer matches. In particular no node status
      ever does, although the engine's own description says it would. */
  lemma OnlyPodStatusDisarms(t: Track, d: Detector, o: Observation, evidence: string)
    requires KeyOf(d, o) in t.states
    ensures KeyOf(d, o) !in Observe(t, d, o, evidence).states <==> Disarms(d, o)
    ensures o.kind == "node_status" ==> KeyOf(d, o) in Observe(t, d, o, evidence).states
  {
  }

  /** A fired key stays silent until ten minutes have passed without a match: no tick
      drops it or fires it again. Together with MatchesDoNotRefire this is the dedup of a
      node that has recovered, which nothing else clears. */
  lemma FiredKeyIsSilent(t: Track, after: Track, ds: seq<Detector>, k: Key, now: real)
    requires k in t.states && t.states[k].fired
    requires Ticked(t, after, t.states.Keys, ds, now, true)
    ensures SameKey(after, t, k) <==> ByName(ds, k.playbook) < |ds| && now - t.states[k].lastMatch <= EVENT_ARM_TTL
  {
    assert SameKey(after, TickKey(t, k, ds, now, true), k);
  }

  /** As long as no observation disarms it, a fired key's history does not grow. */
  lemma MatchesDoNotRefire(t: Track, d: Detector, o: Observation, evidence: string)
    requires KeyOf(d, o) in t.states && t.states[KeyOf(d, o)].fired
    ensures History(Observe(t, d, o, evidence), KeyOf(d, o)) == History(t, KeyOf(d, o)) <==> !Disarms(d, o)
  {
    var k := KeyOf(d, o);
    assert |History(t, k) + [Disarmed]| == |History(t, k)| + 1;
  }

  // ---- The engine ----

  function AppendRing(ring: seq<Finding>, f: Finding): (out: seq<Finding>)
    ensures |ring| <= RING_SIZE ==> |out| <= RING_SIZE
  {
    var all := ring + [f];
    if |all| > RING_SIZE then all[|all| - RING_SIZE..] else all
  }

  function AppendAll(ring: seq<Finding>, fs: seq<Finding>): (out: seq<Finding>)
    ensures |ring| <= RING_SIZE ==> |out| <= RING_SIZE
    decreases |fs|
  {
    if fs == [] then ring else AppendRing(AppendAll(ring, fs[..|fs| - 1]), fs[|fs| - 1])
  }


  function Latest(fs: seq<Finding>): seq<Finding> {
    if |fs| > RING_SIZE then fs[|fs| - RING_SIZE..] else fs
  }

  /** Appending to the latest findings gives the latest of all. */
  lemma LatestGrows(fs: seq<Finding>, f: Finding)
    ensures AppendRing(Latest(fs), f) == Latest(fs + [f])
  {
    if |fs| > RING_SIZE {
      var n := |fs| - RING_SIZE;
      assert (fs + [f])[n..] == fs[n..] + [f];
      assert (fs[n..] + [f])[1..] == (fs + [f])[n + 1..];
    }
  }

  /** The ring is always the last findings, as many as fit, whichever of them came at once. */
  lemma {:induction false} RingHoldsTheLatest(fs: seq<Finding>, gs: seq<Finding>)
    ensures Latest([]) == [] && AppendAll(Latest(fs), gs) == Latest(fs + gs)
    ensures |Latest(fs)| == (if |fs| < 500 then |fs| else 500) && Latest(fs) == fs[|fs| - |Latest(fs)|..]
  {
    if gs == [] {
      assert fs + gs == fs;
    } else {
      var n := |gs| - 1;
      RingHoldsTheLatest(fs, gs[..n]);
      LatestGrows(fs + gs[..n], gs[n]);
      assert fs + gs[..n] + [gs[n]] == fs + gs;
    }
  }

  /** fs reports exactly the keys of ks that the tick shoots, each once. */
  ghost predicate ReportsShots(fs: seq<Finding>, t: Track, ks: set<Key>, ds: seq<Detector>, now: real, live: bool, source: string)
    requires ks <= t.states.Keys
  {
    Distinct(fs) &&
    (forall f :: f in fs ==> f.key in ks && ActOn(t.states[f.key], ds, f.key.playbook, now, live).Shoot? && f == FindingFor(t, f.key, source)) &&
    (forall k :: k in ks && ActOn(t.states[k], ds, k.playbook, now, live).Shoot? ==> exists f :: f in fs && f.key == k)
  }

  lemma TickedGrows(t: Track, mid: Track, after: Track, ks: set<Key>, k: Key, ds: seq<Detector>, now: real, live: bool)
    requires k in t.states && k !in ks && ks <= t.states.Keys && Ticked(t, mid, ks, ds, now, live)
    requires k in mid.states && after == TickKey(mid, k, ds, now, live)
    ensures Ticked(t, after, ks + {k}, ds, now, live)
  {
    assert SameKey(mid, t, k);
    assert OnlyAt(k, mid, after);
    forall j | j in ks + {k}
      ensures SameKey(after, TickKey(t, j, ds, now, live), j)
    {
      if j != k {
        assert SameKey(after, mid, j) && SameKey(mid, TickKey(t, j, ds, now, live), j);
      }
    }
    forall j | j !in ks + {k}
      ensures SameKey(after, t, j)
    {
      assert SameKey(after, mid, j) && SameKey(mid, t, j);
    }
  }

  lemma ShotsGrow(fs: seq<Finding>, out: seq<Finding>, t: Track, ks: set<Key>, k: Key, ds: seq<Detector>, now: real, live: bool, source: string)
    requires k in t.states && k !in ks && ks <= t.states.Keys && ReportsShots(fs, t, ks, ds, now, live, source)
    requires out == if ActOn(t.states[k], ds, k.playbook, now, live).Shoot? then fs + [FindingFor(t, k, source)] else fs
    ensures ReportsShots(out, t, ks + {k}, ds, now, live, source)
  {
    forall j | j in ks + {k} && ActOn(t.states[j], ds, j.playbook, now, live).Shoot?
      ensures exists f :: f in out && f.key == j
    {
      if j == k {
        assert out[|fs|].key == k;
      } else {
        var f :| f in fs && f.key == j;
        assert f in out;
      }
    }
  }

  // ---- Findings are the firings of the history ----

  function Firings(h: seq<Event>): nat {
    if h == [] then 0 else Firings(h[..|h| - 1]) + (if h[|h| - 1].Fired? then 1 else 0)
  }

  function About(fs: seq<Finding>, k: Key): nat {
    if fs == [] then 0 else (if fs[0].key == k then 1 else 0) + About(fs[1..], k)
  }

  lemma FiringsSnoc(h: seq<Event>, e: Event)
    ensures Firings(h + [e]) == Firings(h) + (if e.Fired? then 1 else 0)
  {
    assert (h + [e])[..|h|] == h;
  }

  lemma {:induction false} AboutConcat(fs: seq<Finding>, gs: seq<Finding>, k: Key)
    ensures About(fs + gs, k) == About(fs, k) + About(gs, k)
    decreases |fs|
  {
    if fs == [] {
      assert fs + gs == gs;
    } else {
      AboutConcat(fs[1..], gs, k);
      assert (fs + gs)[1..] == fs[1..] + gs;
    }
  }

  lemma AdvanceFiresNothing(t: Track, d: Detector, o: Observation, evidence: string, k: Key)
    ensures Firings(History(Advance(t, d, o, evidence).0, k)) == Firings(History(t, k))
  {
    FiringsSnoc(History(t, k), Disarmed);
    FiringsSnoc(History(t, k), Armed(o.ts));
  }

  lemma ObserveLogsItsShot(t: Track, d: Detector, o: Observation, evidence: string, source: string, k: Key)
    ensures Firings(History(Observe(t, d, o, evidence), k)) == Firings(History(t, k)) + About(ShotBy(t, d, o, evidence, source), k)
  {
    var (after, due) := Advance(t, d, o, evidence);
    AdvanceFiresNothing(t, d, o, evidence, k);
    if due {
      FiringsSnoc(History(after, k), Fired(o.ts, d.debounce));
    }
  }

  /** An observation reports each key as often as it adds a firing to its history. */
  lemma {:induction false} FindingsAreFirings(t: Track, ds: seq<Detector>, o: Observation, evidence: string, source: string, k: Key)
    ensures Firings(History(ObserveAll(t, ds, o, evidence), k)) == Firings(History(t, k)) + About(FindingsOf(t, ds, o, evidence, source), k)
    decreases |ds|
  {
    if ds != [] {
      ObserveLogsItsShot(t, ds[0], o, evidence, source, k);
      FindingsAreFirings(Observe(t, ds[0], o, evidence), ds[1..], o, evidence, source, k);
      AboutConcat(ShotBy(t, ds[0], o, evidence, source), FindingsOf(Observe(t, ds[0], o, evidence), ds[1..], o, evidence, source), k);
    }
  }

  predicate Distinct(fs: seq<Finding>) {
    forall i, j :: 0 <= i < j < |fs| ==> fs[i].key != fs[j].key
  }

  lemma {:induction false} AboutDistinct(fs: seq<Finding>, k: Key)
    requires Distinct(fs)
    ensures About(fs, k) == if exists f :: f in fs && f.key == k then 1 else 0
  {
    if fs != [] {
      AboutDistinct(fs[1..], k);
      assert forall f :: f in fs[1..] ==> f in fs;
      assert forall f :: f in fs ==> f == fs[0] || f in fs[1..];
      if fs[0].key == k {
        assert fs[0] in fs;
        assert forall f :: f in fs[1..] ==> f.key != k;
      }
    }
  }

  /** So does a tick. */
  lemma ShotsAreFirings(t: Track, after: Track, fs: seq<Finding>, ds: seq<Detector>, now: real, live: bool, source: string, k: Key)
    requires Ticked(t, after, t.states.Keys, ds, now, live) && ReportsShots(fs, t, t.states.Keys, ds, now, live, source)
    ensures Firings(History(after, k)) == Firings(History(t, k)) + About(fs, k)
  {
    AboutDistinct(fs, k);
    if k in t.states {
      assert SameKey(after, TickKey(t, k, ds, now, live), k);
      FiringsSnoc(History(t, k), Disarmed);
      var act := ActOn(t.states[k], ds, k.playbook, now, live);
      if act.Shoot? {
        FiringsSnoc(History(t, k), Fired(now, act.debounce));
      }
    } else {
      assert SameKey(after, t, k);
    }
  }

  class Engine {
    var detectors: seq<Detector>
    var shadow: seq<Detector>
    var states: map<Key, KeyState>
    var shadowStates: map<Key, KeyState>
    var findings: seq<Finding>
    var shadowFindings: seq<Finding>
    /** Every finding handed to the callback, in order. */
    var notified: seq<Finding>
    ghost var log: map<Key, seq<Event>>
    ghost var shadowLog: map<Key, seq<Event>>

    constructor (detectors: seq<Detector>)
      ensures Valid() && this.detectors == detectors && shadow == [] && Live() == Track(map[], map[]) && notified == []
    {
      this.detectors, shadow := detectors, [];
      states, shadowStates := map[], map[];
      findings, shadowFindings, notified := [], [], [];
      log, shadowLog := map[], map[];
    }

    ghost function Live(): Track
      reads this
    {
      Track(states, log)
    }

    ghost function Shadowed(): Track
      reads this
    {
      Track(shadowStates, shadowLog)
    }

    ghost predicate Valid()
      reads this
    {
      Lawful(Live()) && Lawful(Shadowed())
    }

    /** The live half of the result depends on the live half alone: shadow detectors change
        neither live states nor findings nor what the callback is told. */
    method Process(o: Observation, evidence: string) returns (fired: seq<Finding>)
      requires Valid()
      modifies this
      ensures Valid() && detectors == old(detectors) && shadow == old(shadow)
      ensures Live() == ObserveAll(old(Live()), detectors, o, evidence)
      ensures fired == FindingsOf(old(Live()), detectors, o, evidence, "watch")
      ensures findings == AppendAll(old(findings), fired) && notified == old(notified) + fired
      ensures Shadowed() == ObserveAll(old(Shadowed()), shadow, o, evidence)
      ensures shadowFindings == AppendAll(old(shadowFindings), FindingsOf(old(Shadowed()), shadow, o, evidence, "shadow"))
    {
      fired := ProcessLive(o, evidence);
      ProcessShadow(o, evidence);
      notified := notified + fired;
    }

    method ProcessLive(o: Observation, evidence: string) returns (fired: seq<Finding>)
      requires Valid()
      modifies this`states, this`log, this`findings
      ensures Valid()
      ensures Live() == ObserveAll(old(Live()), detectors, o, evidence)
      ensures fired == FindingsOf(old(Live()), detectors, o, evidence, "watch")
      ensures findings == AppendAll(old(findings), fired)
    {
      ObserveAllKeepsLawful(Live(), detectors, o, evidence);
      states, log, fired := Sweep(states, log, detectors, o, evidence, "watch");
      findings := AppendFindings(findings, fired);
    }

    method ProcessShadow(o: Observation, evidence: string)
      requires Valid()
      modifies this`shadowStates, this`shadowLog, this`shadowFindings
      ensures Valid()
      ensures Shadowed() == ObserveAll(old(Shadowed()), shadow, o, evidence)
      ensures shadowFindings == AppendAll(old(shadowFindings), FindingsOf(old(Shadowed()), shadow, o, evidence, "shadow"))
    {
      ObserveAllKeepsLawful(Shadowed(), shadow, o, evidence);
      var candidates;
      shadowStates, shadowLog, candidates := Sweep(shadowStates, shadowLog, shadow, o, evidence, "shadow");
      shadowFindings := AppendFindings(shadowFindings, candidates);
    }

    /** Fires due keys and drops stale ones. Shadow keys never go stale. */
    method Tick(now: real) returns (fired: seq<Finding>, ghost candidates: seq<Finding>)
      requires Valid()
      modifies this
      ensures Valid() && detectors == old(detectors) && shadow == old(shadow)
      ensures Ticked(old(Live()), Live(), old(states).Keys, detectors, now, true)
      ensures ReportsShots(fired, old(Live()), old(states).Keys, detectors, now, true, "watch")
      ensures findings == AppendAll(old(findings), fired) && notified == old(notified) + fired
      ensures Ticked(old(Shadowed()), Shadowed(), old(shadowStates).Keys, shadow, now, false)
      ensures ReportsShots(candidates, old(Shadowed()), old(shadowStates).Keys, shadow, now, false, "shadow")
      ensures shadowFindings == AppendAll(old(shadowFindings), candidates)
    {
      fired := TickLive(now);
      candidates := TickShadow(now);
      notified := notified + fired;
    }

    method TickLive(now: real) returns (fired: seq<Finding>)
      requires Valid()
      modifies this`states, this`log, this`findings
      ensures Valid()
      ensures Ticked(old(Live()), Live(), old(states).Keys, detectors, now, true)
      ensures ReportsShots(fired, old(Live()), old(states).Keys, detectors, now, true, "watch")
      ensures findings == AppendAll(old(findings), fired)
    {
      var newStates;
      ghost var newLog;
      newStates, newLog, fired := TickAll(states, log, detectors, now, true, "watch");
      var ring := AppendFindings(findings, fired);
      states, log, findings := newStates, newLog, ring;
      assert Live() == Track(newStates, newLog) && Shadowed() == old(Shadowed());
    }

    method TickShadow(now: real) returns (ghost candidates: seq<Finding>)
      requires Valid()
      modifies this`shadowStates, this`shadowLog, this`shadowFindings
      ensures Valid()
      ensures Ticked(old(Shadowed()), Shadowed(), old(shadowStates).Keys, shadow, now, false)
      ensures ReportsShots(candidates, old(Shadowed()), old(shadowStates).Keys, shadow, now, false, "shadow")
      ensures shadowFindings == AppendAll(old(shadowFindings), candidates)
    {
      var newStates, fired;
      ghost var newLog;
      newStates, newLog, fired := TickAll(shadowStates, shadowLog, shadow, now, false, "shadow");
      var ring := AppendFindings(shadowFindings, fired);
      shadowStates, shadowLog, shadowFindings, candidates := newStates, newLog, ring, fired;
      assert Shadowed() == Track(newStates, newLog) && Live() == old(Live());
    }

    method SetStoredDetectors(base: seq<Detector>, active: seq<Detector>, candidates: seq<Detector>)
      requires Valid()
      modifies this`detectors, this`shadow
      ensures Valid() && detectors == base + active && shadow == candidates
    {
      detectors, shadow := base + active, candidates;
    }
  }

  method AppendFindings(ring: seq<Finding>, fs: seq<Finding>) returns (out: seq<Finding>)
    ensures out == AppendAll(ring, fs)
  {
    out := ring;
    for i := 0 to |fs|
      invariant out == AppendAll(ring, fs[..i])
    {
      assert fs[..i + 1][..i] == fs[..i];
      out := AppendRing(out, fs[i]);
    }
    assert fs[..|fs|] == fs;
  }

  lemma OneMore(t: Track, ds: seq<Detector>, i: nat, o: Observation, evidence: string, source: string)
    requires i < |ds|
    ensures ObserveAll(t, ds[i..], o, evidence) == ObserveAll(Observe(t, ds[i], o, evidence), ds[i + 1..], o, evidence)
    ensures FindingsOf(t, ds[i..], o, evidence, source) ==
            ShotBy(t, ds[i], o, evidence, source) + FindingsOf(Observe(t, ds[i], o, evidence), ds[i + 1..], o, evidence, source)
  {
    assert ds[i..][0] == ds[i] && ds[i..][1..] == ds[i + 1..];
  }

  /** One observation past one set of detectors. */
  method Sweep(states0: map<Key, KeyState>, ghost log0: map<Key, seq<Event>>, ds: seq<Detector>, o: Observation, evidence: string, source: string)
    returns (states: map<Key, KeyState>, ghost log: map<Key, seq<Event>>, fired: seq<Finding>)
    ensures Track(states, log) == ObserveAll(Track(states0, log0), ds, o, evidence)
    ensures fired == FindingsOf(Track(states0, log0), ds, o, evidence, source)
  {
    states, log, fired := states0, log0, [];
    ghost var t0 := Track(states0, log0);
    assert ds[0..] == ds;
    for i := 0 to |ds|
      invariant ObserveAll(t0, ds, o, evidence) == ObserveAll(Track(states, log), ds[i..], o, evidence)
      invariant FindingsOf(t0, ds, o, evidence, source) == fired + FindingsOf(Track(states, log), ds[i..], o, evidence, source)
    {
      OneMore(Track(states, log), ds, i, o, evidence, source);
      var found;
      states, log, found := SweepOne(states, log, ds[i], o, evidence, source);
      fired := fired + found;
    }
  }

  method SweepOne(states0: map<Key, KeyState>, ghost log0: map<Key, seq<Event>>, d: Detector, o: Observation, evidence: string, source: string)
    returns (states: map<Key, KeyState>, ghost log: map<Key, seq<Event>>, found: seq<Finding>)
    ensures Track(states, log) == Observe(Track(states0, log0), d, o, evidence)
    ensures found == ShotBy(Track(states0, log0), d, o, evidence, source)
  {
    var k, due := KeyOf(d, o), false;
    found := [];
    states, log, due := AdvanceStates(states0, log0, d, o, evidence);
    if due {
      found := [Finding(k, states[k].armedAt, states[k].evidence, source)];
      log := Note(Track(states, log), k, Fired(o.ts, d.debounce));
      states := states[k := states[k].(fired := true)];
    }
  }

  method AdvanceStates(states0: map<Key, KeyState>, ghost log0: map<Key, seq<Event>>, d: Detector, o: Observation, evidence: string)
    returns (states: map<Key, KeyState>, ghost log: map<Key, seq<Event>>, due: bool)
    ensures (Track(states, log), due) == Advance(Track(states0, log0), d, o, evidence)
    ensures states == Advance(Track(states0, log0), d, o, evidence).0.states && due == Advance(Track(states0, log0), d, o, evidence).1
  {
    states, log := states0, log0;
    var k, stateful := KeyOf(d, o), Stateful(d);
    ghost var t := Track(states, log);
    if o.kind == "pod_status" && o.deleted {
      if k in states && stateful {
        states, log := states - {k}, Note(t, k, Disarmed);
      }
      return states, log, false;
    }
    if Matches(d, o) {
      if k !in states {
        states, log := states[k := KeyState(o.ts, o.ts, false, evidence)], Note(t, k, Armed(o.ts));
      } else {
        states := states[k := states[k].(lastMatch := o.ts)];
      }
      return states, log, !states[k].fired && o.ts - states[k].armedAt >= d.debounce as real;
    }
    if k in states && o.kind == "pod_status" && stateful {
      states, log := states - {k}, Note(t, k, Disarmed);
    }
    return states, log, false;
  }

  /** One key of one table. */
  method TickOne(states0: map<Key, KeyState>, ghost log0: map<Key, seq<Event>>, k: Key, ds: seq<Detector>, now: real, live: bool)
    returns (states: map<Key, KeyState>, ghost log: map<Key, seq<Event>>, shot: bool)
    requires k in states0
    ensures Track(states, log) == TickKey(Track(states0, log0), k, ds, now, live)
    ensures shot == ActOn(states0[k], ds, k.playbook, now, live).Shoot?
  {
    states, log, shot := states0, log0, false;
    ghost var t := Track(states, log);
    var st, i := states[k], ByName(ds, k.playbook);
    if i == |ds| {
      states, log := states - {k}, Note(t, k, Disarmed);
    } else if !st.fired && now - st.armedAt >= ds[i].debounce as real {
      shot := true;
      states, log := states[k := st.(fired := true)], Note(t, k, Fired(now, ds[i].debounce));
    } else if live && st.fired && now - st.lastMatch > EVENT_ARM_TTL {
      states, log := states - {k}, Note(t, k, Disarmed);
    }
  }

  /** Ticks one more key, and reports it if it is shot. */
  method TickNext(ghost t0: Track, ghost seen: set<Key>, states0: map<Key, KeyState>, ghost log0: map<Key, seq<Event>>, fired0: seq<Finding>,
                  k: Key, ds: seq<Detector>, now: real, live: bool, source: string)
    returns (states: map<Key, KeyState>, ghost log: map<Key, seq<Event>>, fired: seq<Finding>)
    requires k in t0.states && k !in seen && seen <= t0.states.Keys
    requires Ticked(t0, Track(states0, log0), seen, ds, now, live) && ReportsShots(fired0, t0, seen, ds, now, live, source)
    ensures Ticked(t0, Track(states, log), seen + {k}, ds, now, live)
    ensures ReportsShots(fired, t0, seen + {k}, ds, now, live, source)
  {
    assert SameKey(Track(states0, log0), t0, k);
    var shot;
    states, log, shot := TickOne(states0, log0, k, ds, now, live);
    fired := if shot then fired0 + [Finding(k, states0[k].armedAt, states0[k].evidence, source)] else fired0;
    TickedGrows(t0, Track(states0, log0), Track(states, log), seen, k, ds, now, live);
    ShotsGrow(fired0, fired, t0, seen, k, ds, now, live, source);
  }

  lemma NothingTicked(t: Track, ds: seq<Detector>, now: real, live: bool, source: string)
    ensures Ticked(t, t, {}, ds, now, live) && ReportsShots([], t, {}, ds, now, live, source)
  {
  }

  /** Every key of one table once, in some order. */
  method TickAll(states0: map<Key, KeyState>, ghost log0: map<Key, seq<Event>>, ds: seq<Detector>, now: real, live: bool, source: string)
    returns (states: map<Key, KeyState>, ghost log: map<Key, seq<Event>>, fired: seq<Finding>)
    requires Lawful(Track(states0, log0))
    ensures Lawful(Track(states, log))
    ensures Ticked(Track(states0, log0), Track(states, log), states0.Keys, ds, now, live)
    ensures ReportsShots(fired, Track(states0, log0), states0.Keys, ds, now, live, source)
  {
    hide Lawful, Ticked, ReportsShots;
    states, log, fired := states0, log0, [];
    ghost var t0, seen := Track(states0, log0), {};
    var left := states0.Keys;
    NothingTicked(t0, ds, now, live, source);
    while left != {}
      invariant left !! seen && left + seen == states0.Keys
      invariant Ticked(t0, Track(states, log), seen, ds, now, live) && ReportsShots(fired, t0, seen, ds, now, live, source)
      decreases |left|
    {
      var k :| k in left;
      states, log, fired := TickNext(t0, seen, states, log, fired, k, ds, now, live, source);
      left, seen := left - {k}, seen + {k};
    }
    assert seen == states0.Keys;
    TickKeepsLawful(t0, Track(states, log), ds, now, live);
  }
}
