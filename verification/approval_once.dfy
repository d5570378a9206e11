/** How often an approved call runs: at most once over turns that follow one another, and once
    for each approving turn that loads the session before another has saved it. A turn loads,
    runs and saves without a lock (turn in internal/agent/agent.go). */
module ApprovalOnce {
  import opened Options
  import opened ToolPairing
  import opened ApprovalLoop

  /** The call that is pending, if any, is another one. */
  predicate PausesAnew(c: Convo, id: string) {
    c.pending != None ==> c.pending.value.call.id != id
  }

  predicate EndsAnew(d: Drive, id: string) {
    d.end.Paused? ==> d.end.pending.call.id != id
  }

  lemma {:induction false} BatchHoldsItsOwn(w: World, k: nat, calls: seq<ToolCall>, bypass: bool)
    ensures var held := BatchOf(w, k, calls, bypass).held; held != None ==> held.value in calls
    decreases |calls|
  {
    if calls != [] {
      BatchHoldsItsOwn(w, k, calls[..|calls| - 1], bypass);
    }
  }

  lemma {:induction false} DriveEndsAnew(w: World, k: nat, loop: seq<Message>, rounds: nat, max: int, bypass: bool, id: string)
    requires NamesCallsAnew(w, id)
    ensures EndsAnew(DriveFrom(w, k, loop, rounds, max, bypass), id)
    decreases max - rounds
  {
    if rounds < max && w.chat(k).Says? && w.chat(k).calls != [] {
      var calls := w.chat(k).calls;
      var b := BatchOf(w, k, calls, bypass);
      BatchHoldsItsOwn(w, k, calls, bypass);
      hide BatchOf;
      var rest := OneRound(w, k, loop, rounds, max, bypass, b);
      if b.held == None {
        DriveEndsAnew(w, k + 1, loop + [Assistant(w.chat(k).text, calls)] + b.msgs, rounds + 1, max, bypass, id);
      } else {
        var i :| 0 <= i < |calls| && calls[i] == b.held.value;
      }
    }
  }

  ghost predicate LoopEndsAnew(e: Env, id: string) {
    forall k, p, res :: Fits(p, res) ==> EndsAnew(e.loop(k, p, res), id)
  }

  lemma TurnLoopEndsAnew(r: Request, id: string)
    requires NamesCallsAnew(r.world, id)
    ensures LoopEndsAnew(EnvOf(r), id)
  {
    var max, bypass := MaxRounds(r.recursions), Bypasses(r);
    forall k: nat, p, res | Fits(p, res)
      ensures EndsAnew(EnvOf(r).loop(k, p, res), id)
    {
      if res == None {
        DriveEndsAnew(r.world, k, [], 0, max, bypass, id);
      } else {
        DriveEndsAnew(r.world, k, p.value.loop + [Resolve(r.world, k, p.value.call, res.value).0], p.value.rounds, max, bypass, id);
      }
    }
  }

  lemma {:induction false} GraphPausesAnew(e: Env, k: nat, c: Convo, steps: int, res: Option<bool>, findings: bool, id: string) returns (out: Outcome)
    requires LoopIsSound(e) && LoopEndsAnew(e, id) && Ready(c, res) && (c.pending != None ==> steps <= e.limit && !findings)
    ensures out == Graph(e, k, c, steps, res, findings)
    ensures PausesAnew(out.convo, id)
    decreases e.limit - steps
  {
    hide DebtAfter, Graph, Continue, Direct;
    if steps > e.limit || findings {
      out := GraphEnds(e, k, c, steps, res, findings);
    } else {
      var d, rest;
      d, rest, out := GraphPass(e, k, c, steps, res);
      var same := GraphPausesAnew(e, k + |d.inputs|, c.(pending := None), steps + 2, None, NextRoute(e.w, d) == Rca, id);
    }
  }

  /** A turn never leaves the call it resolves pending again. */
  lemma TurnPausesAnew(c: Convo, r: Request, id: string)
    requires Sound(c) && r.graphLimit >= 3 && NamesCallsAnew(r.world, id)
    ensures PausesAnew(TurnOf(c, r).convo, id)
  {
    hide Graph, DebtAfter, Direct;
    StartIsReady(c, r);
    TurnLoopIsSound(r);
    TurnLoopEndsAnew(r, id);
    var out := GraphPausesAnew(EnvOf(r), 0, Convo(History(c, r), c.pending), 3, ReplyTo(c, r), false, id);
  }

  /** The turn runs an approved call of this id. */
  ghost predicate RunsApproved(out: Outcome, id: string) {
    exists i :: 0 <= i < |AllRan(out.loops)| && AllRan(out.loops)[i].approved && AllRan(out.loops)[i].call.id == id
  }

  lemma OnlyThePendingRuns(c: Convo, r: Request, id: string)
    requires Sound(c) && PausesAnew(c, id)
    ensures !RunsApproved(TurnOf(c, r), id)
  {
    hide TurnOf, AllRan, Sound;
    if i :| 0 <= i < |AllRan(TurnOf(c, r).loops)| && AllRan(TurnOf(c, r).loops)[i].approved && AllRan(TurnOf(c, r).loops)[i].call.id == id {
      WritesAreApproved(c, r, i);
    }
  }

  /** In every run of turns that follow one another, a call that was pending at some turn runs
      by approval in no later one: at most once in all, since no turn runs two. */
  lemma ApprovedCallsRunOnce(cs: seq<Convo>, rs: seq<Request>, n: nat, m: nat, id: string)
    requires IsRun(cs, rs) && n < m < |rs| && forall i :: n <= i < m ==> rs[i].graphLimit >= 3 && NamesCallsAnew(rs[i].world, id)
    ensures !RunsApproved(TurnOf(cs[m], rs[m]), id)
  {
    hide TurnOf, Sound, NamesCallsAnew;
    RunsAreSound(cs, rs);
    assert TurnLeads(cs[m - 1], rs[m - 1], cs[m]);
    TurnPausesAnew(cs[m - 1], rs[m - 1], id);
    OnlyThePendingRuns(cs[m], rs[m], id);
  }

  /** What a turn loads that begins before or after another turn has saved. */
  function Loaded(c: Convo, first: Request, saved: bool): Convo {
    if saved then TurnOf(c, first).convo else c
  }

  /** Two approvals of one pending call that can be planned: the first turn runs it, and the
      second runs it again if and only if it has loaded the session before the first saved. */
  lemma OverlappingApprovalsRunTwice(c: Convo, first: Request, second: Request, saved: bool)
    requires Sound(c) && c.pending != None && Approves(first) && Approves(second)
    requires first.graphLimit >= 3 && second.graphLimit >= 3 && NamesCallsAnew(first.world, c.pending.value.call.id)
    requires !first.world.classify(0, c.pending.value.call).Refused? && !second.world.classify(0, c.pending.value.call).Refused?
    ensures var id := c.pending.value.call.id;
            RunsApproved(TurnOf(c, first), id) && (RunsApproved(TurnOf(Loaded(c, first, saved), second), id) <==> !saved)
  {
    var id := c.pending.value.call.id;
    hide TurnOf, Sound, NamesCallsAnew, AllRan;
    ApprovalRuns(c, first);
    assert AllRan(TurnOf(c, first).loops)[0].approved;
    if saved {
      TurnIsSound(c, first);
      TurnPausesAnew(c, first, id);
      OnlyThePendingRuns(TurnOf(c, first).convo, second, id);
    } else {
      ApprovalRuns(c, second);
      assert AllRan(TurnOf(c, second).loops)[0].approved;
    }
  }
}
