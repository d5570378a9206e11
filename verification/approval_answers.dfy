/** What the tool loop tells the model and the session about the calls: the text of every
    answer, and not only that there is one (runBatch and resolvePending in
    internal/agent/tools.go, directAnswer in internal/agent/coordinator.go). */
module ApprovalAnswers {
  import opened Options
  import opened ToolPairing
  import opened ApprovalLoop

  // ---- One batch ----

  /** A human has to be asked about this call. */
  predicate Asks(w: World, k: nat, bypass: bool, c: ToolCall) {
    match w.classify(k, c)
    case Guarded(always) => always || !bypass
    case _ => false
  }

  /** What a call is answered with that is not the one held back. */
  function AnswerFor(w: World, k: nat, bypass: bool, c: ToolCall): Message {
    match w.classify(k, c)
    case Refused(content) => Tool(c.id, content)
    case _ => Tool(c.id, if Asks(w, k, bypass, c) then SKIPPED else w.run(k, c))
  }

  function AnswersFor(w: World, k: nat, bypass: bool, calls: seq<ToolCall>): (answers: seq<Message>)
    ensures |answers| == |calls|
  {
    seq(|calls|, i requires 0 <= i < |calls| => AnswerFor(w, k, bypass, calls[i]))
  }

  /** The calls that may run at once, in order. */
  function Executed(w: World, k: nat, bypass: bool, calls: seq<ToolCall>): seq<Ran> {
    if calls == [] then []
    else
      var c := calls[|calls| - 1];
      Executed(w, k, bypass, calls[..|calls| - 1]) +
      (if Asks(w, k, bypass, c) || w.classify(k, c).Refused? then [] else [Ran(c, w.classify(k, c), false)])
  }

  /** A batch holds back call h, the first that a human has to be asked about, if there is
      one. It answers all the others in order: with the refusal, with what the run gives, or
      that they are put off. What it runs is what nobody has to be asked about. */
  ghost predicate AnswersBatch(w: World, k: nat, bypass: bool, calls: seq<ToolCall>, b: Batch, h: nat) {
    h <= |calls| && (forall i :: 0 <= i < h ==> !Asks(w, k, bypass, calls[i])) &&
    b.ran == Executed(w, k, bypass, calls) &&
    if h == |calls| then b.held == None && b.msgs == AnswersFor(w, k, bypass, calls)
    else
      Asks(w, k, bypass, calls[h]) && b.held == Some(calls[h]) &&
      b.msgs == AnswersFor(w, k, bypass, calls[..h]) + AnswersFor(w, k, bypass, calls[h + 1..])
  }

  lemma AnswersSnoc(w: World, k: nat, bypass: bool, calls: seq<ToolCall>, c: ToolCall)
    ensures AnswersFor(w, k, bypass, calls + [c]) == AnswersFor(w, k, bypass, calls) + [AnswerFor(w, k, bypass, c)]
    ensures AnswersFor(w, k, bypass, []) == []
    ensures Executed(w, k, bypass, calls + [c]) ==
            Executed(w, k, bypass, calls) + (if Asks(w, k, bypass, c) || w.classify(k, c).Refused? then [] else [Ran(c, w.classify(k, c), false)])
  {
    assert (calls + [c])[..|calls|] == calls;
  }

  lemma {:induction false} BatchAnswers(w: World, k: nat, calls: seq<ToolCall>, bypass: bool) returns (h: nat)
    ensures AnswersBatch(w, k, bypass, calls, BatchOf(w, k, calls, bypass), h)
    decreases |calls|
  {
    h := 0;
    if calls != [] {
      var front, c := calls[..|calls| - 1], calls[|calls| - 1];
      h := BatchAnswers(w, k, front, bypass);
      h := AddAnswers(w, k, bypass, front, c, BatchOf(w, k, front, bypass), h);
      assert calls == front + [c];
    }
  }

  lemma AddAnswers(w: World, k: nat, bypass: bool, front: seq<ToolCall>, c: ToolCall, b: Batch, h0: nat) returns (h: nat)
    requires AnswersBatch(w, k, bypass, front, b, h0)
    ensures AnswersBatch(w, k, bypass, front + [c], Add(b, c, w.classify(k, c), bypass, w.run(k, c)), h)
  {
    hide AnswersFor, Executed;
    var calls, n := front + [c], |front|;
    AnswersSnoc(w, k, bypass, front, c);
    if h0 == n {
      h := if Asks(w, k, bypass, c) then n else n + 1;
      assert calls[..n] == front && calls[n + 1..] == [];
    } else {
      h := h0;
      assert calls[..h] == front[..h] && calls[h + 1..] == front[h + 1..] + [c];
      AnswersSnoc(w, k, bypass, front[h + 1..], c);
    }
  }

  // ---- A whole loop ----

  /** From one model call to the next: the model's message, and an answer to each of its calls. */
  ghost predicate GoesOnWith(w: World, k: nat, bypass: bool, before: seq<Message>, after: seq<Message>) {
    w.chat(k).Says? && (forall i :: 0 <= i < |w.chat(k).calls| ==> !Asks(w, k, bypass, w.chat(k).calls[i])) &&
    after == before + [Assistant(w.chat(k).text, w.chat(k).calls)] + AnswersFor(w, k, bypass, w.chat(k).calls)
  }

  /** How the last model call of a loop leaves it. */
  ghost predicate EndsWith(w: World, k: nat, bypass: bool, last: seq<Message>, end: End) {
    match end
    case Failed => w.chat(k).Fails?
    case Answered(loop) => w.chat(k).Says? && w.chat(k).calls == [] && loop == last + [Assistant(w.chat(k).text, [])]
    case Paused(p) =>
      w.chat(k).Says? &&
      exists h :: 0 <= h < |w.chat(k).calls| && PausesAt(w, k, bypass, last, p, h)
    case Exhausted =>
      w.chat(k).Says? && w.chat(k).calls != [] &&
      forall i :: 0 <= i < |w.chat(k).calls| ==> !Asks(w, k, bypass, w.chat(k).calls[i])
  }

  ghost predicate PausesAt(w: World, k: nat, bypass: bool, last: seq<Message>, p: Pending, h: nat)
    requires w.chat(k).Says? && h < |w.chat(k).calls|
  {
    var calls := w.chat(k).calls;
    p.call == calls[h] && Asks(w, k, bypass, calls[h]) && (forall i :: 0 <= i < h ==> !Asks(w, k, bypass, calls[i])) &&
    p.loop == last + [Assistant(w.chat(k).text, calls)] +
              (AnswersFor(w, k, bypass, calls[..h]) + AnswersFor(w, k, bypass, calls[h + 1..]))
  }

  /** A loop starts from what it is given. Each further input is the one before it, the
      model's message and the answers to its calls. What is left at the end follows from the
      last input in the same way. */
  ghost predicate Tells(w: World, k: nat, bypass: bool, loop: seq<Message>, d: Drive) {
    (d.inputs == [] ==> d.end.Exhausted?) && (d.inputs != [] ==> d.inputs[0] == loop) &&
    (forall i :: 0 <= i < |d.inputs| - 1 ==> GoesOnWith(w, k + i, bypass, d.inputs[i], d.inputs[i + 1])) &&
    (d.inputs != [] ==> EndsWith(w, k + |d.inputs| - 1, bypass, d.inputs[|d.inputs| - 1], d.end))
  }

  lemma {:induction false} DriveTells(w: World, k: nat, loop: seq<Message>, rounds: nat, max: int, bypass: bool)
    ensures var d := DriveFrom(w, k, loop, rounds, max, bypass);
            Tells(w, k, bypass, loop, d) && (d.end.Exhausted? ==> rounds + |d.inputs| >= max)
    decreases max - rounds
  {
    if rounds < max && w.chat(k).Says? && w.chat(k).calls != [] {
      var text, calls := w.chat(k).text, w.chat(k).calls;
      var b := BatchOf(w, k, calls, bypass);
      var h := BatchAnswers(w, k, calls, bypass);
      hide BatchOf, AnswersFor, Executed;
      var rest := OneRound(w, k, loop, rounds, max, bypass, b);
      if b.held == None {
        var after := loop + [Assistant(text, calls)] + b.msgs;
        DriveTells(w, k + 1, after, rounds + 1, max, bypass);
        OneMoreRound(w, k, bypass, loop, after, b.ran, rest);
      } else {
        assert PausesAt(w, k, bypass, loop, rest.end.pending, h);
      }
    }
  }

  lemma OneMoreRound(w: World, k: nat, bypass: bool, loop: seq<Message>, after: seq<Message>, ran: seq<Ran>, rest: Drive)
    requires GoesOnWith(w, k, bypass, loop, after) && w.chat(k).calls != [] && Tells(w, k + 1, bypass, after, rest)
    ensures Tells(w, k, bypass, loop, After([loop], ran, rest))
  {
    var d := After([loop], ran, rest);
    forall i | 0 <= i < |d.inputs| - 1
      ensures GoesOnWith(w, k + i, bypass, d.inputs[i], d.inputs[i + 1])
    {
      if i > 0 {
        assert GoesOnWith(w, k + 1 + (i - 1), bypass, rest.inputs[i - 1], rest.inputs[i]);
      }
    }
  }

  lemma {:induction false} InputsStartAlike(w: World, k: nat, bypass: bool, loop: seq<Message>, d: Drive, i: nat)
    requires Tells(w, k, bypass, loop, d) && i < |d.inputs|
    ensures loop <= d.inputs[i]
  {
    if i > 0 {
      assert GoesOnWith(w, k + (i - 1), bypass, d.inputs[i - 1], d.inputs[i - 1 + 1]);
      InputsStartAlike(w, k, bypass, loop, d, i - 1);
    }
  }

  lemma LoopStartsAlike(w: World, k: nat, bypass: bool, loop: seq<Message>, d: Drive)
    requires Tells(w, k, bypass, loop, d)
    ensures d.end.Answered? || d.end.Paused? ==> loop <= LoopOf(d.end)
  {
    if d.inputs != [] {
      InputsStartAlike(w, k, bypass, loop, d, |d.inputs| - 1);
    }
  }

  // ---- The call a human was asked about ----

  /** What the pending call is answered with. */
  function ReplyText(w: World, k: nat, call: ToolCall, approved: bool): string {
    if !approved then CANCELLED
    else match w.classify(k, call) case Refused(content) => content case _ => w.run(k, call)
  }

  /** What the loop of a turn starts from: what was pending and the answer to it, or nothing. */
  function StartOf(w: World, k: nat, pending: Option<Pending>, res: Option<bool>): seq<Message> {
    if res == None || pending == None then []
    else
      var p := pending.value;
      p.loop + [Tool(p.call.id, ReplyText(w, k, p.call, res.value))]
  }

  lemma DirectTells(w: World, k: nat, pending: Option<Pending>, res: Option<bool>, max: nat, bypass: bool)
    ensures Tells(w, k, bypass, StartOf(w, k, pending, res), Direct(w, k, pending, res, max, bypass))
  {
    hide DriveFrom, Tells;
    var start := StartOf(w, k, pending, res);
    var rounds := if res == None || pending == None then 0 else pending.value.rounds;
    var d := DriveFrom(w, k, start, rounds, max, bypass);
    DriveTells(w, k, start, rounds, max, bypass);
    assert [] + d.inputs == d.inputs;
    TellsAlike(w, k, bypass, start, d, Direct(w, k, pending, res, max, bypass));
  }

  lemma TellsAlike(w: World, k: nat, bypass: bool, loop: seq<Message>, d: Drive, d': Drive)
    requires Tells(w, k, bypass, loop, d) && d.end == d'.end && d.inputs == d'.inputs
    ensures Tells(w, k, bypass, loop, d')
  {
  }

  /** The loop that a turn resumes goes on with the answer to the call the human was asked
      about: what running it gives if the reply approves and it can still be planned, the
      refusal if it cannot, and that it was cancelled if the reply does not approve. All the
      model is given, and all the loop leaves behind, starts with the loop up to there. */
  lemma ResumedCallIsAnswered(c: Convo, r: Request)
    requires Sound(c) && c.pending != None && r.graphLimit >= 3
    ensures TurnOf(c, r).loops != []
    ensures
      var p, d := c.pending.value, TurnOf(c, r).loops[0];
      var told := p.loop + [Tool(p.call.id, ReplyText(r.world, 0, p.call, r.phrase in {Approve, ApproveAll}))];
      Tells(r.world, 0, r.auto || r.phrase == ApproveAll, told, d) &&
      (forall i :: 0 <= i < |d.inputs| ==> told <= d.inputs[i]) &&
      (d.end.Answered? || d.end.Paused? ==> told <= LoopOf(d.end))
  {
    hide DebtAfter, Graph, Continue, Direct, Tells, ReplyText;
    var told, bypass := StartOf(r.world, 0, c.pending, ReplyTo(c, r)), Bypasses(r);
    StartIsReady(c, r);
    TurnLoopIsSound(r);
    var d, rest, out := GraphPass(EnvOf(r), 0, Convo(History(c, r), c.pending), 3, ReplyTo(c, r));
    DirectTells(r.world, 0, c.pending, ReplyTo(c, r), MaxRounds(r.recursions), bypass);
    forall i | 0 <= i < |d.inputs|
      ensures told <= d.inputs[i]
    {
      InputsStartAlike(r.world, 0, bypass, told, d, i);
    }
    LoopStartsAlike(r.world, 0, bypass, told, d);
  }

  // ---- What a turn leaves in the conversation ----

  /** The loop as it is kept: only the tool outputs are shortened. */
  ghost predicate KeptAs(loop: seq<Message>, kept: seq<Message>, shorten: string -> string) {
    |kept| == |loop| &&
    forall i :: 0 <= i < |loop| ==> kept[i] == (if loop[i].Tool? then Tool(loop[i].id, shorten(loop[i].text)) else loop[i])
  }

  /** One more answer of the assistant. */
  ghost predicate Adds(before: seq<Message>, after: seq<Message>, text: string) {
    after == before + [Assistant(text, [])]
  }

  /** What the model says is added, if it answers. */
  ghost predicate AddsReply(before: seq<Message>, out: Outcome, reply: Reply) {
    match reply
    case Fails => !out.ok && out.convo.messages == before
    case Says(text, _) => out.ok && Adds(before, out.convo.messages, text)
  }

  /** How the end of the last loop of a turn shows in the conversation, unless it hands over. */
  ghost predicate Concludes(before: seq<Message>, end: End, out: Outcome, w: World) {
    match end
    case Failed => !out.ok && out.convo.messages == before
    case Paused(p) => out.ok && out.convo == Convo(before, Some(p))
    case Exhausted => out.ok && Adds(before, out.convo.messages, BUDGET_EXHAUSTED)
    case Answered(loop) =>
      out.ok &&
      if RouteOf(w, loop) == Blank then Adds(before, out.convo.messages, APOLOGY)
      else before <= out.convo.messages && KeptAs(loop, out.convo.messages[|before|..], w.shorten)
  }

  /** How many model calls some loops made. */
  function CallsOf(loops: seq<Drive>): nat {
    if loops == [] then 0 else |loops[0].inputs| + CallsOf(loops[1..])
  }

  /** The loops of a turn from some step on: each but the last hands over to a targeted read,
      and each costs two steps of the limit. What the last one leaves is added to the
      conversation. If it hands over, the turn is out of steps and says so, or the specialists
      were asked, and one more model call without tools makes of their findings what it can. */
  ghost predicate Leaves(before: seq<Message>, k: nat, steps: int, findings: bool, out: Outcome, w: World, limit: int) {
    var n := |out.loops|;
    if steps > limit then n == 0 && out.ok && Adds(before, out.convo.messages, GRAPH_EXHAUSTED)
    else if findings then n == 0 && AddsReply(before, out, w.chat(k))
    else
      n > 0 && steps + 2 * (n - 1) <= limit && (forall i :: 0 <= i < n - 1 ==> NextRoute(w, out.loops[i]) == Targeted) &&
      var last := out.loops[n - 1];
      if !GoesOn(w, last) then Concludes(before, last.end, out, w)
      else if steps + 2 * n > limit then out.ok && Adds(before, out.convo.messages, GRAPH_EXHAUSTED)
      else NextRoute(w, last) == Rca && AddsReply(before, out, w.chat(k + CallsOf(out.loops)))
  }

  lemma SettleLeaves(w: World, c: Convo, d: Drive)
    requires c.pending == None && !GoesOn(w, d)
    ensures Concludes(c.messages, d.end, Outcome(Settle(w, c, d), !d.end.Failed?, [d]), w)
  {
    if d.end.Answered? {
      var short := TrimTools(d.end.loop, w.shorten);
      assert (c.messages + short)[|c.messages|..] == short;
    }
  }

  /** A turn that goes on with more loops leaves what they leave. */
  lemma HandedOverLeaves(before: seq<Message>, k: nat, steps: int, d: Drive, rest: Outcome, out: Outcome, w: World, limit: int)
    requires GoesOn(w, d) && steps <= limit && out == Join([d], rest)
    requires Leaves(before, k + |d.inputs|, steps + 2, NextRoute(w, d) == Rca, rest, w, limit)
    ensures Leaves(before, k, steps, false, out, w, limit)
  {
    assert out.loops[1..] == rest.loops;
    assert forall i :: 0 < i < |out.loops| ==> out.loops[i] == rest.loops[i - 1];
  }

  lemma {:induction false} GraphLeaves(e: Env, k: nat, c: Convo, steps: int, res: Option<bool>, findings: bool) returns (out: Outcome)
    requires LoopIsSound(e) && Ready(c, res)
    ensures out == Graph(e, k, c, steps, res, findings) && Leaves(c.messages, k, steps, findings, out, e.w, e.limit)
    decreases e.limit - steps
  {
    hide DebtAfter, Graph, Continue, Direct;
    if steps > e.limit || findings {
      out := GraphEnds(e, k, c, steps, res, findings);
    } else {
      var d, rest;
      d, rest, out := GraphPass(e, k, c, steps, res);
      var same := GraphLeaves(e, k + |d.inputs|, c.(pending := None), steps + 2, None, NextRoute(e.w, d) == Rca);
      if GoesOn(e.w, d) {
        HandedOverLeaves(c.messages, k, steps, d, rest, out, e.w, e.limit);
      } else {
        SettleLeaves(e.w, c.(pending := None), d);
      }
    }
  }

  /** A turn keeps what was said before, the new request included, and leaves what its loops
      come to. */
  lemma TurnLeavesItsAnswer(c: Convo, r: Request)
    requires Sound(c)
    ensures
      var before := if c.pending == None then c.messages + [User(r.text)] else c.messages;
      before <= TurnOf(c, r).convo.messages && Leaves(before, 0, 3, false, TurnOf(c, r), r.world, r.graphLimit)
  {
    StartIsReady(c, r);
    TurnLoopIsSound(r);
    var out := GraphLeaves(EnvOf(r), 0, Convo(History(c, r), c.pending), 3, ReplyTo(c, r), false);
  }

  predicate EndsInAnswer(ms: seq<Message>) {
    ms != [] && ms[|ms| - 1].Assistant? && ms[|ms| - 1].calls == []
  }

  /** The last thing said is an answer of the assistant, if the turn ends well and does not pause. */
  lemma TurnEndsInAnswer(c: Convo, r: Request)
    requires Sound(c) && TurnOf(c, r).ok && TurnOf(c, r).convo.pending == None
    ensures EndsInAnswer(TurnOf(c, r).convo.messages)
  {
    hide TurnOf, Leaves, Sound;
    TurnLeavesItsAnswer(c, r);
    var out := TurnOf(c, r);
    if out.loops != [] {
      AnsweredLoopsEnd(c, r, |out.loops| - 1);
    }
    LeftLast(if c.pending == None then c.messages + [User(r.text)] else c.messages, out, r.world, r.graphLimit);
  }

  lemma LeftLast(before: seq<Message>, out: Outcome, w: World, limit: int)
    requires Leaves(before, 0, 3, false, out, w, limit) && out.ok && out.convo.pending == None
    requires out.loops != [] ==> var end := out.loops[|out.loops| - 1].end; end.Answered? ==> EndsInAnswer(end.loop)
    ensures EndsInAnswer(out.convo.messages)
  {
    hide RouteOf, CallsOf;
  }

  lemma AnsweredLoopsEnd(c: Convo, r: Request, n: nat)
    requires Sound(c) && n < |TurnOf(c, r).loops|
    ensures var end := TurnOf(c, r).loops[n].end; end.Answered? ==> EndsInAnswer(end.loop)
  {
    StartIsReady(c, r);
    TurnLoopIsSound(r);
    TurnLoopsEndInAnswers(r);
    var out := GraphEndsInAnswers(EnvOf(r), 0, Convo(History(c, r), c.pending), 3, ReplyTo(c, r), false);
  }

  ghost predicate LoopsEndInAnswers(e: Env) {
    forall k, p, res :: e.loop(k, p, res).end.Answered? ==> EndsInAnswer(e.loop(k, p, res).end.loop)
  }

  lemma TurnLoopsEndInAnswers(r: Request)
    ensures LoopsEndInAnswers(EnvOf(r))
  {
    hide Direct;
    forall k: nat, p: Option<Pending>, res: Option<bool>
      ensures EnvOf(r).loop(k, p, res).end.Answered? ==> EndsInAnswer(EnvOf(r).loop(k, p, res).end.loop)
    {
      DirectTells(r.world, k, p, res, MaxRounds(r.recursions), Bypasses(r));
    }
  }

  lemma {:induction false} GraphEndsInAnswers(e: Env, k: nat, c: Convo, steps: int, res: Option<bool>, findings: bool) returns (out: Outcome)
    requires LoopIsSound(e) && LoopsEndInAnswers(e) && Ready(c, res)
    ensures out == Graph(e, k, c, steps, res, findings)
    ensures forall n :: 0 <= n < |out.loops| && out.loops[n].end.Answered? ==> EndsInAnswer(out.loops[n].end.loop)
    decreases e.limit - steps
  {
    hide DebtAfter, Graph, Continue, Direct;
    if steps > e.limit || findings {
      out := GraphEnds(e, k, c, steps, res, findings);
    } else {
      var d, rest;
      d, rest, out := GraphPass(e, k, c, steps, res);
      var same := GraphEndsInAnswers(e, k + |d.inputs|, c.(pending := None), steps + 2, None, NextRoute(e.w, d) == Rca);
    }
  }
}
