/** The coordinator's tool loop, which pauses for a human (runBatch and resolvePending in
    internal/agent/tools.go, directAnswer in internal/agent/coordinator.go, runGraph and turn
    in internal/agent/agent.go). The model, the command planner and the tools are arbitrary
    functions of how many model calls the turn has made. */
module ApprovalLoop {
  import opened Options
  import opened ToolPairing

  const UNITS_PER_STEP := 3
  const CANCELLED := "Action cancelled by user."
  const BUDGET_EXHAUSTED := "The tool call budget of this answer is exhausted."
  const GRAPH_EXHAUSTED := "The step budget of this turn is exhausted."
  const APOLOGY := "I was unable to generate a response."

  /** What planning a call comes to: a final answer without running anything, a call that
      may run, or a write, which the session's bypass covers unless it always needs a
      confirmation. */
  datatype Class = Refused(content: string) | Free | Guarded(always: bool)

  datatype Reply = Fails | Says(text: string, calls: seq<ToolCall>)

  datatype Route = Blank | Plain | Rca | Targeted

  datatype World = World(chat: nat -> Reply, classify: (nat, ToolCall) -> Class, run: (nat, ToolCall) -> string,
                         route: string -> Route, shorten: string -> string)

  datatype Pending = Pending(call: ToolCall, loop: seq<Message>, rounds: nat)

  /** One executed call: how it was classed, and whether a human approved it. */
  datatype Ran = Ran(call: ToolCall, kind: Class, approved: bool)

  predicate NeedsApproval(c: Class, bypass: bool) {
    c.Guarded? && (!bypass || c.always)
  }

  // ---- One batch of calls ----

  datatype Batch = Batch(msgs: seq<Message>, held: Option<ToolCall>, ran: seq<Ran>)

  /** Adds one planned call to a batch; text is what it answers if it runs. */
  function Add(b: Batch, c: ToolCall, kind: Class, bypass: bool, text: string): Batch {
    if NeedsApproval(kind, bypass) then
      if b.held == None then b.(held := Some(c)) else b.(msgs := b.msgs + [Tool(c.id, SKIPPED)])
    else if kind.Refused? then b.(msgs := b.msgs + [Tool(c.id, kind.content)])
    else b.(msgs := b.msgs + [Tool(c.id, text)], ran := b.ran + [Ran(c, kind, false)])
  }

  /** The first call that needs approval is held back, later ones are put off, and all
      others are answered in order. */
  function BatchOf(w: World, k: nat, calls: seq<ToolCall>, bypass: bool): Batch {
    if calls == [] then Batch([], None, [])
    else
      var n := |calls| - 1;
      Add(BatchOf(w, k, calls[..n], bypass), calls[n], w.classify(k, calls[n]), bypass, w.run(k, calls[n]))
  }

  function Gather(results: seq<Message>, filled: seq<bool>): seq<Message>
    requires |results| == |filled|
  {
    if results == [] then []
    else
      var n := |results| - 1;
      Gather(results[..n], filled[..n]) + (if filled[n] then [results[n]] else [])
  }

  lemma GatherSnoc(results: seq<Message>, filled: seq<bool>, r: Message, f: bool)
    requires |results| == |filled|
    ensures Gather(results + [r], filled + [f]) == Gather(results, filled) + (if f then [r] else [])
  {
    assert (results + [r])[..|results|] == results && (filled + [f])[..|filled|] == filled;
  }

  /** One step of the second loop, in place: what position i holds afterwards. */
  method Place(results: array<Message>, filled: array<bool>, i: nat, c: ToolCall, o: Class, bypass: bool, text: string, held: Option<ToolCall>, ghost b: Batch)
    requires held == b.held && i < results.Length == filled.Length && !filled[i] && b.msgs == Gather(results[..i], filled[..i])
    modifies results, filled
    ensures results[..i] == old(results[..i]) && filled[..i] == old(filled[..i])
    ensures results[i + 1..] == old(results[i + 1..]) && filled[i + 1..] == old(filled[i + 1..])
    ensures Gather(results[..i + 1], filled[..i + 1]) == Add(b, c, o, bypass, text).msgs
  {
    if NeedsApproval(o, bypass) {
      if held != None {
        results[i], filled[i] := Tool(c.id, SKIPPED), true;
      }
    } else if o.Refused? {
      results[i], filled[i] := Tool(c.id, o.content), true;
    } else {
      results[i], filled[i] := Tool(c.id, text), true;
    }
    assert results[..i + 1] == results[..i] + [results[i]] && filled[..i + 1] == filled[..i] + [filled[i]];
    GatherSnoc(results[..i], filled[..i], results[i], filled[i]);
  }

  lemma BatchStep(w: World, k: nat, calls: seq<ToolCall>, i: nat, bypass: bool)
    requires i < |calls|
    ensures BatchOf(w, k, calls[..i + 1], bypass) ==
            Add(BatchOf(w, k, calls[..i], bypass), calls[i], w.classify(k, calls[i]), bypass, w.run(k, calls[i]))
  {
    assert calls[..i + 1][..i] == calls[..i];
  }

  method RunBatch(w: World, k: nat, calls: seq<ToolCall>, bypass: bool) returns (b: Batch)
    ensures b == BatchOf(w, k, calls, bypass)
  {
    var prepared := Prepare(w, k, calls);
    var results := new Message[|calls|](_ => User(""));
    var filled := new bool[|calls|](_ => false);
    var held: Option<ToolCall> := None;
    var ran: seq<Ran> := [];
    b := Batch([], None, []);
    ghost var so := b;
    for i := 0 to |calls|
      invariant fresh(results) && fresh(filled)
      invariant forall j :: i <= j < |calls| ==> !filled[j]
      invariant so == BatchOf(w, k, calls[..i], bypass)
      invariant held == so.held && ran == so.ran && Gather(results[..i], filled[..i]) == so.msgs
    {
      var o, c := prepared[i], calls[i];
      BatchStep(w, k, calls, i, bypass);
      ghost var marks := filled[i + 1..];
      Place(results, filled, i, c, o, bypass, w.run(k, c), held, so);
      so := Add(so, c, o, bypass, w.run(k, c));
      assert forall j :: i < j < |calls| ==> filled[j] == marks[j - i - 1];
      if NeedsApproval(o, bypass) {
        held := if held == None then Some(c) else held;
      } else if !o.Refused? {
        ran := ran + [Ran(c, o, false)];
      }
    }
    assert calls[..|calls|] == calls && results[..|calls|] == results[..] && filled[..|calls|] == filled[..];
    var msgs := Collect(results[..], filled[..]);
    b := Batch(msgs, held, ran);
  }

  method Collect(results: seq<Message>, filled: seq<bool>) returns (msgs: seq<Message>)
    requires |results| == |filled|
    ensures msgs == Gather(results, filled)
  {
    msgs := [];
    for i := 0 to |results|
      invariant msgs == Gather(results[..i], filled[..i])
    {
      assert results[..i + 1][..i] == results[..i] && filled[..i + 1][..i] == filled[..i];
      if filled[i] {
        msgs := msgs + [results[i]];
      }
    }
    assert results[..|results|] == results && filled[..|results|] == filled;
  }

  method Prepare(w: World, k: nat, calls: seq<ToolCall>) returns (prepared: seq<Class>)
    ensures |prepared| == |calls| && forall i :: 0 <= i < |calls| ==> prepared[i] == w.classify(k, calls[i])
  {
    prepared := [];
    for i := 0 to |calls|
      invariant |prepared| == i && forall j :: 0 <= j < i ==> prepared[j] == w.classify(k, calls[j])
    {
      prepared := prepared + [w.classify(k, calls[i])];
    }
  }

  // ---- The loop ----

  datatype End = Failed | Exhausted | Answered(loop: seq<Message>) | Paused(pending: Pending)

  /** How a loop ends, what the model was given each time, and what ran. */
  datatype Drive = Drive(end: End, inputs: seq<seq<Message>>, ran: seq<Ran>)

  function DriveFrom(w: World, k: nat, loop: seq<Message>, rounds: nat, max: int, bypass: bool): Drive
    decreases max - rounds
  {
    if rounds >= max then Drive(Exhausted, [], [])
    else
      match w.chat(k)
      case Fails => Drive(Failed, [loop], [])
      case Says(text, calls) =>
        var said := loop + [Assistant(text, calls)];
        if calls == [] then Drive(Answered(said), [loop], [])
        else
          var b := BatchOf(w, k, calls, bypass);
          if b.held != None then Drive(Paused(Pending(b.held.value, said + b.msgs, rounds + 1)), [loop], b.ran)
          else After([loop], b.ran, DriveFrom(w, k + 1, said + b.msgs, rounds + 1, max, bypass))
  }

  function After(inputs: seq<seq<Message>>, ran: seq<Ran>, d: Drive): Drive {
    Drive(d.end, inputs + d.inputs, ran + d.ran)
  }

  function Resolve(w: World, k: nat, call: ToolCall, approved: bool): (Message, seq<Ran>) {
    if !approved then (Tool(call.id, CANCELLED), [])
    else
      match w.classify(k, call)
      case Refused(content) => (Tool(call.id, content), [])
      case kind => (Tool(call.id, w.run(k, call)), [Ran(call, kind, true)])
  }

  /** Go divides towards zero, and nothing below one allows a round. */
  function MaxRounds(recursions: int): (n: nat)
    ensures recursions >= 0 ==> UNITS_PER_STEP * n <= recursions < UNITS_PER_STEP * (n + 1)
    ensures recursions < UNITS_PER_STEP ==> n == 0
  {
    if recursions < 0 then 0 else recursions / UNITS_PER_STEP
  }

  function Direct(w: World, k: nat, pending: Option<Pending>, res: Option<bool>, max: nat, bypass: bool): Drive {
    if res != None && pending != None then
      var p := pending.value;
      var (answer, ran) := Resolve(w, k, p.call, res.value);
      After([], ran, DriveFrom(w, k, p.loop + [answer], p.rounds, max, bypass))
    else DriveFrom(w, k, [], 0, max, bypass)
  }

  method DirectAnswer(w: World, k0: nat, pending: Option<Pending>, res: Option<bool>, max: nat, bypass: bool) returns (d: Drive)
    ensures d == Direct(w, k0, pending, res, max, bypass)
  {
    hide BatchOf, DriveFrom;
    var loop: seq<Message> := [];
    var k, rounds := k0, 0;
    var ran: seq<Ran> := [];
    if res != None && pending != None {
      loop, rounds := pending.value.loop, pending.value.rounds;
      var (answer, did) := Resolve(w, k, pending.value.call, res.value);
      loop, ran := loop + [answer], did;
    }
    var inputs: seq<seq<Message>> := [];
    ghost var all := Direct(w, k0, pending, res, max, bypass);
    while true
      invariant all == After(inputs, ran, DriveFrom(w, k, loop, rounds, max, bypass))
      decreases max - rounds
    {
      LoopEnds(w, k, loop, rounds, max, bypass, inputs, ran);
      if rounds >= max {
        return Drive(Exhausted, inputs, ran);
      }
      var reply := w.chat(k);
      if reply.Fails? {
        return Drive(Failed, inputs + [loop], ran);
      }
      if reply.calls == [] {
        return Drive(Answered(loop + [Assistant(reply.text, [])]), inputs + [loop], ran);
      }
      var b := RunBatch(w, k, reply.calls, bypass);
      ghost var rest := OneRound(w, k, loop, rounds, max, bypass, b);
      AfterTwice(inputs, ran, [loop], b.ran, rest);
      inputs, rounds, k := inputs + [loop], rounds + 1, k + 1;
      loop := loop + [Assistant(reply.text, reply.calls)] + b.msgs;
      ran := ran + b.ran;
      if b.held != None {
        return Drive(Paused(Pending(b.held.value, loop, rounds)), inputs, ran);
      }
    }
  }

  /** The ends of a loop without another round of calls. */
  lemma LoopEnds(w: World, k: nat, loop: seq<Message>, rounds: nat, max: int, bypass: bool, inputs: seq<seq<Message>>, ran: seq<Ran>)
    ensures var d := After(inputs, ran, DriveFrom(w, k, loop, rounds, max, bypass));
            (rounds >= max ==> d == Drive(Exhausted, inputs, ran)) &&
            (rounds < max && w.chat(k).Fails? ==> d == Drive(Failed, inputs + [loop], ran)) &&
            (rounds < max && w.chat(k).Says? && w.chat(k).calls == [] ==>
               d == Drive(Answered(loop + [Assistant(w.chat(k).text, [])]), inputs + [loop], ran))
  {
    hide BatchOf;
    assert inputs + [] == inputs && ran + [] == ran;
  }

  lemma AfterTwice(inputs: seq<seq<Message>>, ran: seq<Ran>, more: seq<seq<Message>>, moreRan: seq<Ran>, d: Drive)
    ensures After(inputs, ran, After(more, moreRan, d)) == After(inputs + more, ran + moreRan, d)
  {
    Options.Regroup(inputs, more, d.inputs);
    Options.Regroup(ran, moreRan, d.ran);
  }

  /** What is left to do after one round of calls. */
  lemma OneRound(w: World, k: nat, loop: seq<Message>, rounds: nat, max: int, bypass: bool, b: Batch) returns (rest: Drive)
    requires rounds < max && w.chat(k).Says? && w.chat(k).calls != [] && b == BatchOf(w, k, w.chat(k).calls, bypass)
    ensures DriveFrom(w, k, loop, rounds, max, bypass) == After([loop], b.ran, rest)
    ensures var after := loop + [Assistant(w.chat(k).text, w.chat(k).calls)] + b.msgs;
            rest == if b.held == None then DriveFrom(w, k + 1, after, rounds + 1, max, bypass)
                    else Drive(Paused(Pending(b.held.value, after, rounds + 1)), [], [])
  {
    hide BatchOf;
    var after := loop + [Assistant(w.chat(k).text, w.chat(k).calls)] + b.msgs;
    rest := if b.held == None then DriveFrom(w, k + 1, after, rounds + 1, max, bypass)
            else Drive(Paused(Pending(b.held.value, after, rounds + 1)), [], []);
  }

  // ---- Turns ----

  datatype Convo = Convo(messages: seq<Message>, pending: Option<Pending>)

  /** What a reply is recognised as. Only the first two approve. */
  datatype Phrase = Approve | ApproveAll | Deny | Other

  datatype Request = Request(text: string, phrase: Phrase, auto: bool, world: World, recursions: int, graphLimit: int)

  predicate Approves(r: Request) { r.phrase == Approve || r.phrase == ApproveAll }

  predicate Bypasses(r: Request) { r.auto || r.phrase == ApproveAll }

  /** The conversation after a turn, whether it ended without an error, and the tool loops
      it went through. */
  datatype Outcome = Outcome(convo: Convo, ok: bool, loops: seq<Drive>)

  function Say(c: Convo, text: string): Convo {
    c.(messages := c.messages + [Assistant(text, [])])
  }

  function TrimTools(loop: seq<Message>, shorten: string -> string): (out: seq<Message>)
    ensures |out| == |loop|
  {
    seq(|loop|, i requires 0 <= i < |loop| => if loop[i].Tool? then Tool(loop[i].id, shorten(loop[i].text)) else loop[i])
  }

  /** The conversation once a loop is over. */
  function Settle(w: World, c: Convo, d: Drive): Convo {
    match d.end
    case Failed => c
    case Paused(p) => c.(pending := Some(p))
    case Exhausted => Say(c, BUDGET_EXHAUSTED)
    case Answered(loop) =>
      match RouteOf(w, loop)
      case Blank => Say(c, APOLOGY)
      case Plain => c.(messages := c.messages + TrimTools(loop, w.shorten))
      case _ => c
  }

  function RouteOf(w: World, loop: seq<Message>): Route {
    if loop == [] || !loop[|loop| - 1].Assistant? then Blank else w.route(loop[|loop| - 1].text)
  }

  /** Where a finished loop sends the turn. */
  function NextRoute(w: World, d: Drive): Route {
    if d.end.Answered? then RouteOf(w, d.end.loop) else Plain
  }

  function Unpaused(c: Convo, res: Option<bool>): Convo {
    if res == None then c else c.(pending := None)
  }

  /** What the graph of a turn depends on: its tool loop, given the model calls so far, what
      is pending and the reply to it; and the rest of the world. */
  datatype Env = Env(loop: (nat, Option<Pending>, Option<bool>) -> Drive, w: World, limit: int)

  function EnvOf(r: Request): Env {
    Env((k: nat, p: Option<Pending>, res: Option<bool>) => Direct(r.world, k, p, res, MaxRounds(r.recursions), Bypasses(r)),
        r.world, r.graphLimit)
  }

  /** The rest of a turn. With findings of the specialists at hand they are synthesized, one
      model call without tools. */
  function Graph(e: Env, k: nat, c: Convo, steps: int, res: Option<bool>, findings: bool): Outcome
    decreases e.limit - steps, 1
  {
    if steps > e.limit then Outcome(Say(c, GRAPH_EXHAUSTED), true, [])
    else if findings then
      match e.w.chat(k)
      case Fails => Outcome(c, false, [])
      case Says(text, _) => Outcome(Say(c, text), true, [])
    else Continue(e, k, Unpaused(c, res), steps, e.loop(k, c.pending, res))
  }

  predicate GoesOn(w: World, d: Drive) { NextRoute(w, d) in {Targeted, Rca} }

  /** What follows a finished loop. */
  function Continue(e: Env, k: nat, c: Convo, steps: int, d: Drive): Outcome
    requires steps <= e.limit
    decreases e.limit - steps, 0
  {
    var after := Settle(e.w, c, d);
    if GoesOn(e.w, d) then Join([d], Graph(e, k + |d.inputs|, after, steps + 2, None, NextRoute(e.w, d) == Rca))
    else Outcome(after, !d.end.Failed?, [d])
  }

  function Join(loops: seq<Drive>, rest: Outcome): Outcome {
    rest.(loops := loops + rest.loops)
  }

  /** The messages a turn starts from. */
  function History(c: Convo, r: Request): seq<Message> {
    if c.pending == None then c.messages + [User(r.text)] else c.messages
  }

  function ReplyTo(c: Convo, r: Request): Option<bool> {
    if c.pending == None then None else Some(Approves(r))
  }

  function TurnOf(c: Convo, r: Request): Outcome {
    Graph(EnvOf(r), 0, Convo(History(c, r), c.pending), 3, ReplyTo(c, r), false)
  }

  /** The checkpoint of a session: loaded at the start of a turn, saved at its end. */
  class Session {
    var messages: seq<Message>
    var pending: Option<Pending>

    constructor ()
      ensures State() == Convo([], None)
    {
      messages, pending := [], None;
    }

    function State(): Convo
      reads this
    {
      Convo(messages, pending)
    }

    /** One turn: resumes what is pending or starts afresh. */
    method Turn(r: Request) returns (ok: bool, loops: seq<Drive>)
      requires Sound(State())
      modifies this
      ensures Outcome(State(), ok, loops) == TurnOf(old(State()), r)
      ensures Sound(State())
    {
      var st;
      st, ok, loops := TurnFrom(State(), r);
      messages, pending := st.messages, st.pending;
    }
  }

  method TurnFrom(c: Convo, r: Request) returns (st: Convo, ok: bool, loops: seq<Drive>)
    requires Sound(c)
    ensures Outcome(st, ok, loops) == TurnOf(c, r)
    ensures Sound(st)
  {
    TurnIsSound(c, r);
    StartIsReady(c, r);
    var start := if c.pending != None then c else Convo(c.messages + [User(r.text)], None);
    st, ok, loops := RunGraph(r, start, ReplyTo(c, r), EnvOf(r));
  }

  method RunGraph(r: Request, st0: Convo, res0: Option<bool>, ghost e: Env) returns (st: Convo, ok: bool, loops: seq<Drive>)
    requires e == EnvOf(r) && Ready(st0, res0)
    ensures Outcome(st, ok, loops) == Graph(e, 0, st0, 3, res0, false)
  {
    var steps, res, findings := 3, res0, false;
    var k: nat := 0;
    st, loops := st0, [];
    ghost var all := Graph(e, 0, st0, 3, res0, false);
    ghost var rest := all;
    while steps <= r.graphLimit
      invariant Ready(st, res)
      invariant rest == Graph(e, k, st, steps, res, findings)
      invariant Joins(all, loops, rest)
      decreases r.graphLimit - steps
    {
      if findings {
        rest := GraphEnds(e, k, st, steps, res, findings);
        st, ok := Synthesize(st, r.world.chat(k));
        return st, ok, loops;
      }
      var d, on;
      ghost var out := rest;
      st, d, k, findings, rest := RunPass(r, k, st, steps, res, e);
      on := GoesOn(r.world, d);
      JoinsOne(all, loops, out, rest, d, on);
      loops := loops + [d];
      if !on {
        return st, !d.end.Failed?, loops;
      }
      res, steps := None, steps + 2;
    }
    rest := GraphEnds(e, k, st, steps, res, findings);
    st, ok := Say(st, GRAPH_EXHAUSTED), true;
  }

  /** all is the given loops and then rest. */
  ghost predicate Joins(all: Outcome, loops: seq<Drive>, rest: Outcome) {
    all == Outcome(rest.convo, rest.ok, loops + rest.loops)
  }

  lemma JoinsOne(all: Outcome, loops: seq<Drive>, out: Outcome, rest: Outcome, d: Drive, on: bool)
    requires Joins(all, loops, out) && (if on then Joins(out, [d], rest) else out.loops == [d])
    ensures if on then Joins(all, loops + [d], rest) else all == Outcome(out.convo, out.ok, loops + [d])
  {
    Options.Regroup(loops, [d], rest.loops);
  }

  /** One pass of the graph: the coordinator, and what is left of the turn after it. */
  method RunPass(r: Request, k: nat, st0: Convo, steps: int, res: Option<bool>, ghost e: Env)
    returns (st: Convo, d: Drive, next: nat, findings: bool, ghost rest: Outcome)
    requires e == EnvOf(r) && Ready(st0, res) && steps <= r.graphLimit
    ensures GoesOn(r.world, d) ==> Ready(st, None)
    ensures var out := Graph(e, k, st0, steps, res, false);
            if GoesOn(r.world, d) then Joins(out, [d], rest) else out == Outcome(st, !d.end.Failed?, [d])
    ensures rest == Graph(e, next, st, steps + 2, None, findings)
  {
    ghost var c := st0.(pending := None);
    st, d := Coordinate(r, k, st0, res, e);
    SettleIsSound(e.w, c, d);
    assert Unpaused(st0, res) == c;
    next, findings := k + |d.inputs|, NextRoute(r.world, d) == Rca;
    ghost var out := GraphUnfolds(e, k, st0, steps, res, d);
    rest := ContinuePasses(e, k, c, steps, d);
    if !GoesOn(r.world, d) {
      rest := Graph(e, next, st, steps + 2, None, findings);
    }
  }

  method Synthesize(st0: Convo, reply: Reply) returns (st: Convo, ok: bool)
    ensures ok == reply.Says? && st == if ok then Say(st0, reply.text) else st0
  {
    st, ok := st0, reply.Says?;
    if ok {
      st := st.(messages := st.messages + [Assistant(reply.text, [])]);
    }
  }

  method Coordinate(r: Request, k: nat, st0: Convo, res: Option<bool>, ghost e: Env) returns (st: Convo, d: Drive)
    requires e == EnvOf(r) && Ready(st0, res)
    ensures d == e.loop(k, st0.pending, res) && DriveIsSound(d)
    ensures st == Settle(r.world, st0.(pending := None), d)
  {
    DirectIsSound(r, k, st0.pending, res);
    d := DirectAnswer(r.world, k, st0.pending, res, MaxRounds(r.recursions), Bypasses(r));
    st := Conclude(r.world, st0.(pending := None), d);
  }

  /** What the coordinator leaves in the conversation when its loop is over. */
  method Conclude(w: World, st0: Convo, d: Drive) returns (st: Convo)
    requires d.end.Answered? ==> Settled(d.end.loop)
    ensures st == Settle(w, st0, d)
  {
    st := st0;
    match d.end
    case Failed =>
    case Paused(p) => st := st.(pending := Some(p));
    case Exhausted => st := Say(st, BUDGET_EXHAUSTED);
    case Answered(loop) =>
      match RouteOf(w, loop)
      case Blank => st := Say(st, APOLOGY);
      case Plain =>
        var short := TrimTools(loop, w.shorten);
        TrimmingKeepsDebts(loop, w.shorten);
        short := FillOrphanToolCalls(short);
        st := st.(messages := st.messages + short);
      case _ =>
  }

  // ---- Calls and answers ----

  /** What a saved conversation always satisfies: every call in it is answered, and only the
      held call of a paused loop is not. */
  ghost predicate Sound(c: Convo) {
    Settled(c.messages) && (c.pending != None ==> OwesOnly(c.pending.value))
  }

  predicate EndsWithUser(ms: seq<Message>) { ms != [] && ms[|ms| - 1].User? }

  predicate OwesOnly(p: Pending) {
    DebtAfter(Nothing, p.loop) == Owes(multiset{p.call.id})
  }

  /** When a loop starts or resumes. */
  ghost predicate Ready(c: Convo, res: Option<bool>) {
    Settled(c.messages) && Fits(c.pending, res)
  }

  /** A reply is given exactly if something is pending. */
  predicate Fits(p: Option<Pending>, res: Option<bool>) {
    (res == None <==> p == None) && (p != None ==> OwesOnly(p.value))
  }

  lemma {:induction false} TrimmingKeepsDebts(loop: seq<Message>, shorten: string -> string)
    ensures DebtAfter(Nothing, TrimTools(loop, shorten)) == DebtAfter(Nothing, loop)
  {
    if loop != [] {
      var n := |loop| - 1;
      TrimmingKeepsDebts(loop[..n], shorten);
      assert TrimTools(loop, shorten)[..n] == TrimTools(loop[..n], shorten);
      DebtLast(Nothing, loop);
      DebtLast(Nothing, TrimTools(loop, shorten));
    }
  }

  function HeldIds(b: Batch): multiset<string> {
    if b.held == None then multiset{} else multiset{b.held.value.id}
  }

  /** A batch answers each of its calls but the one held back. */
  lemma {:induction false} BatchPays(w: World, k: nat, calls: seq<ToolCall>, bypass: bool, rest: multiset<string>)
    ensures var b := BatchOf(w, k, calls, bypass);
            DebtAfter(Owes(rest + Ids(calls)), b.msgs) == Owes(rest + HeldIds(b))
    decreases |calls|
  {
    if calls == [] {
      assert rest + Ids(calls) == rest;
    } else {
      var front, c := calls[..|calls| - 1], calls[|calls| - 1];
      var b := BatchOf(w, k, front, bypass);
      BatchPays(w, k, front, bypass, rest + multiset{c.id});
      IdsSnoc(front, c);
      assert calls == front + [c];
      RegroupIds(rest, multiset{c.id}, Ids(front));
      AddPays(b, c, w.classify(k, c), bypass, w.run(k, c), rest, Owes(rest + Ids(calls)));
    }
  }

  lemma AddPays(b: Batch, c: ToolCall, kind: Class, bypass: bool, text: string, rest: multiset<string>, d: Debt)
    requires DebtAfter(d, b.msgs) == Owes(rest + multiset{c.id} + HeldIds(b))
    ensures var a := Add(b, c, kind, bypass, text); DebtAfter(d, a.msgs) == Owes(rest + HeldIds(a))
  {
    var a := Add(b, c, kind, bypass, text);
    if a.held == b.held {
      var m := a.msgs[|a.msgs| - 1];
      DebtSnoc(d, b.msgs, m);
      RegroupIds(rest, multiset{c.id}, HeldIds(b));
      PayOne(rest + HeldIds(b), c.id, m.text);
    }
  }

  /** The model is only ever asked when every call so far is answered, once; a paused loop
      owes the answer of the held call and nothing else. */
  ghost predicate DriveIsSound(d: Drive) {
    (forall i :: 0 <= i < |d.inputs| ==> Settled(d.inputs[i])) &&
    (d.end.Paused? ==> OwesOnly(d.end.pending)) && (d.end.Answered? ==> Settled(d.end.loop))
  }

  lemma RoundPays(w: World, k: nat, loop: seq<Message>, text: string, calls: seq<ToolCall>, bypass: bool)
    requires Settled(loop)
    ensures var b := BatchOf(w, k, calls, bypass);
            DebtAfter(Nothing, loop + [Assistant(text, calls)] + b.msgs) == Owes(HeldIds(b))
  {
    var b := BatchOf(w, k, calls, bypass);
    DebtSnoc(Nothing, loop, Assistant(text, calls));
    DebtConcat(Nothing, loop + [Assistant(text, calls)], b.msgs);
    BatchPays(w, k, calls, bypass, multiset{});
    assert multiset{} + Ids(calls) == Ids(calls) && multiset{} + HeldIds(b) == HeldIds(b);
  }

  lemma {:induction false} DriveStaysSound(w: World, k: nat, loop: seq<Message>, rounds: nat, max: int, bypass: bool)
    requires Settled(loop)
    ensures DriveIsSound(DriveFrom(w, k, loop, rounds, max, bypass))
    decreases max - rounds
  {
    if rounds < max && w.chat(k).Says? {
      var text, calls := w.chat(k).text, w.chat(k).calls;
      if calls == [] {
        DebtSnoc(Nothing, loop, Assistant(text, calls));
      } else {
        var b := BatchOf(w, k, calls, bypass);
        RoundPays(w, k, loop, text, calls, bypass);
        var rest := OneRound(w, k, loop, rounds, max, bypass, b);
        if b.held == None {
          DriveStaysSound(w, k + 1, loop + [Assistant(text, calls)] + b.msgs, rounds + 1, max, bypass);
        }
      }
    }
  }

  lemma DirectIsSound(r: Request, k: nat, p: Option<Pending>, res: Option<bool>)
    requires Fits(p, res)
    ensures DriveIsSound(Direct(r.world, k, p, res, MaxRounds(r.recursions), Bypasses(r)))
  {
    var max, bypass := MaxRounds(r.recursions), Bypasses(r);
    if res != None {
      var (answer, ran) := Resolve(r.world, k, p.value.call, res.value);
      DebtSnoc(Nothing, p.value.loop, answer);
      assert multiset{p.value.call.id} - multiset{p.value.call.id} == multiset{};
      DriveStaysSound(r.world, k, p.value.loop + [answer], p.value.rounds, max, bypass);
    } else {
      DriveStaysSound(r.world, k, [], 0, max, bypass);
    }
  }

  /** What the tool loop of a turn always does. */
  ghost predicate LoopIsSound(e: Env) {
    forall k, p, res :: Fits(p, res) ==> DriveIsSound(e.loop(k, p, res))
  }

  lemma TurnLoopIsSound(r: Request)
    ensures LoopIsSound(EnvOf(r))
  {
    forall k: nat, p, res | Fits(p, res)
      ensures DriveIsSound(EnvOf(r).loop(k, p, res))
    {
      DirectIsSound(r, k, p, res);
    }
  }

  lemma SayKeepsSettled(ms: seq<Message>, text: string)
    requires Settled(ms)
    ensures Settled(ms + [Assistant(text, [])])
  {
    DebtSnoc(Nothing, ms, Assistant(text, []));
  }

  lemma SettleIsSound(w: World, c: Convo, d: Drive)
    requires Settled(c.messages) && c.pending == None && DriveIsSound(d)
    ensures Sound(Settle(w, c, d))
    ensures GoesOn(w, d) ==> Settle(w, c, d) == c
  {
    hide DebtAfter;
    match d.end {
      case Failed =>
      case Paused(p) =>
      case Exhausted => SayKeepsSettled(c.messages, BUDGET_EXHAUSTED);
      case Answered(loop) => AnswerIsSound(w, c, loop);
    }
  }

  lemma AnswerIsSound(w: World, c: Convo, loop: seq<Message>)
    requires Settled(c.messages) && c.pending == None && Settled(loop)
    ensures Settled(c.messages + [Assistant(APOLOGY, [])]) && Settled(c.messages + TrimTools(loop, w.shorten))
  {
    hide TrimTools;
    SayKeepsSettled(c.messages, APOLOGY);
    TrimmingKeepsDebts(loop, w.shorten);
    DebtConcat(Nothing, c.messages, TrimTools(loop, w.shorten));
  }

  ghost predicate AllSound(loops: seq<Drive>) {
    forall i :: 0 <= i < |loops| ==> DriveIsSound(loops[i])
  }

  /** How one pass of the graph adds to the rest of the turn: c is the conversation without
      what was pending, d the loop, and rest what follows if the turn goes on. */
  ghost predicate Pass(c: Convo, d: Drive, w: World, rest: Outcome, out: Outcome) {
    out == if GoesOn(w, d) then Join([d], rest) else Outcome(Settle(w, c, d), !d.end.Failed?, [d])
  }

  lemma GraphPass(e: Env, k: nat, c: Convo, steps: int, res: Option<bool>) returns (d: Drive, rest: Outcome, out: Outcome)
    requires LoopIsSound(e) && Ready(c, res) && steps <= e.limit
    ensures d == e.loop(k, c.pending, res) && DriveIsSound(d)
    ensures rest == Graph(e, k + |d.inputs|, c.(pending := None), steps + 2, None, NextRoute(e.w, d) == Rca)
    ensures out == Graph(e, k, c, steps, res, false)
    ensures Pass(c.(pending := None), d, e.w, rest, out)
  {
    d := e.loop(k, c.pending, res);
    var c1 := c.(pending := None);
    assert Unpaused(c, res) == c1;
    out := GraphUnfolds(e, k, c, steps, res, d);
    rest := ContinuePasses(e, k, c1, steps, d);
  }

  lemma GraphUnfolds(e: Env, k: nat, c: Convo, steps: int, res: Option<bool>, d: Drive) returns (out: Outcome)
    requires steps <= e.limit && d == e.loop(k, c.pending, res)
    ensures out == Graph(e, k, c, steps, res, false) == Continue(e, k, Unpaused(c, res), steps, d)
  {
    out := Graph(e, k, c, steps, res, false);
  }

  lemma ContinuePasses(e: Env, k: nat, c: Convo, steps: int, d: Drive) returns (rest: Outcome)
    requires steps <= e.limit && Settled(c.messages) && c.pending == None && DriveIsSound(d)
    ensures rest == Graph(e, k + |d.inputs|, c, steps + 2, None, NextRoute(e.w, d) == Rca)
    ensures Pass(c, d, e.w, rest, Continue(e, k, c, steps, d))
  {
    hide DebtAfter;
    SettleIsSound(e.w, c, d);
    rest := Graph(e, k + |d.inputs|, c, steps + 2, None, NextRoute(e.w, d) == Rca);
  }

  lemma PassIsSound(c: Convo, d: Drive, w: World, rest: Outcome, out: Outcome)
    requires Settled(c.messages) && c.pending == None && DriveIsSound(d) && Pass(c, d, w, rest, out)
    requires Sound(rest.convo) && AllSound(rest.loops)
    ensures Sound(out.convo) && AllSound(out.loops)
  {
    SettleIsSound(w, c, d);
  }

  /** The end of a turn without another loop. */
  lemma GraphEnds(e: Env, k: nat, c: Convo, steps: int, res: Option<bool>, findings: bool) returns (out: Outcome)
    requires steps > e.limit || findings
    ensures out == Graph(e, k, c, steps, res, findings) && out.loops == []
    ensures out.convo == if steps > e.limit then Say(c, GRAPH_EXHAUSTED)
                         else if e.w.chat(k).Fails? then c else Say(c, e.w.chat(k).text)
    ensures out.ok == (steps > e.limit || e.w.chat(k).Says?)
  {
    out := Graph(e, k, c, steps, res, findings);
  }

  lemma {:induction false} GraphIsSound(e: Env, k: nat, c: Convo, steps: int, res: Option<bool>, findings: bool) returns (out: Outcome)
    requires LoopIsSound(e) && Ready(c, res)
    ensures out == Graph(e, k, c, steps, res, findings)
    ensures Sound(out.convo) && AllSound(out.loops)
    decreases e.limit - steps
  {
    hide DebtAfter, Graph, Continue, Direct;
    if steps > e.limit || findings {
      out := GraphEnds(e, k, c, steps, res, findings);
      if out.convo != c {
        SayKeepsSettled(c.messages, out.convo.messages[|c.messages|].text);
      }
    } else {
      var d, rest;
      d, rest, out := GraphPass(e, k, c, steps, res);
      var same := GraphIsSound(e, k + |d.inputs|, c.(pending := None), steps + 2, None, NextRoute(e.w, d) == Rca);
      assert same == rest;
      PassIsSound(c.(pending := None), d, e.w, same, out);
    }
  }

  lemma StartIsReady(c: Convo, r: Request)
    requires Sound(c)
    ensures Ready(Convo(History(c, r), c.pending), ReplyTo(c, r))
  {
    DebtSnoc(Nothing, c.messages, User(r.text));
  }

  /** A turn asks the model only when every call is answered once, and leaves every call
      answered but the one it holds back. */
  lemma TurnIsSound(c: Convo, r: Request)
    requires Sound(c)
    ensures Sound(TurnOf(c, r).convo) && AllSound(TurnOf(c, r).loops)
  {
    StartIsReady(c, r);
    TurnLoopIsSound(r);
    var out := GraphIsSound(EnvOf(r), 0, Convo(History(c, r), c.pending), 3, ReplyTo(c, r), false);
  }

  /** So what the model is given, the trimmed history and the loop, is whole as well. */
  lemma InputsAreWhole(c: Convo, r: Request, i: nat, j: nat)
    requires Sound(c) && EndsWithUser(History(c, r))
    requires i < |TurnOf(c, r).loops| && j < |TurnOf(c, r).loops[i].inputs|
    ensures var h := History(c, r); Settled(h[Dropped(h)..] + TurnOf(c, r).loops[i].inputs[j])
  {
    var h := History(c, r);
    TurnIsSound(c, r);
    StartIsReady(c, r);
    TrimKeepsExchangesWhole(h);
    assert DriveIsSound(TurnOf(c, r).loops[i]);
    DebtConcat(Nothing, h[Dropped(h)..], TurnOf(c, r).loops[i].inputs[j]);
  }

  // ---- What runs ----

  /** A call that no human approved, and no write unless the bypass covers it. */
  predicate CoveredOne(x: Ran, bypass: bool) {
    !x.approved && (x.kind.Guarded? ==> bypass && !x.kind.always)
  }

  ghost predicate Covered(ran: seq<Ran>, bypass: bool) {
    forall i :: 0 <= i < |ran| ==> CoveredOne(ran[i], bypass)
  }

  lemma {:induction false} BatchIsCovered(w: World, k: nat, calls: seq<ToolCall>, bypass: bool)
    ensures Covered(BatchOf(w, k, calls, bypass).ran, bypass)
    decreases |calls|
  {
    if calls != [] {
      BatchIsCovered(w, k, calls[..|calls| - 1], bypass);
    }
  }

  lemma {:induction false} DriveIsCovered(w: World, k: nat, loop: seq<Message>, rounds: nat, max: int, bypass: bool)
    ensures Covered(DriveFrom(w, k, loop, rounds, max, bypass).ran, bypass)
    decreases max - rounds
  {
    if rounds < max && w.chat(k).Says? && w.chat(k).calls != [] {
      var b := BatchOf(w, k, w.chat(k).calls, bypass);
      BatchIsCovered(w, k, w.chat(k).calls, bypass);
      var rest := OneRound(w, k, loop, rounds, max, bypass, b);
      if b.held == None {
        DriveIsCovered(w, k + 1, loop + [Assistant(w.chat(k).text, w.chat(k).calls)] + b.msgs, rounds + 1, max, bypass);
      }
    }
  }

  function AllRan(loops: seq<Drive>): seq<Ran> {
    if loops == [] then [] else loops[0].ran + AllRan(loops[1..])
  }

  /** What a pending call runs when the turn resolves it. */
  function Resolved(w: World, k: nat, p: Option<Pending>, res: Option<bool>): seq<Ran> {
    if res == None || p == None then [] else Resolve(w, k, p.value.call, res.value).1
  }

  ghost predicate CoveredAfter(first: seq<Ran>, ran: seq<Ran>, bypass: bool) {
    first <= ran && Covered(ran[|first|..], bypass)
  }

  lemma PassIsCovered(first: seq<Ran>, c: Convo, d: Drive, w: World, rest: Outcome, out: Outcome, bypass: bool)
    requires Pass(c, d, w, rest, out) && CoveredAfter(first, d.ran, bypass) && CoveredAfter([], AllRan(rest.loops), bypass)
    ensures CoveredAfter(first, AllRan(out.loops), bypass)
  {
    var more := if GoesOn(w, d) then rest.loops else [];
    assert out.loops == [d] + more && ([d] + more)[1..] == more;
    assert AllRan(rest.loops)[0..] == AllRan(rest.loops);
    assert (d.ran + AllRan(more))[|first|..] == d.ran[|first|..] + AllRan(more);
  }

  ghost predicate LoopIsCovered(e: Env, bypass: bool) {
    forall k, p, res :: Fits(p, res) ==> CoveredAfter(Resolved(e.w, k, p, res), e.loop(k, p, res).ran, bypass)
  }

  /** Everything that a turn runs after what it may resolve first is covered. */
  lemma {:induction false} GraphIsCovered(e: Env, k: nat, c: Convo, steps: int, res: Option<bool>, findings: bool, bypass: bool)
    returns (out: Outcome)
    requires LoopIsSound(e) && LoopIsCovered(e, bypass) && Ready(c, res)
    ensures out == Graph(e, k, c, steps, res, findings)
    ensures CoveredAfter(if steps > e.limit || findings then [] else Resolved(e.w, k, c.pending, res), AllRan(out.loops), bypass)
    decreases e.limit - steps
  {
    hide DebtAfter, Graph, Continue, Direct;
    if steps > e.limit || findings {
      out := GraphEnds(e, k, c, steps, res, findings);
    } else {
      var d, rest;
      d, rest, out := GraphPass(e, k, c, steps, res);
      var same := GraphIsCovered(e, k + |d.inputs|, c.(pending := None), steps + 2, None, NextRoute(e.w, d) == Rca, bypass);
      assert same == rest && CoveredAfter([], AllRan(same.loops), bypass);
      PassIsCovered(Resolved(e.w, k, c.pending, res), c.(pending := None), d, e.w, same, out, bypass);
    }
  }

  lemma TurnLoopIsCovered(r: Request)
    ensures LoopIsCovered(EnvOf(r), Bypasses(r))
  {
    var max, bypass := MaxRounds(r.recursions), Bypasses(r);
    forall k: nat, p, res | Fits(p, res)
      ensures CoveredAfter(Resolved(r.world, k, p, res), EnvOf(r).loop(k, p, res).ran, bypass)
    {
      if res == None {
        DriveIsCovered(r.world, k, [], 0, max, bypass);
      } else {
        var (answer, ran) := Resolve(r.world, k, p.value.call, res.value);
        DriveIsCovered(r.world, k, p.value.loop + [answer], p.value.rounds, max, bypass);
      }
    }
  }

  /** What a turn runs: what it resolves, and then only calls that are covered. */
  lemma TurnIsCovered(c: Convo, r: Request)
    requires Sound(c)
    ensures CoveredAfter(if 3 > r.graphLimit then [] else Resolved(r.world, 0, c.pending, ReplyTo(c, r)), AllRan(TurnOf(c, r).loops), Bypasses(r))
  {
    StartIsReady(c, r);
    TurnLoopIsSound(r);
    TurnLoopIsCovered(r);
    var out := GraphIsCovered(EnvOf(r), 0, Convo(History(c, r), c.pending), 3, ReplyTo(c, r), false, Bypasses(r));
  }

  /** The safety of a turn. A write runs only if it is the call last shown to the human and
      the reply is a recognised approval, or if the turn's bypass covers it, which a write
      that always needs a confirmation never is. So no turn runs two approved calls. */
  lemma WritesAreApproved(c: Convo, r: Request, i: nat)
    requires Sound(c) && i < |AllRan(TurnOf(c, r).loops)|
    ensures var x := AllRan(TurnOf(c, r).loops)[i];
            (x.approved ==> i == 0 && r.phrase in {Approve, ApproveAll} && c.pending != None && x.call == c.pending.value.call) &&
            (x.kind.Guarded? ==> x.approved || ((r.auto || r.phrase == ApproveAll) && !x.kind.always))
  {
    var ran := AllRan(TurnOf(c, r).loops);
    TurnIsCovered(c, r);
    var first := if 3 > r.graphLimit then [] else Resolved(r.world, 0, c.pending, ReplyTo(c, r));
    if i >= |first| {
      assert ran[|first|..][i - |first|] == ran[i];
    } else {
      assert ran[i] == first[i];
    }
  }

  /** An approval runs the pending call, first of all, exactly if it can still be planned. */
  lemma ApprovalRuns(c: Convo, r: Request)
    requires Sound(c) && c.pending != None && r.phrase in {Approve, ApproveAll} && r.graphLimit >= 3
    ensures var kind, ran := r.world.classify(0, c.pending.value.call), AllRan(TurnOf(c, r).loops);
            !kind.Refused? <==> ran != [] && ran[0] == Ran(c.pending.value.call, kind, true)
  {
    var kind, ran := r.world.classify(0, c.pending.value.call), AllRan(TurnOf(c, r).loops);
    TurnIsCovered(c, r);
    if kind.Refused? && ran != [] {
      WritesAreApproved(c, r, 0);
      assert ran[0..] == ran;
    }
  }

  /** A turn that ends paused has added nothing to the conversation since its start. */
  lemma {:induction false} GraphPausesInPlace(e: Env, k: nat, c: Convo, steps: int, res: Option<bool>, findings: bool)
    returns (out: Outcome)
    requires LoopIsSound(e) && Ready(c, res) && (c.pending != None ==> steps <= e.limit && !findings)
    ensures out == Graph(e, k, c, steps, res, findings)
    ensures out.convo.pending != None ==> out.convo.messages == c.messages
    decreases e.limit - steps
  {
    hide DebtAfter, Graph, Continue, Direct;
    if steps > e.limit || findings {
      out := GraphEnds(e, k, c, steps, res, findings);
    } else {
      var d, rest;
      d, rest, out := GraphPass(e, k, c, steps, res);
      var same := GraphPausesInPlace(e, k + |d.inputs|, c.(pending := None), steps + 2, None, NextRoute(e.w, d) == Rca);
    }
  }

  lemma TurnPausesInPlace(c: Convo, r: Request)
    requires Sound(c) && r.graphLimit >= 3
    ensures var after := TurnOf(c, r).convo; after.pending != None ==> after.messages == History(c, r)
  {
    StartIsReady(c, r);
    TurnLoopIsSound(r);
    var out := GraphPausesInPlace(EnvOf(r), 0, Convo(History(c, r), c.pending), 3, ReplyTo(c, r), false);
  }

  // ---- The budget ----

  /** A loop counts its model calls on top of those it has already spent, and never goes
      over the limit. */
  lemma {:induction false} DriveCounts(w: World, k: nat, loop: seq<Message>, rounds: nat, max: nat, bypass: bool)
    ensures var d := DriveFrom(w, k, loop, rounds, max, bypass);
            (rounds + |d.inputs| <= max || d.inputs == []) && (d.end.Paused? ==> d.end.pending.rounds == rounds + |d.inputs|)
    decreases max - rounds
  {
    if rounds < max && w.chat(k).Says? && w.chat(k).calls != [] {
      var b := BatchOf(w, k, w.chat(k).calls, bypass);
      var rest := OneRound(w, k, loop, rounds, max, bypass, b);
      if b.held == None {
        DriveCounts(w, k + 1, loop + [Assistant(w.chat(k).text, w.chat(k).calls)] + b.msgs, rounds + 1, max, bypass);
      }
    }
  }

  function SpentBefore(c: Convo): nat {
    if c.pending == None then 0 else c.pending.value.rounds
  }

  /** A loop stays within the limit and passes on what it has spent. */
  ghost predicate LoopCounts(e: Env, max: nat) {
    forall k, p, res :: Fits(p, res) ==> CountsOn(if p == None then 0 else p.value.rounds, e.loop(k, p, res), max)
  }

  predicate CountsOn(spent: nat, d: Drive, max: nat) {
    (spent + |d.inputs| <= max || d.inputs == []) && (d.end.Paused? ==> d.end.pending.rounds == spent + |d.inputs|)
  }

  lemma TurnLoopCounts(r: Request)
    ensures LoopCounts(EnvOf(r), MaxRounds(r.recursions))
  {
    var max, bypass := MaxRounds(r.recursions), Bypasses(r);
    forall k: nat, p, res | Fits(p, res)
      ensures CountsOn(if p == None then 0 else p.value.rounds, EnvOf(r).loop(k, p, res), max)
    {
      if res == None {
        DriveCounts(r.world, k, [], 0, max, bypass);
      } else {
        DriveCounts(r.world, k, p.value.loop + [Resolve(r.world, k, p.value.call, res.value).0], p.value.rounds, max, bypass);
      }
    }
  }

  /** What the loop that is pending after a turn has spent: the model calls of the turn's
      last loop, and what was spent before if that is the loop the turn resumed. */
  function Carried(spent: nat, out: Outcome): nat {
    if out.convo.pending == None then 0
    else if out.loops == [] then spent
    else |out.loops[|out.loops| - 1].inputs| + (if |out.loops| == 1 then spent else 0)
  }

  /** No loop goes over the limit, the first counted on top of what it had spent. */
  ghost predicate WithinBudget(loops: seq<Drive>, spent: nat, max: nat) {
    forall i :: 0 <= i < |loops| ==> loops[i].inputs == [] || |loops[i].inputs| + (if i == 0 then spent else 0) <= max
  }

  lemma PassCarries(c: Convo, c1: Convo, d: Drive, w: World, rest: Outcome, out: Outcome, max: nat)
    requires c1 == c.(pending := None) && Pass(c1, d, w, rest, out)
    requires CountsOn(SpentBefore(c), d, max)
    requires SpentBefore(rest.convo) == Carried(0, rest) && WithinBudget(rest.loops, 0, max)
    requires rest.loops == [] ==> rest.convo.pending == None
    ensures SpentBefore(out.convo) == Carried(SpentBefore(c), out)
    ensures WithinBudget(out.loops, SpentBefore(c), max)
  {
    if GoesOn(w, d) {
      assert forall i :: 0 < i < |out.loops| ==> out.loops[i] == rest.loops[i - 1];
    }
  }

  lemma {:induction false} GraphCarries(e: Env, k: nat, c: Convo, steps: int, res: Option<bool>, findings: bool, max: nat)
    returns (out: Outcome)
    requires LoopIsSound(e) && LoopCounts(e, max) && Ready(c, res)
    ensures out == Graph(e, k, c, steps, res, findings)
    ensures SpentBefore(out.convo) == Carried(SpentBefore(c), out) && WithinBudget(out.loops, SpentBefore(c), max)
    ensures out.loops == [] ==> out.convo.pending == c.pending
    decreases e.limit - steps
  {
    hide DebtAfter, Graph, Continue, Direct;
    if steps > e.limit || findings {
      out := GraphEnds(e, k, c, steps, res, findings);
    } else {
      var d, rest;
      d, rest, out := GraphPass(e, k, c, steps, res);
      var same := GraphCarries(e, k + |d.inputs|, c.(pending := None), steps + 2, None, NextRoute(e.w, d) == Rca, max);
      PassCarries(c, c.(pending := None), d, e.w, same, out, max);
    }
  }

  lemma TurnCarries(c: Convo, r: Request)
    requires Sound(c)
    ensures SpentBefore(TurnOf(c, r).convo) == Carried(SpentBefore(c), TurnOf(c, r))
    ensures WithinBudget(TurnOf(c, r).loops, SpentBefore(c), MaxRounds(r.recursions))
  {
    StartIsReady(c, r);
    TurnLoopIsSound(r);
    TurnLoopCounts(r);
    var start := Convo(History(c, r), c.pending);
    var out := GraphCarries(EnvOf(r), 0, start, 3, ReplyTo(c, r), false, MaxRounds(r.recursions));
  }

  // ---- Runs ----

  /** A session from its first turn on, whatever the requests, the model and the tools do. */
  ghost predicate IsRun(cs: seq<Convo>, rs: seq<Request>) {
    |cs| == |rs| + 1 && cs[0] == Convo([], None) && forall i :: 0 <= i < |rs| ==> TurnLeads(cs[i], rs[i], cs[i + 1])
  }

  ghost predicate TurnLeads(c: Convo, r: Request, after: Convo) {
    after == TurnOf(c, r).convo
  }

  /** So TurnIsSound, InputsAreWhole, WritesAreApproved and ApprovalRuns hold of every turn of
      every run. */
  lemma {:induction false} RunsAreSound(cs: seq<Convo>, rs: seq<Request>)
    requires IsRun(cs, rs)
    ensures forall i :: 0 <= i < |cs| ==> Sound(cs[i])
  {
    for n := 1 to |cs|
      invariant forall i :: 0 <= i < n ==> Sound(cs[i])
    {
      assert TurnLeads(cs[n - 1], rs[n - 1], cs[n]);
      TurnIsSound(cs[n - 1], rs[n - 1]);
    }
  }

  predicate PausedAtUser(c: Convo) {
    c.pending != None ==> EndsWithUser(c.messages)
  }

  lemma {:induction false} RunsPauseAtUser(cs: seq<Convo>, rs: seq<Request>)
    requires IsRun(cs, rs) && forall i :: 0 <= i < |rs| ==> rs[i].graphLimit >= 3
    ensures forall i :: 0 <= i < |cs| ==> PausedAtUser(cs[i])
  {
    for n := 1 to |cs|
      invariant forall i :: 0 <= i < n ==> PausedAtUser(cs[i])
    {
      RunsAreSound(cs, rs);
      assert TurnLeads(cs[n - 1], rs[n - 1], cs[n]);
      TurnPausesInPlace(cs[n - 1], rs[n - 1]);
    }
  }

  /** In every run the model is given a whole conversation, however the history is trimmed and
      however often its loop has been paused. */
  lemma RunsGiveWholeInputs(cs: seq<Convo>, rs: seq<Request>, n: nat, i: nat, j: nat)
    requires IsRun(cs, rs) && forall i :: 0 <= i < |rs| ==> rs[i].graphLimit >= 3
    requires n < |rs| && i < |TurnOf(cs[n], rs[n]).loops| && j < |TurnOf(cs[n], rs[n]).loops[i].inputs|
    ensures var h := History(cs[n], rs[n]); Settled(h[Dropped(h)..] + TurnOf(cs[n], rs[n]).loops[i].inputs[j])
  {
    RunsAreSound(cs, rs);
    RunsPauseAtUser(cs, rs);
    assert PausedAtUser(cs[n]);
    InputsAreWhole(cs[n], rs[n], i, j);
  }

  /** The model calls made so far by the loop that is paused after n turns, over all the turns
      it has been through. */
  function OpenCalls(cs: seq<Convo>, rs: seq<Request>, n: nat): nat
    requires |cs| == |rs| + 1 && n <= |rs|
  {
    if n == 0 then 0 else Carried(OpenCalls(cs, rs, n - 1), TurnOf(cs[n - 1], rs[n - 1]))
  }

  lemma StepCarries(cs: seq<Convo>, rs: seq<Request>, i: nat)
    requires IsRun(cs, rs) && i < |rs|
    ensures Sound(cs[i]) && SpentBefore(cs[i + 1]) == Carried(SpentBefore(cs[i]), TurnOf(cs[i], rs[i]))
  {
    RunsAreSound(cs, rs);
    assert TurnLeads(cs[i], rs[i], cs[i + 1]);
    TurnCarries(cs[i], rs[i]);
  }

  lemma {:induction false} RoundsAreOpenCalls(cs: seq<Convo>, rs: seq<Request>, n: nat)
    requires IsRun(cs, rs) && n <= |rs|
    ensures SpentBefore(cs[n]) == OpenCalls(cs, rs, n)
  {
    hide TurnOf, Graph, DebtAfter;
    if n > 0 {
      RoundsAreOpenCalls(cs, rs, n - 1);
      StepCarries(cs, rs, n - 1);
    }
  }

  /** The budget survives the pauses: with the turns before it, a loop never makes more model
      calls than a third of the limit. */
  lemma BudgetSurvivesPauses(cs: seq<Convo>, rs: seq<Request>, n: nat, i: nat)
    requires IsRun(cs, rs) && n < |rs| && rs[n].recursions >= 0
    requires i < |TurnOf(cs[n], rs[n]).loops| && TurnOf(cs[n], rs[n]).loops[i].inputs != []
    ensures var calls := |TurnOf(cs[n], rs[n]).loops[i].inputs| + (if i == 0 then OpenCalls(cs, rs, n) else 0);
            UNITS_PER_STEP * calls <= rs[n].recursions
  {
    RoundsAreOpenCalls(cs, rs, n);
    StepCarries(cs, rs, n);
    TurnCarries(cs[n], rs[n]);
  }

  // ---- Where the record of an approved call is lost ----

  predicate Answers(m: Message, id: string) { m.Tool? && m.id == id }

  ghost predicate HasAnswer(ms: seq<Message>, id: string) {
    exists i :: 0 <= i < |ms| && Answers(ms[i], id)
  }

  /** The turn has left an answer to the call in the conversation, or in the loop it keeps
      for the next turn. */
  ghost predicate Recorded(before: Convo, after: Convo, id: string) {
    |before.messages| <= |after.messages| &&
    (HasAnswer(after.messages[|before.messages|..], id) || (after.pending != None && HasAnswer(after.pending.value.loop, id)))
  }

  /** The model gives no later call the id of this one. */
  ghost predicate NamesCallsAnew(w: World, id: string) {
    forall k, i :: w.chat(k).Says? && 0 <= i < |w.chat(k).calls| ==> w.chat(k).calls[i].id != id
  }

  lemma {:induction false} BatchAnswersItsCalls(w: World, k: nat, calls: seq<ToolCall>, bypass: bool, id: string)
    requires forall i :: 0 <= i < |calls| ==> calls[i].id != id
    ensures !HasAnswer(BatchOf(w, k, calls, bypass).msgs, id)
    decreases |calls|
  {
    if calls != [] {
      BatchAnswersItsCalls(w, k, calls[..|calls| - 1], bypass, id);
    }
  }

  /** The loop that an end leaves behind, if any. */
  function LoopOf(end: End): seq<Message> {
    match end
    case Answered(loop) => loop
    case Paused(p) => p.loop
    case _ => []
  }

  /** A loop only grows, by messages that answer none but its own calls. */
  lemma {:induction false} DriveOnlyAdds(w: World, k: nat, loop: seq<Message>, rounds: nat, max: int, bypass: bool, id: string)
    requires NamesCallsAnew(w, id)
    ensures var end := DriveFrom(w, k, loop, rounds, max, bypass).end;
            end.Answered? || end.Paused? ==> loop <= LoopOf(end) && !HasAnswer(LoopOf(end)[|loop|..], id)
    decreases max - rounds
  {
    if rounds < max && w.chat(k).Says? {
      var text, calls := w.chat(k).text, w.chat(k).calls;
      var said := loop + [Assistant(text, calls)];
      if calls == [] {
        assert said[|loop|..] == [Assistant(text, calls)];
      } else {
        var b := BatchOf(w, k, calls, bypass);
        BatchAnswersItsCalls(w, k, calls, bypass, id);
        assert (said + b.msgs)[|loop|..] == [Assistant(text, calls)] + b.msgs;
        var rest := OneRound(w, k, loop, rounds, max, bypass, b);
        if b.held == None {
          DriveOnlyAdds(w, k + 1, said + b.msgs, rounds + 1, max, bypass, id);
          if rest.end.Answered? || rest.end.Paused? {
            AddsOnAdds(loop, said + b.msgs, LoopOf(rest.end), id);
          }
        }
      }
    }
  }

  lemma AddsOnAdds(a: seq<Message>, b: seq<Message>, c: seq<Message>, id: string)
    requires a <= b && !HasAnswer(b[|a|..], id)
    requires b <= c && !HasAnswer(c[|b|..], id)
    ensures a <= c && !HasAnswer(c[|a|..], id)
  {
    assert c[|a|..] == b[|a|..] + c[|b|..];
  }

  /** What the rest of a turn adds answers none but its own calls. */
  ghost predicate Silent(before: Convo, after: Convo, id: string) {
    before.messages <= after.messages && !HasAnswer(after.messages[|before.messages|..], id) &&
    (after.pending != None ==> !HasAnswer(after.pending.value.loop, id))
  }

  ghost predicate LoopIsSilent(e: Env, id: string) {
    forall k :: !HasAnswer(LoopOf(e.loop(k, None, None).end), id)
  }

  lemma TurnLoopIsSilent(r: Request, id: string)
    requires NamesCallsAnew(r.world, id)
    ensures LoopIsSilent(EnvOf(r), id)
  {
    forall k: nat
      ensures !HasAnswer(LoopOf(EnvOf(r).loop(k, None, None).end), id)
    {
      DriveOnlyAdds(r.world, k, [], 0, MaxRounds(r.recursions), Bypasses(r), id);
      var all := LoopOf(EnvOf(r).loop(k, None, None).end);
      assert all[0..] == all;
    }
  }

  lemma SayIsSilent(c: Convo, text: string, id: string)
    ensures Silent(c.(pending := None), Say(c.(pending := None), text), id)
  {
    assert (c.messages + [Assistant(text, [])])[|c.messages|..] == [Assistant(text, [])];
  }

  lemma SettleIsSilent(w: World, c: Convo, d: Drive, id: string)
    requires c.pending == None && !HasAnswer(LoopOf(d.end), id)
    ensures Silent(c, Settle(w, c, d), id)
  {
    assert c.messages[|c.messages|..] == [];
    match d.end {
      case Failed =>
      case Paused(p) =>
      case Exhausted => SayIsSilent(c, BUDGET_EXHAUSTED, id);
      case Answered(loop) =>
        SayIsSilent(c, APOLOGY, id);
        assert (c.messages + TrimTools(loop, w.shorten))[|c.messages|..] == TrimTools(loop, w.shorten);
    }
  }

  lemma {:induction false} GraphIsSilent(e: Env, k: nat, c: Convo, steps: int, findings: bool, id: string) returns (out: Outcome)
    requires LoopIsSound(e) && LoopIsSilent(e, id) && Ready(c, None)
    ensures out == Graph(e, k, c, steps, None, findings)
    ensures Silent(c, out.convo, id)
    decreases e.limit - steps
  {
    hide DebtAfter, Graph, Continue, Direct;
    if steps > e.limit || findings {
      out := GraphEnds(e, k, c, steps, None, findings);
      assert c.messages[|c.messages|..] == [];
      SayIsSilent(c, if steps > e.limit then GRAPH_EXHAUSTED else if e.w.chat(k).Says? then e.w.chat(k).text else "", id);
    } else {
      var d, rest;
      d, rest, out := GraphPass(e, k, c, steps, None);
      var same := GraphIsSilent(e, k + |d.inputs|, c, steps + 2, NextRoute(e.w, d) == Rca, id);
      SettleIsSilent(e.w, c, d, id);
    }
  }

  /** How the loop ends that a turn resumes with its reply. */
  function ResumedEnd(c: Convo, r: Request): End {
    Direct(r.world, 0, c.pending, Some(Approves(r)), MaxRounds(r.recursions), Bypasses(r)).end
  }

  /** The answer of the call a human was asked about, executed or cancelled, is recorded if
      and only if the loop it resumes pauses again or ends in a plain answer. */
  lemma ResumedTurnRecords(c: Convo, r: Request)
    requires Sound(c) && c.pending != None && r.graphLimit >= 3 && NamesCallsAnew(r.world, c.pending.value.call.id)
    ensures var end := ResumedEnd(c, r);
            Recorded(c, TurnOf(c, r).convo, c.pending.value.call.id) <==>
            end.Paused? || (end.Answered? && RouteOf(r.world, end.loop) == Plain)
  {
    hide DebtAfter, Graph, Continue, Direct;
    var id, e := c.pending.value.call.id, EnvOf(r);
    StartIsReady(c, r);
    TurnLoopIsSound(r);
    TurnLoopIsSilent(r, id);
    assert Convo(History(c, r), c.pending) == c;
    var d, rest, out := GraphPass(e, 0, c, 3, Some(Approves(r)));
    var c1 := c.(pending := None);
    var same := GraphIsSilent(e, |d.inputs|, c1, 5, NextRoute(r.world, d) == Rca, id);
    ResumedLoopAnswers(c, r);
    if !GoesOn(r.world, d) {
      SettledRecords(r.world, c, d, id);
    }
  }

  /** The resumed loop carries the answer. */
  lemma ResumedLoopAnswers(c: Convo, r: Request)
    requires c.pending != None && NamesCallsAnew(r.world, c.pending.value.call.id)
    ensures var end := ResumedEnd(c, r); end.Paused? || end.Answered? ==> HasAnswer(LoopOf(end), c.pending.value.call.id)
  {
    var p, end := c.pending.value, ResumedEnd(c, r);
    var (answer, ran) := Resolve(r.world, 0, p.call, Approves(r));
    DriveOnlyAdds(r.world, 0, p.loop + [answer], p.rounds, MaxRounds(r.recursions), Bypasses(r), p.call.id);
    if end.Paused? || end.Answered? {
      assert LoopOf(end)[|p.loop|] == (p.loop + [answer])[|p.loop|];
    }
  }

  lemma SettledRecords(w: World, c: Convo, d: Drive, id: string)
    requires !GoesOn(w, d) && (d.end.Paused? || d.end.Answered? ==> HasAnswer(LoopOf(d.end), id))
    ensures Recorded(c, Settle(w, c.(pending := None), d), id) <==>
            d.end.Paused? || (d.end.Answered? && RouteOf(w, d.end.loop) == Plain)
  {
    assert c.messages[|c.messages|..] == [];
    SayIsSilent(c, BUDGET_EXHAUSTED, id);
    SayIsSilent(c, APOLOGY, id);
    if d.end.Answered? {
      var i :| 0 <= i < |d.end.loop| && Answers(d.end.loop[i], id);
      var short := TrimTools(d.end.loop, w.shorten);
      assert (c.messages + short)[|c.messages|..] == short && Answers(short[i], id);
    }
  }

  /** So an approved call that can be planned runs, first of all, and its record is lost in
      exactly five cases: the rounds are used up; the model fails; it answers with nothing;
      or it hands over to the specialists or to a targeted read. */
  lemma ApprovedCallIsLostIff(c: Convo, r: Request)
    requires Sound(c) && c.pending != None && Approves(r) && r.graphLimit >= 3
    requires NamesCallsAnew(r.world, c.pending.value.call.id) && !r.world.classify(0, c.pending.value.call).Refused?
    ensures var ran, call := AllRan(TurnOf(c, r).loops), c.pending.value.call;
            ran != [] && ran[0] == Ran(call, r.world.classify(0, call), true)
    ensures var end := ResumedEnd(c, r);
            !Recorded(c, TurnOf(c, r).convo, c.pending.value.call.id) <==>
            end.Exhausted? || end.Failed? || (end.Answered? && RouteOf(r.world, end.loop) in {Blank, Rca, Targeted})
  {
    hide DebtAfter, Graph, Continue, Direct;
    ApprovalRuns(c, r);
    ResumedTurnRecords(c, r);
  }

  /** The first reply of the model shows most of them. */
  lemma FirstReplyDecides(c: Convo, r: Request)
    requires Sound(c) && c.pending != None && r.graphLimit >= 3 && NamesCallsAnew(r.world, c.pending.value.call.id)
    requires c.pending.value.rounds >= MaxRounds(r.recursions) || r.world.chat(0).Fails? || r.world.chat(0).calls == []
    ensures Recorded(c, TurnOf(c, r).convo, c.pending.value.call.id) <==>
            c.pending.value.rounds < MaxRounds(r.recursions) && r.world.chat(0).Says? && r.world.route(r.world.chat(0).text) == Plain
  {
    hide DebtAfter, Graph, Continue;
    ResumedTurnRecords(c, r);
  }
}
