/** Tool calls and their answers in a conversation, and the two passes over it
    (trimSession and fillOrphanToolCalls in internal/agent/trim.go). */
module ToolPairing {

  const MAX_SESSION_MESSAGES := 20
  const SKIPPED := "Skipped - pending approval; will be re-proposed in a separate response."

  datatype ToolCall = ToolCall(id: string, name: string, args: string)

  datatype Message = User(text: string) | Assistant(text: string, calls: seq<ToolCall>) | Tool(id: string, text: string)

  // ---- What a conversation still owes ----

  /** The calls that are waiting for their answers, or a conversation that a provider
      refuses: an answer to no call, or anything else before all calls are answered. */
  datatype Debt = Owes(ids: multiset<string>) | Torn

  const Nothing := Owes(multiset{})

  function Ids(calls: seq<ToolCall>): multiset<string> {
    multiset(IdList(calls))
  }

  function IdList(calls: seq<ToolCall>): (ids: seq<string>)
    ensures |ids| == |calls|
  {
    seq(|calls|, i requires 0 <= i < |calls| => calls[i].id)
  }

  lemma IdsConcat(a: seq<ToolCall>, b: seq<ToolCall>)
    ensures Ids(a + b) == Ids(a) + Ids(b)
  {
    assert IdList(a + b) == IdList(a) + IdList(b);
  }

  lemma IdsSnoc(calls: seq<ToolCall>, c: ToolCall)
    ensures Ids(calls + [c]) == Ids(calls) + multiset{c.id}
  {
    assert IdList(calls + [c]) == IdList(calls) + [c.id];
  }

  function Next(d: Debt, m: Message): Debt {
    match d
    case Torn => Torn
    case Owes(ids) =>
      match m
      case Tool(id, _) => if id in ids then Owes(ids - multiset{id}) else Torn
      case User(_) => if ids == multiset{} then d else Torn
      case Assistant(_, calls) => if ids == multiset{} then Owes(Ids(calls)) else Torn
  }

  function Fold<S, T>(f: (S, T) -> S, s: S, ts: seq<T>): S {
    if ts == [] then s else f(Fold(f, s, ts[..|ts| - 1]), ts[|ts| - 1])
  }

  function DebtAfter(d: Debt, ms: seq<Message>): Debt {
    Fold(Next, d, ms)
  }

  /** Every call is answered, once, right after the message that makes it. */
  predicate Settled(ms: seq<Message>) {
    DebtAfter(Nothing, ms) == Nothing
  }

  lemma DebtSnoc(d: Debt, ms: seq<Message>, m: Message)
    ensures DebtAfter(d, ms + [m]) == Next(DebtAfter(d, ms), m)
  {
    assert (ms + [m])[..|ms|] == ms;
  }

  lemma DebtLast(d: Debt, ms: seq<Message>)
    requires ms != []
    ensures DebtAfter(d, ms) == Next(DebtAfter(d, ms[..|ms| - 1]), ms[|ms| - 1])
  {
  }

  lemma {:induction false} FoldConcat<S, T>(f: (S, T) -> S, s: S, a: seq<T>, b: seq<T>)
    ensures Fold(f, s, a + b) == Fold(f, Fold(f, s, a), b)
    decreases |b|
  {
    if b == [] {
      assert a + b == a;
    } else {
      var front := b[..|b| - 1];
      FoldConcat(f, s, a, front);
      assert (a + b)[..|a + b| - 1] == a + front;
    }
  }

  lemma DebtConcat(d: Debt, a: seq<Message>, b: seq<Message>)
    ensures DebtAfter(d, a + b) == DebtAfter(DebtAfter(d, a), b)
  {
    FoldConcat(Next, d, a, b);
  }

  lemma {:induction false} TornStays(ms: seq<Message>)
    ensures DebtAfter(Torn, ms) == Torn
  {
    if ms != [] {
      TornStays(ms[..|ms| - 1]);
    }
  }

  // ---- One answer for each call ----

  function Calls(ms: seq<Message>): multiset<string> {
    if ms == [] then multiset{}
    else
      var m := ms[|ms| - 1];
      Calls(ms[..|ms| - 1]) + (if m.Assistant? then Ids(m.calls) else multiset{})
  }

  function Answers(ms: seq<Message>): multiset<string> {
    if ms == [] then multiset{}
    else
      var m := ms[|ms| - 1];
      Answers(ms[..|ms| - 1]) + (if m.Tool? then multiset{m.id} else multiset{})
  }

  /** What is owed is what is called and not answered. */
  lemma {:induction false} DebtIsCallsLessAnswers(ms: seq<Message>)
    requires DebtAfter(Nothing, ms).Owes?
    ensures Calls(ms) == Answers(ms) + DebtAfter(Nothing, ms).ids
  {
    if ms != [] {
      var n := |ms| - 1;
      DebtIsCallsLessAnswers(ms[..n]);
      var ids := DebtAfter(Nothing, ms[..n]).ids;
      if ms[n].Tool? {
        assert ids == (ids - multiset{ms[n].id}) + multiset{ms[n].id};
      }
    }
  }

  /** In a settled conversation each id is answered as often as it is called: exactly once
      if the model gives each call its own id. */
  lemma SettledAnswersEachCall(ms: seq<Message>, id: string)
    requires Settled(ms)
    ensures Calls(ms)[id] == Answers(ms)[id]
  {
    DebtIsCallsLessAnswers(ms);
  }

  // ---- fillOrphanToolCalls ----

  function AnsweredIds(ms: seq<Message>): set<string> {
    if ms == [] then {}
    else
      var m := ms[|ms| - 1];
      AnsweredIds(ms[..|ms| - 1]) + (if m.Tool? && m.id != "" then {m.id} else {})
  }

  /** A placeholder for an unanswered call. */
  predicate IsFill(m: Message) {
    m.Tool? && m.text == SKIPPED && m.id != ""
  }

  ghost predicate Fills(extra: seq<Message>, ids: multiset<string>, have: set<string>) {
    (forall m :: m in extra ==> IsFill(m) && m.id in ids && m.id !in have) && OnePerId(extra)
  }

  ghost predicate OnePerId(extra: seq<Message>) {
    forall i, j :: 0 <= i < j < |extra| && extra[i].Tool? && extra[j].Tool? ==> extra[i].id != extra[j].id
  }

  lemma {:induction false} ToolIsAnswered(ms: seq<Message>, i: nat)
    requires i < |ms| && ms[i].Tool? && ms[i].id != ""
    ensures ms[i].id in AnsweredIds(ms)
  {
    var n := |ms| - 1;
    if i < n {
      ToolIsAnswered(ms[..n], i);
    }
  }

  lemma FillsOnFills(a: seq<Message>, b: seq<Message>, ids: multiset<string>, more: multiset<string>, have: set<string>)
    requires Fills(a, ids, have) && Fills(b, more, have + AnsweredIds(a))
    ensures Fills(a + b, ids + more, have)
  {
    forall i | 0 <= i < |a|
      ensures a[i] in a && a[i].id in AnsweredIds(a)
    {
      assert a[i] in a;
      ToolIsAnswered(a, i);
    }
    assert forall j :: 0 <= j < |b| ==> b[j] in b && b[j].id !in AnsweredIds(a);
  }

  lemma OneFill(id: string, have: set<string>)
    requires id != "" && id !in have
    ensures Fills([Tool(id, SKIPPED)], multiset{id}, have) && AnsweredIds([Tool(id, SKIPPED)]) == {id}
  {
  }

  ghost predicate Covers(have: set<string>, ids: multiset<string>) {
    forall id :: id in ids && id != "" ==> id in have
  }

  method FillCalls(calls: seq<ToolCall>, have0: set<string>) returns (extra: seq<Message>, have: set<string>)
    ensures have == have0 + AnsweredIds(extra)
    ensures Fills(extra, Ids(calls), have0) && Covers(have, Ids(calls))
  {
    extra, have := [], have0;
    assert AnsweredIds(extra) == {};
    hide AnsweredIds;
    for j := 0 to |calls|
      invariant have == have0 + AnsweredIds(extra)
      invariant Fills(extra, Ids(calls[..j]), have0) && Covers(have, Ids(calls[..j]))
    {
      assert calls[..j + 1] == calls[..j] + [calls[j]];
      IdsSnoc(calls[..j], calls[j]);
      var id := calls[j].id;
      if id != "" && id !in have {
        OneFill(id, have);
        AnsweredConcat(extra, [Tool(id, SKIPPED)]);
        FillsOnFills(extra, [Tool(id, SKIPPED)], Ids(calls[..j]), multiset{id}, have0);
        extra := extra + [Tool(id, SKIPPED)];
        have := have + {id};
      }
    }
    assert calls[..|calls|] == calls;
  }

  /** A placeholder, one per id, for each call that has an id and no answer yet, and for a
      settled conversation none. */
  method FillOrphanToolCalls(ms: seq<Message>) returns (out: seq<Message>)
    ensures ms <= out && Fills(out[|ms|..], Calls(ms), AnsweredIds(ms)) && Covers(AnsweredIds(out), Calls(ms))
    ensures Settled(ms) ==> out == ms
  {
    var have := Have(ms);
    var extra: seq<Message> := [];
    for i := 0 to |ms|
      invariant have == AnsweredIds(ms) + AnsweredIds(extra)
      invariant Fills(extra, Calls(ms[..i]), AnsweredIds(ms)) && Covers(have, Calls(ms[..i]))
    {
      assert ms[..i + 1][..i] == ms[..i];
      if ms[i].Assistant? {
        var more;
        more, have := FillCalls(ms[i].calls, have);
        FillsOnFills(extra, more, Calls(ms[..i]), Ids(ms[i].calls), AnsweredIds(ms));
        AnsweredConcat(extra, more);
        extra := extra + more;
      }
    }
    assert ms[..|ms|] == ms;
    AnsweredConcat(ms, extra);
    if extra != [] {
      FillMeansUnsettled(ms, extra);
    }
    out := ms + extra;
  }

  lemma FillMeansUnsettled(ms: seq<Message>, extra: seq<Message>)
    requires extra != [] && Fills(extra, Calls(ms), AnsweredIds(ms))
    ensures !Settled(ms)
  {
    assert extra[0] in extra;
    if Settled(ms) {
      SettledHasNoOrphans(ms);
    }
  }

  method Have(ms: seq<Message>) returns (have: set<string>)
    ensures have == AnsweredIds(ms)
  {
    have := {};
    for i := 0 to |ms|
      invariant have == AnsweredIds(ms[..i])
    {
      assert ms[..i + 1][..i] == ms[..i];
      if ms[i].Tool? && ms[i].id != "" {
        have := have + {ms[i].id};
      }
    }
    assert ms[..|ms|] == ms;
  }

  lemma {:induction false} AnsweredConcat(a: seq<Message>, b: seq<Message>)
    ensures AnsweredIds(a + b) == AnsweredIds(a) + AnsweredIds(b)
    decreases |b|
  {
    if b == [] {
      assert a + b == a;
    } else {
      var n := |b| - 1;
      AnsweredConcat(a, b[..n]);
      assert (a + b)[..|a + b| - 1] == a + b[..n];
    }
  }

  lemma {:induction false} AnswersAreAnswered(ms: seq<Message>, id: string)
    requires id in Answers(ms) && id != ""
    ensures id in AnsweredIds(ms)
  {
    var n := |ms| - 1;
    if id in Answers(ms[..n]) {
      AnswersAreAnswered(ms[..n], id);
    }
  }

  lemma SettledHasNoOrphans(ms: seq<Message>)
    requires Settled(ms)
    ensures forall id :: id in Calls(ms) && id != "" ==> id in AnsweredIds(ms)
  {
    DebtIsCallsLessAnswers(ms);
    forall id | id in Calls(ms) && id != ""
      ensures id in AnsweredIds(ms)
    {
      AnswersAreAnswered(ms, id);
    }
  }

  // ---- trimSession ----

  /** The position of the first user message, or 0 without one. */
  function FirstUser(ms: seq<Message>): (i: nat)
    ensures ms == [] ==> i == 0
    ensures ms != [] ==> i < |ms|
  {
    FirstUserFrom(ms, 0)
  }

  function FirstUserFrom(ms: seq<Message>, i: nat): (j: nat)
    requires i <= |ms|
    ensures j == 0 || (i <= j < |ms| && ms[j].User?)
    ensures (exists k :: i <= k < |ms| && ms[k].User?) ==> i <= j < |ms| && ms[j].User?
    ensures forall k :: i <= k < j ==> !ms[k].User?
    decreases |ms| - i
  {
    if i == |ms| then 0 else if ms[i].User? then i else FirstUserFrom(ms, i + 1)
  }

  /** How many messages trimSession drops. */
  function Dropped(ms: seq<Message>): (n: nat)
    ensures n <= |ms|
  {
    if |ms| <= MAX_SESSION_MESSAGES then 0
    else |ms| - MAX_SESSION_MESSAGES + FirstUser(ms[|ms| - MAX_SESSION_MESSAGES..])
  }

  /** Of a conversation of more than twenty messages the last twenty are kept, from the first
      user message among them on, or all of them if there is none. */
  lemma TrimStartsAtFirstUser(ms: seq<Message>)
    ensures |ms| <= 20 <==> Dropped(ms) == 0
    ensures |ms| > 20 ==>
              var from, n := |ms| - 20, Dropped(ms);
              from <= n < |ms| && (forall i :: from <= i < n ==> !ms[i].User?) &&
              (n == from || ms[n].User?) && (ms[n].User? || forall i :: from <= i < |ms| ==> !ms[i].User?)
  {
    if |ms| > 20 {
      var from := |ms| - 20;
      var keep := ms[from..];
      assert forall i :: from <= i < |ms| ==> ms[i] == keep[i - from];
    }
  }

  method TrimSession(ms: seq<Message>) returns (kept: seq<Message>, dropped: seq<Message>)
    ensures kept == ms[Dropped(ms)..] && dropped == ms[..Dropped(ms)]
  {
    if |ms| <= MAX_SESSION_MESSAGES {
      return ms, [];
    }
    var keep := ms[|ms| - MAX_SESSION_MESSAGES..];
    var first, i := 0, 0;
    while i < |keep|
      invariant i <= |keep| && first == 0 && FirstUserFrom(keep, 0) == FirstUserFrom(keep, i)
    {
      if keep[i].User? {
        first := i;
        break;
      }
      i := i + 1;
    }
    assert first == FirstUser(keep);
    assert keep[first..] == ms[Dropped(ms)..];
    return keep[first..], ms[..|ms| - |keep[first..]|];
  }

  /** The kept messages of a settled conversation are settled exactly if nothing is owed
      where it is cut. */
  lemma CutIsSettled(ms: seq<Message>, n: nat)
    requires Settled(ms) && n <= |ms|
    ensures Settled(ms[n..]) <==> Settled(ms[..n])
  {
    assert ms[..n] + ms[n..] == ms;
    PartsAreSettled(ms[..n], ms[n..]);
  }

  lemma PartsAreSettled(a: seq<Message>, b: seq<Message>)
    requires Settled(a + b)
    ensures Settled(b) <==> Settled(a)
  {
    var d := DebtAfter(Nothing, a);
    DebtConcat(Nothing, a, b);
    TornStays(b);
    if d != Nothing && Settled(b) {
      OwingMore(d.ids, b);
    }
  }

  /** Messages that are settled on their own are refused where something is owed. */
  lemma {:induction false} OwingMore(ids: multiset<string>, ms: seq<Message>)
    requires ids != multiset{} && DebtAfter(Nothing, ms) != Torn
    ensures DebtAfter(Owes(ids), ms) == if ms == [] then Owes(ids) else Torn
  {
    if ms != [] {
      var n := |ms| - 1;
      DebtLast(Nothing, ms);
      DebtLast(Owes(ids), ms);
      FirstIsNoAnswer(ms);
      if n > 0 {
        OwingMore(ids, ms[..n]);
      } else {
        assert ms[..n] == [];
      }
    }
  }

  lemma {:induction false} FirstIsNoAnswer(ms: seq<Message>)
    requires ms != [] && DebtAfter(Nothing, ms) != Torn
    ensures !ms[0].Tool? && DebtAfter(Nothing, ms[..|ms| - 1]) != Torn
  {
    DebtLast(Nothing, ms);
    if |ms| > 1 {
      FirstIsNoAnswer(ms[..|ms| - 1]);
    } else {
      assert ms[..0] == [];
    }
  }

  lemma NothingOwedAtUser(ms: seq<Message>, n: nat)
    requires Settled(ms) && n < |ms| && ms[n].User?
    ensures Settled(ms[..n])
  {
    assert ms[..n] + [ms[n]] == ms[..n + 1] && ms[..n + 1] + ms[n + 1..] == ms;
    DebtConcat(Nothing, ms[..n + 1], ms[n + 1..]);
    BeforeUser(ms[..n], ms[n], ms[n + 1..]);
  }

  lemma BeforeUser(a: seq<Message>, m: Message, b: seq<Message>)
    requires m.User? && DebtAfter(DebtAfter(Nothing, a + [m]), b) == Nothing
    ensures Settled(a)
  {
    DebtSnoc(Nothing, a, m);
    TornStays(b);
  }

  /** With a user message among the last twenty, trimming keeps every exchange whole. */
  lemma TrimKeepsExchangesWhole(ms: seq<Message>)
    requires Settled(ms)
    requires exists i :: 0 <= i < |ms| && |ms| - MAX_SESSION_MESSAGES <= i && ms[i].User?
    ensures Settled(ms[Dropped(ms)..])
  {
    if |ms| > MAX_SESSION_MESSAGES {
      var keep := ms[|ms| - MAX_SESSION_MESSAGES..];
      var i :| 0 <= i < |ms| && |ms| - MAX_SESSION_MESSAGES <= i && ms[i].User?;
      assert keep[i - (|ms| - MAX_SESSION_MESSAGES)].User?;
      NothingOwedAtUser(ms, Dropped(ms));
      CutIsSettled(ms, Dropped(ms));
    } else {
      assert ms[0..] == ms;
    }
  }

  /** Without one it is a plain tail, which keeps exchanges whole exactly if nothing is owed
      twenty messages before the end. */
  lemma TrimWithoutUser(ms: seq<Message>)
    requires Settled(ms) && |ms| > MAX_SESSION_MESSAGES
    requires forall i :: |ms| - MAX_SESSION_MESSAGES <= i < |ms| ==> !ms[i].User?
    ensures Settled(ms[Dropped(ms)..]) <==> Settled(ms[..|ms| - MAX_SESSION_MESSAGES])
  {
    var keep := ms[|ms| - MAX_SESSION_MESSAGES..];
    assert forall i :: 0 <= i < |keep| ==> !keep[i].User?;
    assert FirstUser(keep) == 0;
    CutIsSettled(ms, Dropped(ms));
  }

  // ---- A batch too big for the window ----

  function AnswersTo(calls: seq<ToolCall>, texts: seq<string>): (ms: seq<Message>)
    requires |calls| == |texts|
    ensures |ms| == |calls|
  {
    seq(|calls|, i requires 0 <= i < |calls| => Tool(calls[i].id, texts[i]))
  }

  lemma RegroupIds(a: multiset<string>, b: multiset<string>, c: multiset<string>)
    ensures a + b + c == a + (b + c) == a + (c + b) == a + c + b
  {
  }

  lemma PayOne(rest: multiset<string>, id: string, text: string)
    ensures Next(Owes(rest + multiset{id}), Tool(id, text)) == Owes(rest)
  {
    assert rest + multiset{id} - multiset{id} == rest;
  }

  /** Answering calls in order pays for them and leaves what else is owed. */
  lemma {:induction false} AnsweringPays(calls: seq<ToolCall>, texts: seq<string>, rest: multiset<string>)
    requires |calls| == |texts|
    ensures DebtAfter(Owes(rest + Ids(calls)), AnswersTo(calls, texts)) == Owes(rest)
    decreases |calls|
  {
    if calls == [] {
      assert rest + Ids(calls) == rest;
    } else {
      var n := |calls| - 1;
      var id := calls[n].id;
      AnsweringPays(calls[..n], texts[..n], rest + multiset{id});
      IdsSnoc(calls[..n], calls[n]);
      assert calls == calls[..n] + [calls[n]];
      RegroupIds(rest, multiset{id}, Ids(calls[..n]));
      assert AnswersTo(calls, texts)[..n] == AnswersTo(calls[..n], texts[..n]);
      PayOne(rest, id, texts[n]);
    }
  }

  /** One exchange: a question, one batch of calls with its answers, and the reply. */
  function Exchange(question: string, calls: seq<ToolCall>, texts: seq<string>, reply: string): seq<Message>
    requires |calls| == |texts|
  {
    [User(question), Assistant("", calls)] + AnswersTo(calls, texts) + [Assistant(reply, [])]
  }

  lemma HeadOwes(question: string, calls: seq<ToolCall>)
    ensures DebtAfter(Nothing, [User(question), Assistant("", calls)]) == Owes(Ids(calls))
  {
    assert [User(question), Assistant("", calls)] == [User(question)] + [Assistant("", calls)];
    DebtSnoc(Nothing, [], User(question));
    assert [] + [User(question)] == [User(question)];
    DebtSnoc(Nothing, [User(question)], Assistant("", calls));
  }

  lemma PartlyAnswered(question: string, calls: seq<ToolCall>, texts: seq<string>, n: nat)
    requires n <= |calls| == |texts|
    ensures DebtAfter(Nothing, [User(question), Assistant("", calls)] + AnswersTo(calls, texts)[..n]) == Owes(Ids(calls[n..]))
  {
    var head := [User(question), Assistant("", calls)];
    HeadOwes(question, calls);
    DebtConcat(Nothing, head, AnswersTo(calls, texts)[..n]);
    FirstAnswersPay(calls, texts, n);
  }

  lemma SplitIds(calls: seq<ToolCall>, n: nat)
    requires n <= |calls|
    ensures Ids(calls) == Ids(calls[n..]) + Ids(calls[..n])
  {
    IdsConcat(calls[..n], calls[n..]);
    assert calls[..n] + calls[n..] == calls;
    RegroupIds(multiset{}, Ids(calls[..n]), Ids(calls[n..]));
  }

  lemma FirstAnswersPay(calls: seq<ToolCall>, texts: seq<string>, n: nat)
    requires n <= |calls| == |texts|
    ensures DebtAfter(Owes(Ids(calls)), AnswersTo(calls, texts)[..n]) == Owes(Ids(calls[n..]))
  {
    AnsweringPays(calls[..n], texts[..n], Ids(calls[n..]));
    assert AnswersTo(calls, texts)[..n] == AnswersTo(calls[..n], texts[..n]);
    SplitIds(calls, n);
  }

  lemma ExchangeIsSettled(question: string, calls: seq<ToolCall>, texts: seq<string>, reply: string)
    requires |calls| == |texts|
    ensures Settled(Exchange(question, calls, texts, reply))
  {
    PartlyAnswered(question, calls, texts, |calls|);
    assert AnswersTo(calls, texts)[..|calls|] == AnswersTo(calls, texts);
    DebtSnoc(Nothing, [User(question), Assistant("", calls)] + AnswersTo(calls, texts), Assistant(reply, []));
  }

  /** An exchange with nineteen calls or more is settled, but trimming starts it among the
      answers, and the provider would refuse it. */
  lemma BigBatchIsTorn(question: string, calls: seq<ToolCall>, texts: seq<string>, reply: string)
    requires |calls| == |texts| >= 19
    ensures var ms := Exchange(question, calls, texts, reply); Settled(ms) && !Settled(ms[Dropped(ms)..])
  {
    var ms, n := Exchange(question, calls, texts, reply), |calls| - 19;
    ExchangeIsSettled(question, calls, texts, reply);
    PartlyAnswered(question, calls, texts, n);
    assert |Ids(calls[n..])| == 19;
    assert ms[..n + 2] == [User(question), Assistant("", calls)] + AnswersTo(calls, texts)[..n];
    assert forall i :: n + 2 <= i < |ms| ==> !ms[i].User?;
    TrimWithoutUser(ms);
  }
}
