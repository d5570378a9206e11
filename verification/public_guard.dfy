/** The limits of the public demo (publicGuard in internal/api/public.go). Time is in seconds;
    each release function is a ticket, open until it is first called. */
module PublicGuard {
  import opened Options

  const HOUR: real := 3600.0
  const DAY: real := 86400.0

  datatype Config = Config(perHour: int, maxConcurrent: int, budget: real)

  function Cap(cfg: Config): (n: int)
    ensures n >= 1 && n >= cfg.maxConcurrent
  {
    if cfg.maxConcurrent > 1 then cfg.maxConcurrent else 1
  }

  /** The UTC date. */
  function DayOf(now: real): (day: int)
    ensures day as real * 86400.0 <= now < (day + 1) as real * 86400.0
  {
    (now / DAY).Floor
  }

  /** The questions in flight. */
  datatype Slots = Slots(running: map<string, nat>, inFlight: int, tickets: map<nat, string>, issued: nat)

  datatype Books = Books(asked: map<string, seq<real>>, slots: Slots, day: Option<int>, spent: real)

  const EMPTY := Books(map[], Slots(map[], 0, map[], 0), None, 0.0)

  function Roll(b: Books, now: real): Books {
    if b.day == Some(DayOf(now)) then b else b.(day := Some(DayOf(now)), spent := 0.0)
  }

  predicate Over(cfg: Config, b: Books) { cfg.budget > 0.0 && b.spent >= cfg.budget }

  function Asked(b: Books, client: string): seq<real> {
    if client in b.asked then b.asked[client] else []
  }

  function Running(s: Slots, client: string): nat {
    if client in s.running then s.running[client] else 0
  }

  function Recent(ts: seq<real>, now: real): seq<real> {
    if ts == [] then []
    else
      var n := |ts| - 1;
      Recent(ts[..n], now) + (if now - ts[n] < HOUR then [ts[n]] else [])
  }

  datatype Verdict = Admitted(ticket: nat) | OutOfBudget | HourlyLimit | Busy | StillRunning

  function Admit(cfg: Config, b0: Books, client: string, now: real): (Books, Verdict) {
    var b := Roll(b0, now);
    if Over(cfg, b) then (b, OutOfBudget)
    else
      var recent := Recent(Asked(b, client), now);
      var pruned := b.(asked := b.asked[client := recent]);
      if cfg.perHour > 0 && |recent| >= cfg.perHour then (pruned, HourlyLimit)
      else if b.slots.inFlight >= Cap(cfg) then (pruned, Busy)
      else if Running(b.slots, client) > 0 then (pruned, StillRunning)
      else (b.(asked := b.asked[client := recent + [now]], slots := Reserve(b.slots, client)), Admitted(b.slots.issued))
  }

  function Reserve(s: Slots, client: string): Slots {
    Slots(s.running[client := Running(s, client) + 1], s.inFlight + 1, s.tickets[s.issued := client], s.issued + 1)
  }

  function Free(s: Slots, ticket: nat): Slots {
    if ticket !in s.tickets then s
    else
      var client := s.tickets[ticket];
      var running := if Running(s, client) <= 1 then s.running - {client} else s.running[client := Running(s, client) - 1];
      Slots(running, s.inFlight - 1, s.tickets - {ticket}, s.issued)
  }

  function Release(b: Books, ticket: nat): Books { b.(slots := Free(b.slots, ticket)) }

  function Record(b0: Books, cost: real, now: real): Books {
    var b := Roll(b0, now);
    b.(spent := b.spent + cost)
  }

  // ---- In flight ----

  ghost predicate TicketsRun(s: Slots) {
    forall t :: t in s.tickets ==> t < s.issued && s.tickets[t] in s.running
  }

  ghost predicate OnlyTicketsRun(s: Slots) {
    forall c :: c in s.running ==> s.running[c] == 1 && HasTicket(s.tickets, c)
  }

  ghost predicate HasTicket(tickets: map<nat, string>, c: string) {
    exists t :: t in tickets && tickets[t] == c
  }

  ghost predicate OneEach(tickets: map<nat, string>) {
    forall t, u :: t in tickets && u in tickets && tickets[t] == tickets[u] ==> t == u
  }

  /** The open tickets belong to different clients, and those are the ones running. */
  ghost predicate Sane(cfg: Config, s: Slots) {
    TicketsRun(s) && OnlyTicketsRun(s) && OneEach(s.tickets) && s.inFlight == |s.running| == |s.tickets| && s.inFlight <= Cap(cfg)
  }

  ghost function Sum(m: map<string, nat>): nat {
    if m == map[] then 0
    else
      var k :| k in m;
      m[k] + Sum(m - {k})
  }

  lemma {:induction false} SumOfOnes(m: map<string, nat>)
    requires forall k :: k in m ==> m[k] == 1
    ensures Sum(m) == |m|
    decreases |m|
  {
    if m != map[] {
      var k :| k in m && Sum(m) == m[k] + Sum(m - {k});
      assert (m - {k}).Keys == m.Keys - {k};
      SumOfOnes(m - {k});
    }
  }

  /** What is in flight is the sum of the clients' counts, never over the cap, and never more
      than one of a client. */
  lemma InFlightIsTheSum(cfg: Config, s: Slots, client: string)
    requires Sane(cfg, s)
    ensures s.inFlight == Sum(s.running) && 0 <= s.inFlight <= Cap(cfg) && Running(s, client) <= 1
    ensures Running(s, client) == 1 <==> HasTicket(s.tickets, client)
  {
    SumOfOnes(s.running);
  }

  lemma ReserveKeepsSane(cfg: Config, s: Slots, client: string)
    requires Sane(cfg, s) && s.inFlight < Cap(cfg) && Running(s, client) == 0
    ensures Sane(cfg, Reserve(s, client))
  {
    var after := Reserve(s, client);
    assert client !in s.running && s.issued !in s.tickets;
    assert after.running.Keys == s.running.Keys + {client};
    assert after.tickets.Keys == s.tickets.Keys + {s.issued};
    ReservedRuns(s, client);
    ReservedIsOneEach(s, client);
  }

  lemma ReservedRuns(s: Slots, client: string)
    requires OnlyTicketsRun(s) && client !in s.running && s.issued !in s.tickets
    ensures OnlyTicketsRun(Reserve(s, client))
  {
    var after := Reserve(s, client);
    assert after.tickets[s.issued] == client;
    forall c | c in after.running
      ensures after.running[c] == 1 && HasTicket(after.tickets, c)
    {
      if c != client {
        var t :| t in s.tickets && s.tickets[t] == c;
        assert after.tickets[t] == c;
      }
    }
  }

  lemma ReservedIsOneEach(s: Slots, client: string)
    requires OneEach(s.tickets) && TicketsRun(s) && client !in s.running
    ensures OneEach(Reserve(s, client).tickets) && TicketsRun(Reserve(s, client))
  {
  }

  lemma FreeKeepsSane(cfg: Config, s: Slots, ticket: nat)
    requires Sane(cfg, s)
    ensures Sane(cfg, Free(s, ticket))
  {
    if ticket in s.tickets {
      var client, after := s.tickets[ticket], Free(s, ticket);
      assert after.running.Keys == s.running.Keys - {client};
      assert after.tickets.Keys == s.tickets.Keys - {ticket};
      forall c | c in after.running
        ensures HasTicket(after.tickets, c)
      {
        var t :| t in s.tickets && s.tickets[t] == c;
        assert t in after.tickets && after.tickets[t] == c;
      }
    }
  }

  // ---- Runs ----

  datatype Event = Ask(client: string, now: real) | Done(ticket: nat, now: real) | Cost(usd: real, now: real) | Probe(now: real)

  function Next(cfg: Config, b: Books, e: Event): Books {
    match e
    case Ask(client, now) => Admit(cfg, b, client, now).0
    case Done(ticket, _) => Release(b, ticket)
    case Cost(usd, now) => Record(b, usd, now)
    case Probe(now) => Roll(b, now)
  }

  predicate Lets(cfg: Config, b: Books, e: Event) {
    e.Ask? && Admit(cfg, b, e.client, e.now).1.Admitted?
  }

  /** A run from a start, with a clock that never goes back and costs that are not negative. */
  ghost predicate IsRun(cfg: Config, bs: seq<Books>, es: seq<Event>) {
    |bs| == |es| + 1 && InTime(es) && Leads(cfg, bs, es)
  }

  ghost predicate Leads(cfg: Config, bs: seq<Books>, es: seq<Event>)
    requires |bs| == |es| + 1
  {
    forall i :: 0 <= i < |es| ==> Steps(cfg, bs[i], es[i], bs[i + 1])
  }

  ghost predicate Steps(cfg: Config, b: Books, e: Event, after: Books) {
    after == Next(cfg, b, e) && (e.Cost? ==> e.usd >= 0.0)
  }

  ghost predicate InTime(es: seq<Event>) {
    forall i, j :: 0 <= i <= j < |es| ==> es[i].now <= es[j].now
  }

  lemma NextKeepsSane(cfg: Config, b: Books, e: Event)
    requires Sane(cfg, b.slots)
    ensures Sane(cfg, Next(cfg, b, e).slots)
  {
    hide Sane, Reserve, Free, Recent;
    if Lets(cfg, b, e) {
      ReserveKeepsSane(cfg, b.slots, e.client);
    } else if e.Done? {
      FreeKeepsSane(cfg, b.slots, e.ticket);
    }
  }

  lemma {:induction false} RunsAreSane(cfg: Config, bs: seq<Books>, es: seq<Event>)
    requires IsRun(cfg, bs, es) && bs[0] == EMPTY
    ensures forall i :: 0 <= i < |bs| ==> Sane(cfg, bs[i].slots)
  {
    for n := 1 to |bs|
      invariant forall i :: 0 <= i < n ==> Sane(cfg, bs[i].slots)
    {
      assert Steps(cfg, bs[n - 1], es[n - 1], bs[n]);
      NextKeepsSane(cfg, bs[n - 1], es[n - 1]);
    }
  }

  // ---- Releases ----

  /** The ticket is held by this client. */
  predicate Held(s: Slots, ticket: nat, client: string) {
    ticket in s.tickets && s.tickets[ticket] == client && ticket < s.issued
  }

  /** The ticket was given out and is not open any more. */
  predicate Spent(s: Slots, ticket: nat) { ticket < s.issued && ticket !in s.tickets }

  /** From its admission until its release is called a ticket stays with its client. */
  lemma {:induction false} HeldUntilReleased(cfg: Config, bs: seq<Books>, es: seq<Event>, a: nat, n: nat)
    requires IsRun(cfg, bs, es) && a < n < |bs| && Lets(cfg, bs[a], es[a])
    requires forall i :: a < i < n ==> !(es[i].Done? && es[i].ticket == bs[a].slots.issued)
    ensures Held(bs[n].slots, bs[a].slots.issued, es[a].client)
  {
    assert Steps(cfg, bs[n - 1], es[n - 1], bs[n]);
    if a < n - 1 {
      HeldUntilReleased(cfg, bs, es, a, n - 1);
    }
  }

  lemma {:induction false} SpentStaysSpent(cfg: Config, bs: seq<Books>, es: seq<Event>, i: nat, n: nat, ticket: nat)
    requires IsRun(cfg, bs, es) && i <= n < |bs| && Spent(bs[i].slots, ticket)
    ensures Spent(bs[n].slots, ticket)
  {
    if i < n {
      SpentStaysSpent(cfg, bs, es, i, n - 1, ticket);
      assert Steps(cfg, bs[n - 1], es[n - 1], bs[n]);
    }
  }

  /** In every run, whatever admissions and releases come in between: the first call of a
      release takes back the count of its own client and nothing else, and every later call
      changes nothing. */
  lemma ReleaseOnce(cfg: Config, bs: seq<Books>, es: seq<Event>, a: nat, i: nat, j: nat)
    requires IsRun(cfg, bs, es) && bs[0] == EMPTY && a < i < j < |es| && Lets(cfg, bs[a], es[a])
    requires es[i].Done? && es[i].ticket == bs[a].slots.issued && es[j].Done? && es[j].ticket == bs[a].slots.issued
    requires forall k :: a < k < i ==> !(es[k].Done? && es[k].ticket == bs[a].slots.issued)
    ensures var s, client, ticket := bs[i].slots, es[a].client, bs[a].slots.issued;
            Running(s, client) == 1 && bs[i + 1].slots == Slots(s.running - {client}, s.inFlight - 1, s.tickets - {ticket}, s.issued)
    ensures bs[j + 1] == bs[j]
  {
    HeldUntilReleased(cfg, bs, es, a, i);
    RunsAreSane(cfg, bs, es);
    assert Sane(cfg, bs[i].slots) && Steps(cfg, bs[i], es[i], bs[i + 1]) && Steps(cfg, bs[j], es[j], bs[j + 1]);
    SpentStaysSpent(cfg, bs, es, i + 1, j, es[i].ticket);
  }

  // ---- The sliding hour ----

  /** When the client was admitted, in the first n events. */
  function Admissions(cfg: Config, bs: seq<Books>, es: seq<Event>, client: string, n: nat): seq<real>
    requires n <= |es| <= |bs|
  {
    if n == 0 then []
    else
      Admissions(cfg, bs, es, client, n - 1) +
      (if Lets(cfg, bs[n - 1], es[n - 1]) && es[n - 1].client == client then [es[n - 1].now] else [])
  }

  ghost predicate Ascending(ts: seq<real>) {
    forall i, j :: 0 <= i <= j < |ts| ==> ts[i] <= ts[j]
  }

  ghost predicate By(ts: seq<real>, now: real) {
    forall i :: 0 <= i < |ts| ==> ts[i] <= now
  }

  /** kept is the end of all the times, and what is missing is an hour old. */
  ghost predicate KeepsHour(kept: seq<real>, all: seq<real>, now: real) {
    |kept| <= |all| && kept == all[|all| - |kept|..] && forall i :: 0 <= i < |all| - |kept| ==> now - all[i] >= HOUR
  }

  /** Between any admission and the limit-th one after it lies an hour or more. */
  ghost predicate Spaced(ts: seq<real>, limit: nat) {
    forall i :: 0 <= i && i + limit < |ts| ==> ts[i + limit] - ts[i] >= HOUR
  }

  lemma {:induction false} RecentKeepsHour(ts: seq<real>, now: real)
    requires Ascending(ts)
    ensures KeepsHour(Recent(ts, now), ts, now)
  {
    if ts != [] {
      var n := |ts| - 1;
      RecentKeepsHour(ts[..n], now);
      var kept := Recent(ts[..n], now);
      if now - ts[n] < HOUR {
        assert ts[n - |kept|..] == ts[..n][n - |kept|..] + [ts[n]];
      } else {
        assert kept == [] by {
          if kept != [] {
            assert kept[0] == ts[..n][n - |kept|] && ts[n - |kept|] <= ts[n];
            RecentIsRecent(ts[..n], now);
          }
        }
      }
    }
  }

  lemma {:induction false} RecentIsRecent(ts: seq<real>, now: real)
    ensures forall i :: 0 <= i < |Recent(ts, now)| ==> now - Recent(ts, now)[i] < HOUR
  {
    if ts != [] {
      RecentIsRecent(ts[..|ts| - 1], now);
    }
  }

  lemma KeepingIsTransitive(a: seq<real>, b: seq<real>, all: seq<real>, before: real, now: real)
    requires KeepsHour(b, all, before) && before <= now && KeepsHour(a, b, now)
    ensures KeepsHour(a, all, now)
  {
    var n := |all| - |b|;
    assert all[|all| - |a|..] == all[n..][|b| - |a|..];
    forall i | 0 <= i < |all| - |a|
      ensures now - all[i] >= HOUR
    {
      if i >= n {
        assert b[i - n] == all[i];
      }
    }
  }

  /** What the books know of a client's admissions: all of the last hour. */
  ghost predicate KnowsHour(b: Books, all: seq<real>, client: string, now: real, limit: nat) {
    Ascending(all) && By(all, now) && KeepsHour(Asked(b, client), all, now) && Spaced(all, limit)
  }

  lemma AdmissionIsSpaced(recent: seq<real>, all: seq<real>, now: real, limit: nat)
    requires Ascending(all) && By(all, now) && KeepsHour(recent, all, now) && Spaced(all, limit)
    requires |recent| < limit
    ensures Spaced(all + [now], limit) && Ascending(all + [now]) && By(all + [now], now) && KeepsHour(recent + [now], all + [now], now)
  {
    assert (all + [now])[|all| - |recent|..] == all[|all| - |recent|..] + [now];
  }

  /** What an ask leaves of the client's times. */
  lemma AskedAfter(cfg: Config, b: Books, client: string, now: real, other: string)
    ensures var (after, v) := Admit(cfg, b, client, now); var recent := Recent(Asked(b, client), now);
            Asked(after, client) == (if v.Admitted? then recent + [now] else if v.OutOfBudget? then Asked(b, client) else recent) &&
            (v.Admitted? && cfg.perHour > 0 ==> |recent| < cfg.perHour) && (other != client ==> Asked(after, other) == Asked(b, other))
  {
  }

  lemma LaterKnowsHour(kept: seq<real>, all: seq<real>, before: real, now: real)
    requires KeepsHour(kept, all, before) && By(all, before) && before <= now
    ensures KeepsHour(kept, all, now) && By(all, now)
  {
  }

  lemma AskKnowsHour(cfg: Config, b: Books, client: string, now: real, all: seq<real>, before: real)
    requires cfg.perHour > 0 && KnowsHour(b, all, client, before, cfg.perHour) && before <= now
    ensures var (after, v) := Admit(cfg, b, client, now);
            KnowsHour(after, all + (if v.Admitted? then [now] else []), client, now, cfg.perHour)
  {
    var asked := Asked(b, client);
    var recent := Recent(asked, now);
    SuffixAscends(all, asked);
    RecentKeepsHour(asked, now);
    KeepingIsTransitive(recent, asked, all, before, now);
    LaterKnowsHour(asked, all, before, now);
    AskedAfter(cfg, b, client, now, client);
    if Admit(cfg, b, client, now).1.Admitted? {
      AdmissionIsSpaced(recent, all, now, cfg.perHour);
    } else {
      assert all + [] == all;
    }
  }

  lemma SuffixAscends(all: seq<real>, asked: seq<real>)
    requires Ascending(all) && |asked| <= |all| && asked == all[|all| - |asked|..]
    ensures Ascending(asked)
  {
  }

  /** Whatever happens, the books know the client's last hour. */
  lemma NextKnowsHour(cfg: Config, b: Books, e: Event, client: string, all: seq<real>, before: real)
    requires cfg.perHour > 0 && KnowsHour(b, all, client, before, cfg.perHour) && before <= e.now
    ensures KnowsHour(Next(cfg, b, e), all + (if Lets(cfg, b, e) && e.client == client then [e.now] else []), client, e.now, cfg.perHour)
  {
    if e.Ask? && e.client == client {
      AskKnowsHour(cfg, b, client, e.now, all, before);
    } else {
      if e.Ask? {
        AskedAfter(cfg, b, e.client, e.now, client);
      }
      assert all + [] == all;
      LaterKnowsHour(Asked(b, client), all, before, e.now);
    }
  }

  /** The time of the last of n events, or of the first one to come. */
  function LastTime(es: seq<Event>, n: nat): real
    requires n <= |es| && es != []
  {
    if n == 0 then es[0].now else es[n - 1].now
  }

  lemma {:induction false} RunKnowsHour(cfg: Config, bs: seq<Books>, es: seq<Event>, client: string, n: nat)
    requires IsRun(cfg, bs, es) && bs[0] == EMPTY && cfg.perHour > 0 && n <= |es| && es != []
    ensures KnowsHour(bs[n], Admissions(cfg, bs, es, client, n), client, LastTime(es, n), cfg.perHour)
  {
    if n > 0 {
      RunKnowsHour(cfg, bs, es, client, n - 1);
      assert Steps(cfg, bs[n - 1], es[n - 1], bs[n]) && LastTime(es, n - 1) <= es[n - 1].now;
      NextKnowsHour(cfg, bs[n - 1], es[n - 1], client, Admissions(cfg, bs, es, client, n - 1), LastTime(es, n - 1));
      AdmissionsGrow(cfg, bs, es, client, n);
    }
  }

  lemma AdmissionsGrow(cfg: Config, bs: seq<Books>, es: seq<Event>, client: string, n: nat)
    requires 0 < n <= |es| <= |bs|
    ensures Admissions(cfg, bs, es, client, n) ==
            Admissions(cfg, bs, es, client, n - 1) +
            (if Lets(cfg, bs[n - 1], es[n - 1]) && es[n - 1].client == client then [es[n - 1].now] else [])
  {
  }

  /** In every run, no more admissions of a client than the limit lie within any hour: any
      that are as many apart are an hour apart. */
  lemma HourlyLimitHolds(cfg: Config, bs: seq<Books>, es: seq<Event>, client: string, i: nat, j: nat)
    requires IsRun(cfg, bs, es) && bs[0] == EMPTY && cfg.perHour > 0
    requires i + cfg.perHour <= j < |Admissions(cfg, bs, es, client, |es|)|
    ensures var all := Admissions(cfg, bs, es, client, |es|); all[j] - all[i] >= HOUR
  {
    RunKnowsHour(cfg, bs, es, client, |es|);
    SpacedApart(Admissions(cfg, bs, es, client, |es|), cfg.perHour, i, j);
  }

  lemma SpacedApart(all: seq<real>, limit: nat, i: nat, j: nat)
    requires Ascending(all) && Spaced(all, limit) && i + limit <= j < |all|
    ensures all[j] - all[i] >= HOUR
  {
    assert all[i + limit] - all[i] >= HOUR && all[i + limit] <= all[j];
  }

  // ---- The daily budget ----

  /** An event of the same day leaves the books over budget, and admits nobody. */
  lemma OverStaysOver(cfg: Config, b: Books, e: Event)
    requires Over(cfg, b) && b.day == Some(DayOf(e.now)) && (e.Cost? ==> e.usd >= 0.0)
    ensures Over(cfg, Next(cfg, b, e)) && Next(cfg, b, e).day == b.day && !Lets(cfg, b, e)
  {
  }

  /** Once the budget is reached, nobody is admitted until the UTC day changes. */
  lemma {:induction false} BudgetClosesTheDay(cfg: Config, bs: seq<Books>, es: seq<Event>, i: nat, n: nat)
    requires IsRun(cfg, bs, es) && i <= n < |es| && Over(cfg, bs[i])
    requires forall k :: i <= k <= n ==> bs[i].day == Some(DayOf(es[k].now))
    ensures Over(cfg, bs[n]) && bs[n].day == bs[i].day && !Lets(cfg, bs[n], es[n])
  {
    assert Steps(cfg, bs[n], es[n], bs[n + 1]);
    if i < n {
      BudgetClosesTheDay(cfg, bs, es, i, n - 1);
      assert Steps(cfg, bs[n - 1], es[n - 1], bs[n]);
      OverStaysOver(cfg, bs[n - 1], es[n - 1]);
    }
    OverStaysOver(cfg, bs[n], es[n]);
  }

  /** And it is the budget that refuses exactly if it is reached on that very day. */
  lemma NewDayReopens(cfg: Config, b: Books, client: string, now: real)
    ensures Admit(cfg, b, client, now).1 == OutOfBudget <==> Over(cfg, b) && b.day == Some(DayOf(now))
  {
  }

  /** What the first n events cost on one UTC day. */
  function Costs(es: seq<Event>, n: nat, day: int): real
    requires n <= |es|
  {
    if n == 0 then 0.0
    else Costs(es, n - 1, day) + (if es[n - 1].Cost? && DayOf(es[n - 1].now) == day then es[n - 1].usd else 0.0)
  }

  lemma DaysGoOn(a: real, b: real)
    requires a <= b
    ensures DayOf(a) <= DayOf(b)
  {
    assert a / DAY <= b / DAY;
  }

  lemma {:induction false} NoCostsYet(es: seq<Event>, n: nat, day: int)
    requires n <= |es| && forall i :: 0 <= i < n && es[i].Cost? ==> DayOf(es[i].now) < day
    ensures Costs(es, n, day) == 0.0
  {
    if n > 0 {
      NoCostsYet(es, n - 1, day);
    }
  }

  /** The books are those of the day of the last event that looked at it, and what is spent is
      the sum of that day's costs. */
  ghost predicate AccountsFor(b: Books, es: seq<Event>, n: nat)
    requires n <= |es|
  {
    match b.day
    case None => b.spent == 0.0 && forall i :: 0 <= i < n ==> es[i].Done?
    case Some(day) => b.spent == Costs(es, n, day) && forall i :: 0 <= i < n && !es[i].Done? ==> DayOf(es[i].now) <= day
  }

  lemma RollAccounts(b: Books, es: seq<Event>, n: nat, now: real)
    requires n <= |es| && AccountsFor(b, es, n) && forall i :: 0 <= i < n ==> es[i].now <= now
    requires b.day.Some? ==> b.day.value <= DayOf(now)
    ensures Roll(b, now).day == Some(DayOf(now)) && Roll(b, now).spent == Costs(es, n, DayOf(now))
  {
    if b.day != Some(DayOf(now)) {
      NoCostsYet(es, n, DayOf(now));
    }
  }

  /** The day of the books is the day of some event so far. */
  predicate DayIsOfAnEvent(b: Books, es: seq<Event>, n: nat)
    requires n <= |es|
  {
    b.day.Some? ==> exists i :: 0 <= i < n && b.day.value == DayOf(es[i].now)
  }

  lemma {:induction false} SpentIsTheDaysCosts(cfg: Config, bs: seq<Books>, es: seq<Event>, n: nat)
    requires IsRun(cfg, bs, es) && bs[0] == EMPTY && n <= |es|
    ensures AccountsFor(bs[n], es, n) && DayIsOfAnEvent(bs[n], es, n)
    ensures n < |es| ==> Roll(bs[n], es[n].now).spent == Costs(es, n, DayOf(es[n].now))
  {
    if n > 0 {
      SpentIsTheDaysCosts(cfg, bs, es, n - 1);
      assert Steps(cfg, bs[n - 1], es[n - 1], bs[n]);
      EventAccounts(cfg, bs[n - 1], es, n - 1);
    }
    if n < |es| {
      DayNotAfter(bs[n], es, n, es[n].now);
      RollAccounts(bs[n], es, n, es[n].now);
    }
  }

  lemma DayNotAfter(b: Books, es: seq<Event>, n: nat, now: real)
    requires n <= |es| && DayIsOfAnEvent(b, es, n) && forall i :: 0 <= i < n ==> es[i].now <= now
    ensures b.day.Some? ==> b.day.value <= DayOf(now)
  {
    if b.day.Some? {
      var i :| 0 <= i < n && b.day.value == DayOf(es[i].now);
      DaysGoOn(es[i].now, now);
    }
  }

  lemma EventAccounts(cfg: Config, b: Books, es: seq<Event>, n: nat)
    requires n < |es| && InTime(es) && AccountsFor(b, es, n) && DayIsOfAnEvent(b, es, n)
    ensures AccountsFor(Next(cfg, b, es[n]), es, n + 1) && DayIsOfAnEvent(Next(cfg, b, es[n]), es, n + 1)
  {
    var e, after := es[n], Next(cfg, b, es[n]);
    DayNotAfter(b, es, n, e.now);
    RollAccounts(b, es, n, e.now);
    if e.Done? {
      assert after.day == b.day && after.spent == b.spent;
    } else {
      assert after.day == Some(DayOf(e.now)) && after.spent == Costs(es, n + 1, DayOf(e.now));
      forall i | 0 <= i < n
        ensures DayOf(es[i].now) <= DayOf(e.now)
      {
        DaysGoOn(es[i].now, e.now);
      }
    }
  }

  // ---- Who is admitted ----

  /** How many of the times are less than an hour old. */
  function InLastHour(ts: seq<real>, now: real): nat {
    if ts == [] then 0 else InLastHour(ts[1..], now) + (if now - ts[0] < HOUR then 1 else 0)
  }

  lemma {:induction false} OldOnesDoNotCount(ts: seq<real>, k: nat, now: real)
    requires k <= |ts| && forall i :: 0 <= i < k ==> now - ts[i] >= HOUR
    ensures InLastHour(ts[k..], now) == InLastHour(ts, now)
  {
    if k > 0 {
      OldOnesDoNotCount(ts[1..], k - 1, now);
      assert ts[1..][k - 1..] == ts[k..];
    } else {
      assert ts[0..] == ts;
    }
  }

  lemma {:induction false} AllCount(ts: seq<real>, now: real)
    requires forall i :: 0 <= i < |ts| ==> now - ts[i] < HOUR
    ensures InLastHour(ts, now) == |ts|
  {
    if ts != [] {
      AllCount(ts[1..], now);
    }
  }

  lemma RecentIsLastHour(asked: seq<real>, all: seq<real>, before: real, now: real)
    requires Ascending(all) && KeepsHour(asked, all, before) && before <= now
    ensures |Recent(asked, now)| == InLastHour(all, now)
  {
    var recent := Recent(asked, now);
    SuffixAscends(all, asked);
    RecentKeepsHour(asked, now);
    RecentIsRecent(asked, now);
    hide *;
    KeepingIsTransitive(recent, asked, all, before, now);
    TailIsLastHour(recent, all, now);
  }

  lemma TailIsLastHour(kept: seq<real>, all: seq<real>, now: real)
    requires KeepsHour(kept, all, now) && forall i :: 0 <= i < |kept| ==> now - kept[i] < HOUR
    ensures |kept| == InLastHour(all, now)
  {
    OldOnesDoNotCount(all, |all| - |kept|, now);
    AllCount(kept, now);
  }

  /** The verdict on a question, from what happened before alone: what the day has cost, the
      client's admissions of the last hour, the tickets that are open and whether one of them
      is the client's. Whoever is under all limits is admitted. */
  lemma VerdictFollowsHistory(cfg: Config, bs: seq<Books>, es: seq<Event>, n: nat)
    requires IsRun(cfg, bs, es) && bs[0] == EMPTY && n < |es| && es[n].Ask?
    ensures
      var client, now, open := es[n].client, es[n].now, bs[n].slots.tickets;
      Admit(cfg, bs[n], client, now).1 ==
      if cfg.budget > 0.0 && Costs(es, n, DayOf(now)) >= cfg.budget then OutOfBudget
      else if cfg.perHour > 0 && InLastHour(Admissions(cfg, bs, es, client, n), now) >= cfg.perHour then HourlyLimit
      else if |open| >= 1 && |open| >= cfg.maxConcurrent then Busy
      else if HasTicket(open, client) then StillRunning
      else Admitted(bs[n].slots.issued)
  {
    var client, now := es[n].client, es[n].now;
    SpentIsTheDaysCosts(cfg, bs, es, n);
    RunsAreSane(cfg, bs, es);
    InFlightIsTheSum(cfg, bs[n].slots, client);
    if cfg.perHour > 0 {
      RunKnowsHour(cfg, bs, es, client, n);
      RecentIsLastHour(Asked(bs[n], client), Admissions(cfg, bs, es, client, n), LastTime(es, n), now);
    }
  }

  // ---- The guard ----

  class Guard {
    const cfg: Config
    var asked: map<string, seq<real>>
    var running: map<string, nat>
    var inFlight: int
    var day: Option<int>
    var spent: real
    var tickets: map<nat, string>
    var issued: nat

    constructor (cfg: Config)
      ensures State() == EMPTY && this.cfg == cfg
    {
      this.cfg := cfg;
      asked, running, inFlight, day, spent, tickets, issued := map[], map[], 0, None, 0.0, map[], 0;
    }

    ghost function State(): Books
      reads this
    {
      Books(asked, InFlight(), day, spent)
    }

    ghost function InFlight(): Slots
      reads this
    {
      Slots(running, inFlight, tickets, issued)
    }

    method Rollover(now: real)
      modifies this`day, this`spent
      ensures State() == Roll(old(State()), now) && InFlight() == old(InFlight())
    {
      if day != Some(DayOf(now)) {
        day, spent := Some(DayOf(now)), 0.0;
      }
    }

    method AdmitOne(client: string, now: real) returns (v: Verdict)
      modifies this
      ensures (State(), v) == Admit(cfg, old(State()), client, now)
    {
      Rollover(now);
      if cfg.budget > 0.0 && spent >= cfg.budget {
        return OutOfBudget;
      }
      var recent := Prune(if client in asked then asked[client] else [], now);
      asked := asked[client := recent];
      if cfg.perHour > 0 && |recent| >= cfg.perHour {
        return HourlyLimit;
      }
      if inFlight >= Cap(cfg) {
        return Busy;
      }
      if client in running && running[client] > 0 {
        return StillRunning;
      }
      assert asked[client := recent + [now]] == old(asked)[client := recent + [now]];
      asked := asked[client := recent + [now]];
      v := Admitted(issued);
      ReserveOne(client);
    }

    method ReserveOne(client: string)
      modifies this`inFlight, this`running, this`tickets, this`issued
      ensures InFlight() == Reserve(old(InFlight()), client)
    {
      inFlight := inFlight + 1;
      running := running[client := (if client in running then running[client] else 0) + 1];
      tickets := tickets[issued := client];
      issued := issued + 1;
    }

    method ReleaseOne(ticket: nat)
      modifies this
      ensures State() == Release(old(State()), ticket)
    {
      if ticket in tickets {
        var client := tickets[ticket];
        inFlight := inFlight - 1;
        var count: nat := if client in running then running[client] else 0;
        if count <= 1 {
          running := running - {client};
        } else {
          running := running[client := count - 1];
        }
        tickets := tickets - {ticket};
      }
    }

    method RecordCost(usd: real, now: real)
      modifies this`day, this`spent
      ensures State() == Record(old(State()), usd, now)
    {
      Rollover(now);
      spent := spent + usd;
    }

    method Available(now: real) returns (open: bool)
      modifies this`day, this`spent
      ensures State() == Roll(old(State()), now)
      ensures !open <==> Over(cfg, State())
    {
      Rollover(now);
      open := !(cfg.budget > 0.0 && spent >= cfg.budget);
    }
  }

  method Prune(ts: seq<real>, now: real) returns (recent: seq<real>)
    ensures recent == Recent(ts, now)
  {
    recent := [];
    for i := 0 to |ts|
      invariant recent == Recent(ts[..i], now)
    {
      assert ts[..i + 1][..i] == ts[..i];
      if now - ts[i] < HOUR {
        recent := recent + [ts[i]];
      }
    }
    assert ts[..|ts|] == ts;
  }
}
