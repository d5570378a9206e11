/** The token bucket per caller over a bounded table, newest first (Limiter in
    internal/api/ratelimit.go). Time is in seconds, a returned wait in whole nanoseconds. */
module RateLimiter {

  /** One caller's bucket, as a value. */
  datatype Entry = Entry(key: string, tokens: real, updated: real)

  datatype Config = Config(burst: int, perMin: int, maxTracked: int)

  function AtLeastOne(n: int): (m: int)
    ensures m >= 1 && m >= n && (m == n || m == 1)
  {
    if n > 1 then n else 1
  }

  /** A full bucket, what a second adds to it, and how many callers are tracked. */
  datatype Limits = Limits(capacity: real, refill: real, limit: nat)

  type Rates = r: Limits | r.capacity >= 1.0 && r.refill > 0.0 && r.limit >= 1 witness Limits(1.0, 1.0, 1)

  function RatesOf(c: Config): Rates {
    Limits(AtLeastOne(c.burst) as real, AtLeastOne(c.perMin) as real / 60.0, AtLeastOne(c.maxTracked))
  }

  function Min(a: real, b: real): real { if a <= b then a else b }

  function Max(a: real, b: real): real { if a >= b then a else b }

  /** What a number of seconds adds. */
  function Earned(seconds: real, c: Rates): real { seconds * c.refill }

  function Refreshed(e: Entry, c: Rates, now: real): Entry {
    Entry(e.key, Min(c.capacity, e.tokens + Earned(Max(now - e.updated, 0.0), c)), now)
  }

  function Find(t: seq<Entry>, key: string): (i: nat)
    ensures i <= |t|
    ensures i < |t| ==> t[i].key == key
    ensures forall j :: 0 <= j < i ==> t[j].key != key
  {
    FindFrom(t, key, 0)
  }

  function FindFrom(t: seq<Entry>, key: string, i: nat): (j: nat)
    requires i <= |t|
    ensures i <= j <= |t|
    ensures j < |t| ==> t[j].key == key
    ensures forall m :: i <= m < j ==> t[m].key != key
    decreases |t| - i
  {
    if i == |t| || t[i].key == key then i else FindFrom(t, key, i + 1)
  }

  datatype Answer = Answer(table: seq<Entry>, allowed: bool, wait: int)

  const SECOND := 1_000_000_000

  /** The conversion to time.Duration cuts off what is less than a nanosecond. */
  function Nanos(seconds: real): (d: int)
    ensures d as real <= seconds * SECOND as real < d as real + 1.0
  {
    (seconds * SECOND as real).Floor
  }

  /** The seconds until a bucket short of a token has one, at least one. */
  function SecondsLeft(e: Entry, c: Rates): real { Max((1.0 - e.tokens) / c.refill, 1.0) }

  /** Spends a token of the bucket at the head, or says how long until there is one. */
  function Spent(e: Entry, rest: seq<Entry>, c: Rates): (a: Answer)
    ensures a.allowed <==> e.tokens >= 1.0
    ensures a.allowed ==> a.wait == 0
  {
    if e.tokens >= 1.0 then Answer([e.(tokens := e.tokens - 1.0)] + rest, true, 0)
    else Answer([e] + rest, false, Nanos(SecondsLeft(e, c)))
  }

  /** The others, without the oldest if there is no room for one more. */
  function Evicted(t: seq<Entry>, c: Rates): (rest: seq<Entry>)
    ensures |rest| < c.limit && rest <= t
  {
    if |t| >= c.limit then t[..c.limit - 1] else t
  }

  function AllowOn(t: seq<Entry>, c: Rates, key: string, now: real): Answer {
    var i := Find(t, key);
    if i < |t| then Spent(Refreshed(t[i], c, now), t[..i] + t[i + 1..], c)
    else Spent(Entry(key, c.capacity, now), Evicted(t, c), c)
  }

  // ---- The table ----

  ghost predicate Distinct(t: seq<Entry>) {
    forall i, j :: 0 <= i < j < |t| ==> t[i].key != t[j].key
  }

  ghost predicate NewestFirst(t: seq<Entry>) {
    forall i, j :: 0 <= i < j < |t| ==> t[i].updated >= t[j].updated
  }

  ghost predicate Filled(t: seq<Entry>, c: Rates) {
    forall i :: 0 <= i < |t| ==> 0.0 <= t[i].tokens <= c.capacity
  }

  /** All callers were last seen by now. */
  ghost predicate SeenBy(t: seq<Entry>, now: real) {
    forall i :: 0 <= i < |t| ==> t[i].updated <= now
  }

  ghost predicate Orderly(t: seq<Entry>, c: Rates, now: real) {
    |t| <= c.limit && Distinct(t) && NewestFirst(t) && Filled(t, c) && SeenBy(t, now)
  }

  lemma EarnedNotNegative(seconds: real, c: Rates)
    requires seconds >= 0.0
    ensures Earned(seconds, c) >= 0.0
  {
    var r := c.refill;
    assert seconds * r >= 0.0;
  }

  /** Everyone in rest is in t, in the same order. */
  lemma RestIsOrderly(t: seq<Entry>, i: nat, c: Rates, now: real)
    requires Orderly(t, c, now) && i < |t|
    ensures var rest := t[..i] + t[i + 1..];
            Orderly(rest, c, now) && |rest| < c.limit && forall j :: 0 <= j < |rest| ==> rest[j].key != t[i].key
  {
    var rest := t[..i] + t[i + 1..];
    assert forall j :: 0 <= j < |rest| ==> rest[j] == if j < i then t[j] else t[j + 1];
  }

  lemma SpendKeepsOrder(e: Entry, rest: seq<Entry>, c: Rates, now: real)
    requires Orderly(rest, c, now) && |rest| < c.limit && e.updated == now && 0.0 <= e.tokens <= c.capacity
    requires forall j :: 0 <= j < |rest| ==> rest[j].key != e.key
    ensures Orderly(Spent(e, rest, c).table, c, now)
  {
    var t := Spent(e, rest, c).table;
    assert forall j :: 0 < j < |t| ==> t[j] == rest[j - 1];
  }

  lemma LaterKeepsOrder(t: seq<Entry>, c: Rates, before: real, now: real)
    requires Orderly(t, c, before) && before <= now
    ensures Orderly(t, c, now)
  {
  }

  /** A call keeps the table bounded, without doubles, newest first, and every bucket between
      empty and full, and puts the caller at its head. */
  lemma AllowKeepsOrder(t: seq<Entry>, c: Rates, before: real, key: string, now: real)
    requires Orderly(t, c, before) && before <= now
    ensures var a := AllowOn(t, c, key, now); Orderly(a.table, c, now) && a.table != [] && a.table[0].key == key && a.table[0].updated == now
  {
    var i := Find(t, key);
    LaterKeepsOrder(t, c, before, now);
    if i < |t| {
      RestIsOrderly(t, i, c, now);
      EarnedNotNegative(Max(now - t[i].updated, 0.0), c);
      SpendKeepsOrder(Refreshed(t[i], c, now), t[..i] + t[i + 1..], c, now);
    } else {
      SpendKeepsOrder(Entry(key, c.capacity, now), Evicted(t, c), c, now);
    }
  }

  // ---- What a caller gets over time ----

  predicate Has(t: seq<Entry>, key: string) { Find(t, key) < |t| }

  function Lookup(t: seq<Entry>, key: string): Entry
    requires Has(t, key)
  {
    t[Find(t, key)]
  }

  /** The bucket a call spends from. */
  function Before(t: seq<Entry>, c: Rates, key: string, now: real): Entry {
    if Has(t, key) then Refreshed(Lookup(t, key), c, now) else Entry(key, c.capacity, now)
  }

  lemma OwnCall(t: seq<Entry>, c: Rates, key: string, now: real)
    ensures var a, e := AllowOn(t, c, key, now), Before(t, c, key, now);
            Has(a.table, key) && a.allowed == (e.tokens >= 1.0) && e.tokens <= c.capacity &&
            Lookup(a.table, key) == if a.allowed then e.(tokens := e.tokens - 1.0) else e
  {
    var a := AllowOn(t, c, key, now);
    FindsFirst(a.table, key);
  }

  lemma FindsFirst(t: seq<Entry>, key: string)
    requires t != [] && t[0].key == key
    ensures Find(t, key) == 0
  {
    assert FindFrom(t, key, 0) == 0;
  }

  lemma FindsOnly(t: seq<Entry>, key: string, i: nat)
    requires Distinct(t) && i < |t| && t[i].key == key
    ensures Find(t, key) == i
  {
    assert forall j :: 0 <= j < i ==> t[j].key != t[i].key;
  }

  /** A call of another caller leaves a bucket as it is, or evicts it. */
  lemma OtherCall(t: seq<Entry>, c: Rates, before: real, key: string, now: real, other: string)
    requires Orderly(t, c, before) && before <= now && other != key && Has(AllowOn(t, c, key, now).table, other)
    ensures Has(t, other) && Lookup(t, other) == Lookup(AllowOn(t, c, key, now).table, other)
  {
    var a, i := AllowOn(t, c, key, now), Find(t, key);
    var rest := if i < |t| then t[..i] + t[i + 1..] else Evicted(t, c);
    assert a.table[1..] == rest;
    var m := Find(a.table, other) - 1;
    assert a.table[m + 1] == rest[m];
    var j := if i < |t| && m >= i then m + 1 else m;
    assert rest[m] == t[j];
    FindsOnly(t, other, j);
  }

  datatype Call = Call(key: string, now: real)

  ghost predicate IsRun(ts: seq<seq<Entry>>, calls: seq<Call>, c: Rates) {
    |ts| == |calls| + 1 && ts[0] == [] && InTime(calls) && Leads(ts, calls, c)
  }

  ghost predicate InTime(calls: seq<Call>) {
    forall i, j :: 0 <= i <= j < |calls| ==> calls[i].now <= calls[j].now
  }

  ghost predicate Leads(ts: seq<seq<Entry>>, calls: seq<Call>, c: Rates)
    requires |ts| == |calls| + 1
  {
    forall i :: 0 <= i < |calls| ==> CallLeads(ts[i], calls[i], c, ts[i + 1])
  }

  ghost predicate CallLeads(t: seq<Entry>, call: Call, c: Rates, after: seq<Entry>) {
    after == AllowOn(t, c, call.key, call.now).table
  }

  /** In every run the table is in order. */
  lemma {:induction false} RunsAreOrderly(ts: seq<seq<Entry>>, calls: seq<Call>, c: Rates, n: nat)
    requires IsRun(ts, calls, c) && n <= |calls|
    ensures n > 0 ==> Orderly(ts[n], c, calls[n - 1].now)
    ensures n < |calls| ==> Orderly(ts[n], c, calls[n].now)
  {
    if n > 0 {
      RunsAreOrderly(ts, calls, c, n - 1);
      assert CallLeads(ts[n - 1], calls[n - 1], c, ts[n]);
      AllowKeepsOrder(ts[n - 1], c, calls[n - 1].now, calls[n - 1].key, calls[n - 1].now);
    }
  }

  predicate Admits(t: seq<Entry>, call: Call, c: Rates) { AllowOn(t, c, call.key, call.now).allowed }

  /** The caller's bucket is in the table after each of the calls i to n - 1. */
  ghost predicate Stays(ts: seq<seq<Entry>>, key: string, i: nat, n: nat)
    requires i <= n < |ts|
  {
    forall k :: i < k <= n ==> Has(ts[k], key)
  }

  // ---- One caller's bucket over time ----

  /** A call as it concerns one caller: when it came, whether it was the caller's own, whether
      it was admitted then, and what it left in the bucket. */
  datatype Visit = Visit(now: real, own: bool, admitted: bool, left: Entry)

  function Taken(e: Entry, admitted: bool): Entry {
    if admitted then e.(tokens := e.tokens - 1.0) else e
  }

  predicate Spends(e: Entry, v: Visit) {
    v.admitted == (e.tokens >= 1.0) && v.left == Taken(e, v.admitted)
  }

  predicate Follows(e: Entry, v: Visit, c: Rates) {
    if v.own then e.updated <= v.now && Spends(Refreshed(e, c, v.now), v) else !v.admitted && v.left == e
  }

  /** The visits from one of the caller's own on. */
  ghost predicate Chain(h: seq<Visit>, c: Rates) {
    h != [] && h[0].own && h[0].left.updated == h[0].now && 0.0 <= h[0].left.tokens &&
    h[0].left.tokens + (if h[0].admitted then 1.0 else 0.0) <= c.capacity &&
    forall i :: 0 < i < |h| ==> Follows(h[i - 1].left, h[i], c)
  }

  function Admitted(h: seq<Visit>): nat {
    if h == [] then 0 else Admitted(h[..|h| - 1]) + (if h[|h| - 1].admitted then 1 else 0)
  }

  lemma EarnedAdds(a: real, b: real, c: Rates)
    ensures Earned(a + b, c) == Earned(a, c) + Earned(b, c)
  {
    var r := c.refill;
    assert (a + b) * r == a * r + b * r;
  }

  /** What was admitted since a start, and what is left, come to no more than a full bucket
      and what the time since has earned. */
  predicate Conserved(e: Entry, admitted: nat, start: real, c: Rates) {
    admitted as real + e.tokens <= c.capacity + Earned(e.updated - start, c)
  }

  lemma RefreshConserves(e: Entry, admitted: nat, start: real, c: Rates, now: real)
    requires Conserved(e, admitted, start, c) && e.updated <= now
    ensures Conserved(Refreshed(e, c, now), admitted, start, c)
  {
    EarnedAdds(e.updated - start, now - e.updated, c);
  }

  lemma FollowingConserves(e: Entry, v: Visit, admitted: nat, start: real, c: Rates)
    requires Conserved(e, admitted, start, c) && Follows(e, v, c)
    ensures Conserved(v.left, admitted + (if v.admitted then 1 else 0), start, c)
  {
    if v.own {
      RefreshConserves(e, admitted, start, c, v.now);
    }
  }

  lemma ChainFront(h: seq<Visit>, c: Rates)
    requires Chain(h, c) && |h| > 1
    ensures Chain(h[..|h| - 1], c) && Follows(h[..|h| - 1][|h| - 2].left, h[|h| - 1], c)
  {
  }

  lemma {:induction false} ChainConserves(h: seq<Visit>, c: Rates)
    requires Chain(h, c)
    ensures Conserved(h[|h| - 1].left, Admitted(h), h[0].now, c)
  {
    var n := |h| - 1;
    if n == 0 {
      EarnedNotNegative(0.0, c);
      assert h[..0] == [];
    } else {
      ChainFront(h, c);
      ChainConserves(h[..n], c);
      FollowingConserves(h[n - 1].left, h[n], Admitted(h[..n]), h[0].now, c);
    }
  }

  /** A bucket has at least what it had at the start and what the time since has earned. */
  predicate FilledSince(e: Entry, tokens: real, start: real, c: Rates) {
    e.updated >= start && e.tokens >= Min(c.capacity, tokens + Earned(e.updated - start, c))
  }

  lemma RefreshFills(e: Entry, tokens: real, start: real, c: Rates, now: real)
    requires FilledSince(e, tokens, start, c) && e.updated <= now
    ensures FilledSince(Refreshed(e, c, now), tokens, start, c)
  {
    EarnedAdds(e.updated - start, now - e.updated, c);
    EarnedNotNegative(now - e.updated, c);
  }

  /** While nothing is admitted, the bucket only fills. */
  lemma {:induction false} ChainFills(h: seq<Visit>, c: Rates)
    requires Chain(h, c) && Admitted(h) == 0
    ensures FilledSince(h[|h| - 1].left, h[0].left.tokens, h[0].now, c)
  {
    var n := |h| - 1;
    if n == 0 {
      EarnedNotNegative(0.0, c);
    } else {
      ChainFront(h, c);
      ChainFills(h[..n], c);
      if h[n].own {
        RefreshFills(h[n - 1].left, h[0].left.tokens, h[0].now, c, h[n].now);
      }
    }
  }

  // ---- The calls of a run, for one caller ----

  function VisitOf(ts: seq<seq<Entry>>, calls: seq<Call>, c: Rates, key: string, k: nat): Visit
    requires k < |calls| < |ts| && Has(ts[k + 1], key)
  {
    Visit(calls[k].now, calls[k].key == key, calls[k].key == key && Admits(ts[k], calls[k], c), Lookup(ts[k + 1], key))
  }

  /** The calls i to n - 1. */
  ghost function Visits(ts: seq<seq<Entry>>, calls: seq<Call>, c: Rates, key: string, i: nat, n: nat): (h: seq<Visit>)
    requires |ts| == |calls| + 1 && i <= n <= |calls| && Stays(ts, key, i, n)
    ensures |h| == n - i
  {
    seq(n - i, m requires 0 <= m < n - i => VisitOf(ts, calls, c, key, i + m))
  }

  lemma FirstVisit(ts: seq<seq<Entry>>, calls: seq<Call>, c: Rates, key: string, k: nat)
    requires IsRun(ts, calls, c) && k < |calls| && calls[k].key == key && Has(ts[k + 1], key)
    ensures var v := VisitOf(ts, calls, c, key, k);
            v.left.updated == v.now && 0.0 <= v.left.tokens && v.left.tokens + (if v.admitted then 1.0 else 0.0) <= c.capacity
    ensures Spends(Before(ts[k], c, key, calls[k].now), VisitOf(ts, calls, c, key, k))
  {
    assert CallLeads(ts[k], calls[k], c, ts[k + 1]);
    OwnCall(ts[k], c, key, calls[k].now);
    RunsAreOrderly(ts, calls, c, k + 1);
  }

  lemma NextVisit(ts: seq<seq<Entry>>, calls: seq<Call>, c: Rates, key: string, k: nat)
    requires IsRun(ts, calls, c) && k < |calls| && Has(ts[k], key) && Has(ts[k + 1], key)
    ensures Follows(Lookup(ts[k], key), VisitOf(ts, calls, c, key, k), c)
  {
    assert CallLeads(ts[k], calls[k], c, ts[k + 1]);
    RunsAreOrderly(ts, calls, c, k);
    if calls[k].key == key {
      OwnCall(ts[k], c, key, calls[k].now);
    } else {
      OtherCall(ts[k], c, calls[k].now, calls[k].key, calls[k].now, key);
    }
  }

  lemma VisitsAreAChain(ts: seq<seq<Entry>>, calls: seq<Call>, c: Rates, key: string, i: nat, n: nat)
    requires IsRun(ts, calls, c) && i < n <= |calls| && calls[i].key == key && Stays(ts, key, i, n)
    ensures Chain(Visits(ts, calls, c, key, i, n), c)
  {
    var h := Visits(ts, calls, c, key, i, n);
    FirstVisit(ts, calls, c, key, i);
    forall m | 0 < m < |h|
      ensures Follows(h[m - 1].left, h[m], c)
    {
      NextVisit(ts, calls, c, key, i + m);
      assert h[m] == VisitOf(ts, calls, c, key, i + m);
      assert h[m - 1] == VisitOf(ts, calls, c, key, i + m - 1);
    }
    assert h[0] == VisitOf(ts, calls, c, key, i);
  }

  lemma EarnedGrows(a: real, b: real, c: Rates)
    requires a <= b
    ensures Earned(a, c) <= Earned(b, c)
  {
    EarnedAdds(a, b - a, c);
    EarnedNotNegative(b - a, c);
  }

  /** A caller that is not evicted gets at most the burst and the refill of the time between
      its calls, whatever the other callers do. */
  lemma RateIsBounded(ts: seq<seq<Entry>>, calls: seq<Call>, c: Rates, key: string, i: nat, n: nat)
    requires IsRun(ts, calls, c) && i < n <= |calls| && calls[i].key == key && Stays(ts, key, i, n)
    ensures Admitted(Visits(ts, calls, c, key, i, n)) as real <= c.capacity + Earned(calls[n - 1].now - calls[i].now, c)
  {
    var h := Visits(ts, calls, c, key, i, n);
    VisitsAreAChain(ts, calls, c, key, i, n);
    ChainConserves(h, c);
    LastVisit(ts, calls, c, key, i, n);
    SeenBefore(ts, calls, c, key, n);
    EarnedGrows(Lookup(ts[n], key).updated - calls[i].now, calls[n - 1].now - calls[i].now, c);
  }

  lemma LastVisit(ts: seq<seq<Entry>>, calls: seq<Call>, c: Rates, key: string, i: nat, n: nat)
    requires |ts| == |calls| + 1 && i < n <= |calls| && Stays(ts, key, i, n)
    ensures var h := Visits(ts, calls, c, key, i, n); h[|h| - 1].left == Lookup(ts[n], key) && h[0] == VisitOf(ts, calls, c, key, i)
  {
    var h := Visits(ts, calls, c, key, i, n);
    assert h[n - i - 1] == VisitOf(ts, calls, c, key, n - 1);
  }

  lemma SeenBefore(ts: seq<seq<Entry>>, calls: seq<Call>, c: Rates, key: string, n: nat)
    requires IsRun(ts, calls, c) && 0 < n <= |calls| && Has(ts[n], key)
    ensures Lookup(ts[n], key).updated <= calls[n - 1].now && Lookup(ts[n], key).tokens >= 0.0
  {
    RunsAreOrderly(ts, calls, c, n);
  }

  lemma WaitEarnsOne(tokens: real, wait: real, c: Rates)
    requires wait >= (1.0 - tokens) / c.refill
    ensures tokens + Earned(wait, c) >= 1.0
  {
    var r := c.refill;
    var x := (1.0 - tokens) / r;
    assert x * r == 1.0 - tokens;
    assert Earned(wait, c) == x * r + (wait - x) * r;
    assert (wait - x) * r >= 0.0;
  }

  /** After a refusal, the caller's first call that comes no earlier than the seconds left is
      admitted. */
  lemma SecondsAreEnough(ts: seq<seq<Entry>>, calls: seq<Call>, c: Rates, key: string, i: nat, n: nat)
    requires IsRun(ts, calls, c) && i < n < |calls| && calls[i].key == calls[n].key == key && Stays(ts, key, i, n)
    requires Admitted(Visits(ts, calls, c, key, i, n)) == 0
    requires calls[n].now >= calls[i].now + SecondsLeft(AllowOn(ts[i], c, key, calls[i].now).table[0], c)
    ensures !Admits(ts[i], calls[i], c) && Admits(ts[n], calls[n], c)
  {
    var h := Visits(ts, calls, c, key, i, n);
    VisitsAreAChain(ts, calls, c, key, i, n);
    ChainFills(h, c);
    FirstIsRefused(h);
    LastVisit(ts, calls, c, key, i, n);
    SeenBefore(ts, calls, c, key, n);
    assert calls[n - 1].now <= calls[n].now;
    FirstVisit(ts, calls, c, key, i);
    OwnCall(ts[i], c, key, calls[i].now);
    OwnCall(ts[n], c, key, calls[n].now);
    FilledEnough(Lookup(ts[n], key), h[0].left.tokens, calls[i].now, calls[n].now, c);
  }

  function InSeconds(nanos: int): real { nanos as real / SECOND as real }

  /** No fraction of a nanosecond was cut off. */
  predicate Whole(seconds: real) { InSeconds(Nanos(seconds)) == seconds }

  lemma NanosCut(seconds: real)
    ensures InSeconds(Nanos(seconds)) <= seconds < InSeconds(Nanos(seconds) + 1)
  {
  }

  /** The returned wait is enough if nothing was cut off it, and one nanosecond more always
      is: the caller's first call that comes so late is admitted. */
  lemma WaitIsEnough(ts: seq<seq<Entry>>, calls: seq<Call>, c: Rates, key: string, i: nat, n: nat)
    requires IsRun(ts, calls, c) && i < n < |calls| && calls[i].key == calls[n].key == key && Stays(ts, key, i, n)
    requires Admitted(Visits(ts, calls, c, key, i, n)) == 0
    requires var refused := AllowOn(ts[i], c, key, calls[i].now);
             calls[n].now >= calls[i].now + InSeconds(refused.wait + if Whole(SecondsLeft(refused.table[0], c)) then 0 else 1)
    ensures Admits(ts[n], calls[n], c)
  {
    var refused := AllowOn(ts[i], c, key, calls[i].now);
    VisitsAreAChain(ts, calls, c, key, i, n);
    FirstIsRefused(Visits(ts, calls, c, key, i, n));
    FirstVisit(ts, calls, c, key, i);
    NanosCut(SecondsLeft(refused.table[0], c));
    SecondsAreEnough(ts, calls, c, key, i, n);
  }

  /** From a second on, a call is admitted exactly if it waits out the seconds left. */
  lemma SecondsAreExact(e: Entry, c: Rates, rest: seq<Entry>, seconds: real)
    requires 0.0 <= e.tokens < 1.0 && seconds >= 1.0
    ensures Spent(Refreshed(e, c, e.updated + seconds), rest, c).allowed <==> seconds >= SecondsLeft(e, c)
  {
    AllowedAfter(e, c, rest, seconds);
  }

  /** And only then: a call at exactly the returned wait is admitted if and only if nothing
      was cut off, which is so whenever the wait is the one-second floor. */
  lemma WaitIsEnoughIff(e: Entry, c: Rates, rest: seq<Entry>)
    requires 0.0 <= e.tokens < 1.0
    ensures Spent(Refreshed(e, c, e.updated + InSeconds(Spent(e, rest, c).wait)), rest, c).allowed <==> Whole(SecondsLeft(e, c))
    ensures (1.0 - e.tokens) / c.refill <= 1.0 ==> Whole(SecondsLeft(e, c))
  {
    NanosCut(SecondsLeft(e, c));
    NanosCut(1.0);
    assert Nanos(1.0) == SECOND;
    AllowedAfter(e, c, rest, InSeconds(Nanos(SecondsLeft(e, c))));
  }

  lemma AllowedAfter(e: Entry, c: Rates, rest: seq<Entry>, seconds: real)
    requires 0.0 <= e.tokens < 1.0 && seconds >= 0.0
    ensures Spent(Refreshed(e, c, e.updated + seconds), rest, c).allowed <==> seconds >= (1.0 - e.tokens) / c.refill
  {
    HeaderEarns(e.tokens, (1.0 - e.tokens) / c.refill, seconds, c);
    EarnedNotNegative(seconds, c);
  }

  lemma {:induction false} FirstIsRefused(h: seq<Visit>)
    requires h != [] && Admitted(h) == 0
    ensures !h[0].admitted
  {
    if |h| > 1 {
      FirstIsRefused(h[..|h| - 1]);
    }
  }

  lemma FilledEnough(e: Entry, tokens: real, start: real, now: real, c: Rates)
    requires FilledSince(e, tokens, start, c) && e.updated <= now && now - start >= (1.0 - tokens) / c.refill
    ensures Refreshed(e, c, now).tokens >= 1.0
  {
    RefreshFills(e, tokens, start, c, now);
    WaitEarnsOne(tokens, now - start, c);
  }

  /** The Retry-After header drops the fraction of the wait, so a caller that follows it is
      admitted if and only if the wait was a whole number of seconds. */
  lemma HeaderIsEnough(e: Entry, c: Rates, rest: seq<Entry>)
    requires 0.0 <= e.tokens < 1.0
    ensures var header := Spent(e, rest, c).wait / SECOND;
            Spent(Refreshed(e, c, e.updated + header as real), rest, c).allowed <==> header as real == SecondsLeft(e, c)
  {
    var left := SecondsLeft(e, c);
    var header := Nanos(left) / SECOND;
    NanosCut(left);
    assert header * SECOND <= Nanos(left) < (header + 1) * SECOND && Nanos(left) >= SECOND;
    assert 1.0 <= header as real <= left;
    AllowedAfter(e, c, rest, header as real);
  }

  lemma HeaderEarns(tokens: real, x: real, h: real, c: Rates)
    requires x * c.refill == 1.0 - tokens
    ensures tokens + Earned(h, c) >= 1.0 <==> h >= x
  {
    var gap := h - x;
    assert Earned(h, c) == x * c.refill + gap * c.refill;
    if gap >= 0.0 {
      assert gap * c.refill >= 0.0;
    } else {
      assert (-gap) * c.refill > 0.0;
    }
  }

  // ---- What the settings mean ----

  /** The table after n calls of one caller at one moment. */
  function CallsInARow(t: seq<Entry>, c: Rates, key: string, now: real, n: nat): seq<Entry> {
    if n == 0 then t else AllowOn(CallsInARow(t, c, key, now, n - 1), c, key, now).table
  }

  lemma {:induction false} BurstLeft(t: seq<Entry>, c: Rates, key: string, now: real, n: nat, burst: nat)
    requires !Has(t, key) && c.capacity == burst as real
    ensures var e := Before(CallsInARow(t, c, key, now, n), c, key, now);
            e.tokens == (if n < burst then burst - n else 0) as real && e.updated == now
    ensures n > 0 ==> Has(CallsInARow(t, c, key, now, n), key) && Lookup(CallsInARow(t, c, key, now, n), key).updated == now
  {
    if n > 0 {
      var before := CallsInARow(t, c, key, now, n - 1);
      BurstLeft(t, c, key, now, n - 1, burst);
      OwnCall(before, c, key, now);
      assert Earned(0.0, c) == 0.0;
    }
  }

  /** A caller that was not seen lately is admitted for as many calls at once as the burst
      setting says, but at least one. From then on it is admitted again when a sixtieth of the
      rate per minute, of at least one, has come to a whole call. */
  lemma FreshCallerGets(cfg: Config, t: seq<Entry>, key: string, now: real, n: nat, later: real)
    requires !Has(t, key) && later >= 0.0
    ensures
      var c, row := RatesOf(cfg), CallsInARow(t, RatesOf(cfg), key, now, n);
      (AllowOn(row, c, key, now).allowed <==> n < 1 || n < cfg.burst) &&
      (n >= 1 && n >= cfg.burst ==>
         (AllowOn(row, c, key, now + later).allowed <==> later * (if cfg.perMin >= 1 then cfg.perMin else 1) as real >= 60.0))
  {
    hide AllowOn, CallsInARow, Find, Refreshed;
    var c, row, burst := RatesOf(cfg), CallsInARow(t, RatesOf(cfg), key, now, n), AtLeastOne(cfg.burst);
    BurstLeft(t, c, key, now, n, burst);
    OwnCall(row, c, key, now);
    OwnCall(row, c, key, now + later);
    if n >= burst {
      RefillsInTime(Lookup(row, key), c, AtLeastOne(cfg.perMin), now, later);
    }
  }

  /** As many callers are tracked as the third setting says, but at least one: in every run a
      new caller adds to the table until it is full, and then takes the place of another. */
  lemma TracksAsSet(cfg: Config, ts: seq<seq<Entry>>, calls: seq<Call>, n: nat)
    requires IsRun(ts, calls, RatesOf(cfg)) && n < |calls|
    ensures var limit := if cfg.maxTracked >= 1 then cfg.maxTracked else 1;
            |ts[n]| <= limit &&
            |ts[n + 1]| == if Has(ts[n], calls[n].key) then |ts[n]| else if |ts[n]| < limit then |ts[n]| + 1 else limit
  {
    RunsAreOrderly(ts, calls, RatesOf(cfg), n);
    assert CallLeads(ts[n], calls[n], RatesOf(cfg), ts[n + 1]);
  }

  lemma RefillsInTime(e: Entry, c: Rates, perMin: int, now: real, later: real)
    requires e.updated == now && Refreshed(e, c, now).tokens == 0.0 && c.refill == perMin as real / 60.0 && later >= 0.0
    ensures Refreshed(e, c, now + later).tokens >= 1.0 <==> later * perMin as real >= 60.0
  {
    assert Earned(0.0, c) == 0.0;
    SixtiethOf(later, perMin as real);
  }

  lemma SixtiethOf(x: real, y: real)
    ensures x * (y / 60.0) >= 1.0 <==> x * y >= 60.0
  {
    assert x * (y / 60.0) * 60.0 == x * y;
  }

  // ---- The class ----

  class Bucket {
    const key: string
    var tokens: real
    var updated: real

    constructor (key: string, tokens: real, updated: real)
      ensures this.key == key && this.tokens == tokens && this.updated == updated
    {
      this.key, this.tokens, this.updated := key, tokens, updated;
    }

    function Value(): Entry
      reads this
    {
      Entry(key, tokens, updated)
    }

    method Refresh(c: Rates, now: real)
      modifies this
      ensures Value() == Refreshed(old(Value()), c, now)
    {
      var elapsed := Max(now - updated, 0.0);
      tokens := Min(c.capacity, tokens + elapsed * c.refill);
      updated := now;
    }

    method Spend(c: Rates) returns (allowed: bool, wait: int)
      modifies this
      ensures forall rest :: Answer([Value()] + rest, allowed, wait) == Spent(old(Value()), rest, c)
    {
      if tokens >= 1.0 {
        tokens := tokens - 1.0;
        return true, 0;
      }
      return false, Nanos(Max((1.0 - tokens) / c.refill, 1.0));
    }
  }

  function Values(ll: seq<Bucket>): (t: seq<Entry>)
    reads ll
    ensures |t| == |ll|
  {
    seq(|ll|, i requires 0 <= i < |ll| reads ll => ll[i].Value())
  }

  lemma WithoutOne(ll: seq<Bucket>, i: nat)
    requires i < |ll|
    ensures Values(ll[..i] + ll[i + 1..]) == Values(ll)[..i] + Values(ll)[i + 1..]
  {
  }

  ghost predicate DistinctKeys(ll: seq<Bucket>) {
    forall i, j :: 0 <= i < j < |ll| ==> ll[i].key != ll[j].key
  }

  /** The index finds the buckets of the list, and no others. */
  ghost predicate Indexes(idx: map<string, Bucket>, ll: seq<Bucket>) {
    (forall i :: 0 <= i < |ll| ==> ll[i].key in idx && idx[ll[i].key] == ll[i]) &&
    (forall k :: k in idx ==> idx[k] in ll && idx[k].key == k)
  }

  /** What AllowOn comes to on a list whose bucket i was moved to the front. */
  lemma KnownTable(before: seq<Bucket>, ll: seq<Bucket>, i: nat, key: string, c: Rates, now: real)
    requires DistinctKeys(before) && i < |before| && before[i].key == key
    requires ll == [before[i]] + before[..i] + before[i + 1..]
    ensures AllowOn(Values(before), c, key, now) == Spent(Refreshed(before[i].Value(), c, now), Values(ll[1..]), c)
    ensures before[i] !in ll[1..]
  {
    var t := Values(before);
    FindsAt(t, i, key);
    assert ll[1..] == before[..i] + before[i + 1..];
    WithoutOne(before, i);
    AllowKnown(t, c, key, now, i, Values(ll[1..]));
  }

  twostate lemma SameValues(s: seq<Bucket>)
    requires forall b :: b in s ==> unchanged(b)
    ensures Values(s) == old(Values(s))
  {
    forall i | 0 <= i < |s|
      ensures s[i].Value() == old(s[i].Value())
    {
      assert s[i] in s;
    }
  }

  /** And on a list that has to make room for a new bucket. */
  lemma NewTable(before: seq<Bucket>, rest: seq<Bucket>, key: string, c: Rates, now: real)
    requires forall i :: 0 <= i < |before| ==> before[i].key != key
    requires rest == if |before| >= c.limit then before[..c.limit - 1] else before
    ensures AllowOn(Values(before), c, key, now) == Spent(Entry(key, c.capacity, now), Values(rest), c)
  {
    var t := Values(before);
    NotFound(t, key);
    assert Values(rest) == Evicted(t, c);
    AllowNew(t, c, key, now);
  }

  lemma AllowKnown(t: seq<Entry>, c: Rates, key: string, now: real, i: nat, rest: seq<Entry>)
    requires i < |t| && Find(t, key) == i && rest == t[..i] + t[i + 1..]
    ensures AllowOn(t, c, key, now) == Spent(Refreshed(t[i], c, now), rest, c)
  {
  }

  lemma AllowNew(t: seq<Entry>, c: Rates, key: string, now: real)
    requires Find(t, key) == |t|
    ensures AllowOn(t, c, key, now) == Spent(Entry(key, c.capacity, now), Evicted(t, c), c)
  {
  }

  lemma HeadAndRest(ll: seq<Bucket>)
    requires ll != []
    ensures Values(ll) == [ll[0].Value()] + Values(ll[1..])
  {
  }

  lemma FindsAt(t: seq<Entry>, i: nat, key: string)
    requires Distinct(t) && i < |t| && t[i].key == key
    ensures Find(t, key) == i
  {
    assert forall j :: 0 <= j < i ==> t[j].key != t[i].key;
  }

  lemma NotFound(t: seq<Entry>, key: string)
    requires forall i :: 0 <= i < |t| ==> t[i].key != key
    ensures Find(t, key) == |t|
  {
  }

  class Limiter {
    const rates: Rates
    /** Most recently seen first. */
    var ll: seq<Bucket>
    var idx: map<string, Bucket>

    constructor (cfg: Config)
      ensures Valid() && rates == RatesOf(cfg) && Table() == []
    {
      rates, ll, idx := RatesOf(cfg), [], map[];
    }

    ghost predicate Valid()
      reads this
    {
      DistinctKeys(ll) && Indexes(idx, ll)
    }

    ghost function Table(): seq<Entry>
      reads this, ll
    {
      Values(ll)
    }

    /** List and index always hold the same buckets. */
    method Allow(key: string, now: real) returns (allowed: bool, wait: int)
      requires Valid()
      modifies this, ll
      ensures Valid()
      ensures Answer(Table(), allowed, wait) == AllowOn(old(Table()), rates, key, now)
    {
      var b, known := Locate(key, now);
      allowed, wait := Take(b, known, now);
    }

    /** Brings the caller's bucket to the head, or makes one. */
    method Locate(key: string, now: real) returns (b: Bucket, known: bool)
      requires Valid()
      modifies this
      ensures Valid() && ll != [] && ll[0] == b && b !in ll[1..] && (b in old(ll) || fresh(b))
      ensures AllowOn(old(Table()), rates, key, now) ==
              Spent(if known then Refreshed(b.Value(), rates, now) else b.Value(), Values(ll[1..]), rates)
    {
      known := key in idx;
      if known {
        b := idx[key];
        Promote(b, now);
      } else {
        b := Newcomer(key, now);
      }
    }

    /** Refreshes a known bucket at the head, and spends one of its tokens. */
    method Take(b: Bucket, known: bool, now: real) returns (allowed: bool, wait: int)
      requires Valid() && ll != [] && ll[0] == b && b !in ll[1..]
      modifies b
      ensures Valid()
      ensures Answer(Table(), allowed, wait) ==
              Spent(if known then Refreshed(old(b.Value()), rates, now) else old(b.Value()), old(Values(ll[1..])), rates)
    {
      ghost var rest := Values(ll[1..]);
      if known {
        b.Refresh(rates, now);
      }
      allowed, wait := b.Spend(rates);
      assert Values(ll[1..]) == rest;
      HeadAndRest(ll);
    }

    method Newcomer(key: string, now: real) returns (b: Bucket)
      requires Valid() && key !in idx
      modifies this
      ensures Valid() && fresh(b) && ll != [] && ll[0] == b && b !in ll[1..]
      ensures AllowOn(old(Table()), rates, key, now) == Spent(b.Value(), Values(ll[1..]), rates)
    {
      ghost var before := ll;
      NewTable(before, Kept(before), key, rates, now);
      hide AllowOn, Spent, DistinctKeys, Indexes;
      EvictIfFull();
      b := new Bucket(key, rates.capacity, now);
      PushFront(b);
      assert ll[1..] == Kept(before);
      SameValues(Kept(before));
    }

    /** What room for one more leaves of a list. */
    ghost function Kept(before: seq<Bucket>): (rest: seq<Bucket>)
      ensures rest <= before
    {
      if |before| >= rates.limit then before[..rates.limit - 1] else before
    }

    method PushFront(b: Bucket)
      requires Valid() && b.key !in idx
      modifies this
      ensures Valid() && ll == [b] + old(ll) && b !in old(ll)
    {
      ll, idx := [b] + ll, idx[b.key := b];
      assert forall i :: 0 < i < |ll| ==> ll[i] == old(ll)[i - 1];
    }

    method Promote(b: Bucket, now: real)
      requires Valid() && b in ll
      modifies this`ll
      ensures Valid() && ll != [] && ll[0] == b && b !in ll[1..]
      ensures AllowOn(old(Table()), rates, b.key, now) == Spent(Refreshed(b.Value(), rates, now), Values(ll[1..]), rates)
    {
      ghost var before, t := ll, Table();
      ghost var i := MoveToFront(b);
      assert Values(before) == t;
      KnownTable(before, ll, i, b.key, rates, now);
    }

    method MoveToFront(b: Bucket) returns (ghost i: nat)
      requires Valid() && b in ll
      modifies this`ll
      ensures Valid()
      ensures i < |old(ll)| && old(ll)[i] == b && ll == [b] + old(ll)[..i] + old(ll)[i + 1..]
    {
      var k := 0;
      while ll[k] != b
        invariant k < |ll| && b !in ll[..k]
        decreases |ll| - k
      {
        k := k + 1;
      }
      i := k;
      ll := [b] + ll[..k] + ll[k + 1..];
    }

    method EvictIfFull()
      requires Valid()
      modifies this
      ensures Valid()
      ensures ll == Kept(old(ll))
      ensures idx.Keys <= old(idx.Keys)
    {
      while |ll| >= rates.limit
        invariant Valid() && idx.Keys <= old(idx.Keys)
        invariant ll <= old(ll) && (|ll| == |old(ll)| || |ll| >= rates.limit - 1)
        decreases |ll|
      {
        var last := ll[|ll| - 1];
        ll, idx := ll[..|ll| - 1], idx - {last.key};
      }
    }
  }
}
