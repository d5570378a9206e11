/** The automatic demotion triggers (window, CusumTrip, HysteresisBreach and
    EvaluateDemotion in internal/autonomy/stats.go). */
module Demotion {
  import opened StableSort
  import opened WilsonBound

  const WINDOW_MAX_EVENTS := 200
  const WINDOW_MAX_DAYS: real := 90.0
  const HYSTERESIS_LAST_N := 50
  const HYSTERESIS_BAND: real := 0.05
  const CUSUM_FAILS := 2
  const CUSUM_WINDOW_DAYS: real := 1.0
  const SEV_DROP := 2
  const FREEZE_DAYS := 14

  datatype Event = Event(ts: real, success: bool, critical: bool)

  // ---- Failures inside a window ----

  function CountIf(events: seq<Event>, p: Event -> bool): nat {
    if events == [] then 0 else CountIf(events[..|events| - 1], p) + (if p(events[|events| - 1]) then 1 else 0)
  }

  function FailedIn(lo: real, hi: real): Event -> bool {
    (e: Event) => !e.success && lo <= e.ts <= hi
  }

  /** How many of these events failed between two days. */
  function FailuresIn(events: seq<Event>, lo: real, hi: real): nat { CountIf(events, FailedIn(lo, hi)) }

  lemma CountSnoc(events: seq<Event>, e: Event, p: Event -> bool)
    ensures CountIf(events + [e], p) == CountIf(events, p) + (if p(e) then 1 else 0)
  {
    assert (events + [e])[..|events|] == events;
  }

  lemma {:induction false} CountConcat(a: seq<Event>, b: seq<Event>, p: Event -> bool)
    ensures CountIf(a + b, p) == CountIf(a, p) + CountIf(b, p)
    decreases |b|
  {
    if b == [] {
      assert a + b == a;
    } else {
      var n := |b| - 1;
      CountConcat(a, b[..n], p);
      CountSnoc(a + b[..n], b[n], p);
      assert a + b == (a + b[..n]) + [b[n]];
    }
  }

  lemma {:induction false} CountNone(events: seq<Event>, p: Event -> bool)
    requires forall e :: e in events ==> !p(e)
    ensures CountIf(events, p) == 0
  {
    if events != [] {
      CountNone(events[..|events| - 1], p);
    }
  }

  /** A count is the sum of two others of which exactly one counts each event it counts. */
  lemma {:induction false} CountSplits(events: seq<Event>, p: Event -> bool, q: Event -> bool, r: Event -> bool)
    requires forall e :: e in events ==> (p(e) <==> q(e) || r(e)) && !(q(e) && r(e))
    ensures CountIf(events, p) == CountIf(events, q) + CountIf(events, r)
  {
    if events != [] {
      CountSplits(events[..|events| - 1], p, q, r);
      assert events[|events| - 1] in events;
    }
  }

  lemma {:induction false} CountInsert(s: seq<Event>, e: Event, p: Event -> bool)
    ensures CountIf(Insert(s, e, ByTime), p) == CountIf(s, p) + (if p(e) then 1 else 0)
  {
    if s == [] || s[|s| - 1].ts <= e.ts {
      CountSnoc(s, e, p);
    } else {
      CountInsert(s[..|s| - 1], e, p);
      CountSnoc(Insert(s[..|s| - 1], e, ByTime), s[|s| - 1], p);
    }
  }

  lemma {:induction false} CountSort(s: seq<Event>, p: Event -> bool)
    ensures CountIf(SortBy(s, ByTime), p) == CountIf(s, p)
  {
    if s != [] {
      CountSort(s[..|s| - 1], p);
      CountInsert(SortBy(s[..|s| - 1], ByTime), s[|s| - 1], p);
    }
  }

  function FailTimes(events: seq<Event>): seq<real> {
    if events == [] then []
    else
      var e := events[|events| - 1];
      FailTimes(events[..|events| - 1]) + (if e.success then [] else [e.ts])
  }

  function CountIn(ts: seq<real>, lo: real, hi: real): nat {
    if ts == [] then 0 else CountIn(ts[..|ts| - 1], lo, hi) + (if lo <= ts[|ts| - 1] <= hi then 1 else 0)
  }

  lemma CountInSnoc(ts: seq<real>, t: real, lo: real, hi: real)
    ensures CountIn(ts + [t], lo, hi) == CountIn(ts, lo, hi) + (if lo <= t <= hi then 1 else 0)
  {
    assert (ts + [t])[..|ts|] == ts;
  }

  lemma {:induction false} FailTimesCount(events: seq<Event>, lo: real, hi: real)
    ensures CountIn(FailTimes(events), lo, hi) == FailuresIn(events, lo, hi)
  {
    if events != [] {
      var front, e := events[..|events| - 1], events[|events| - 1];
      FailTimesCount(front, lo, hi);
      if e.success {
        assert FailTimes(events) == FailTimes(front);
      } else {
        CountInSnoc(FailTimes(front), e.ts, lo, hi);
      }
    }
  }

  const Self: real -> real := x => x

  lemma {:induction false} InsertCount(ts: seq<real>, t: real, lo: real, hi: real)
    ensures CountIn(Insert(ts, t, Self), lo, hi) == CountIn(ts, lo, hi) + (if lo <= t <= hi then 1 else 0)
  {
    if ts == [] || ts[|ts| - 1] <= t {
      CountInSnoc(ts, t, lo, hi);
    } else {
      InsertCount(ts[..|ts| - 1], t, lo, hi);
      CountInSnoc(Insert(ts[..|ts| - 1], t, Self), ts[|ts| - 1], lo, hi);
    }
  }

  lemma {:induction false} SortCount(ts: seq<real>, lo: real, hi: real)
    ensures CountIn(SortBy(ts, Self), lo, hi) == CountIn(ts, lo, hi)
  {
    if ts != [] {
      SortCount(ts[..|ts| - 1], lo, hi);
      InsertCount(SortBy(ts[..|ts| - 1], Self), ts[|ts| - 1], lo, hi);
    }
  }

  /** Times i to i + c - 1 lie in the window, so it holds at least c times. */
  lemma {:induction false} RunFillsWindow(ts: seq<real>, i: nat, c: nat, lo: real, hi: real)
    requires i + c <= |ts| && forall j :: i <= j < i + c ==> lo <= ts[j] <= hi
    ensures CountIn(ts, lo, hi) >= c
    decreases |ts|
  {
    if c > 0 {
      var front := ts[..|ts| - 1];
      if i + c == |ts| {
        RunFillsWindow(front, i, c - 1, lo, hi);
      } else {
        RunFillsWindow(front, i, c, lo, hi);
      }
    }
  }

  /** In ascending times, those inside a window stand next to each other. */
  lemma {:induction false} WindowIsARun(ts: seq<real>, lo: real, hi: real) returns (i: nat)
    requires Ascending(ts, Self)
    ensures i + CountIn(ts, lo, hi) <= |ts|
    ensures forall j :: i <= j < i + CountIn(ts, lo, hi) ==> lo <= ts[j] <= hi
    ensures CountIn(ts, lo, hi) > 0 ==> forall j :: i + CountIn(ts, lo, hi) <= j < |ts| ==> ts[j] > hi
    ensures CountIn(ts, lo, hi) == 0 ==> i == |ts|
    decreases |ts|
  {
    if ts == [] {
      i := 0;
    } else {
      var n := |ts| - 1;
      var front := ts[..n];
      AscendingFront(ts, Self);
      i := WindowIsARun(front, lo, hi);
      if lo <= ts[n] <= hi {
        assert forall j :: 0 <= j < n ==> Self(ts[j]) <= Self(ts[n]);
      } else if CountIn(ts, lo, hi) == 0 {
        i := |ts|;
      } else {
        assert Self(ts[i]) <= Self(ts[n]);
      }
    }
  }

  /** The window of windowDays from lo holds at least fails failures. */
  predicate Dense(events: seq<Event>, lo: real, fails: nat, windowDays: real) {
    FailuresIn(events, lo, lo + windowDays) >= fails
  }

  /** Some window of windowDays holds at least fails failures. */
  ghost predicate Trips(events: seq<Event>, fails: nat, windowDays: real) {
    exists lo :: Dense(events, lo, fails, windowDays)
  }

  predicate CloseAt(ts: seq<real>, i: nat, fails: nat, windowDays: real)
    requires fails >= 1
  {
    i + fails <= |ts| && ts[i + fails - 1] - ts[i] <= windowDays
  }

  lemma CloseFillsWindow(ts: seq<real>, i: nat, fails: nat, windowDays: real)
    requires fails >= 1 && Ascending(ts, Self) && CloseAt(ts, i, fails, windowDays)
    ensures CountIn(ts, ts[i], ts[i] + windowDays) >= fails
  {
    var lo := ts[i];
    forall j | i <= j < i + fails
      ensures lo <= ts[j] <= lo + windowDays
    {
      assert j > i ==> Self(ts[i]) <= Self(ts[j]);
      assert j < i + fails - 1 ==> Self(ts[j]) <= Self(ts[i + fails - 1]);
    }
    RunFillsWindow(ts, i, fails, lo, lo + windowDays);
  }

  lemma SortedFailures(events: seq<Event>, lo: real, hi: real)
    ensures CountIn(SortBy(FailTimes(events), Self), lo, hi) == FailuresIn(events, lo, hi)
  {
    SortCount(FailTimes(events), lo, hi);
    FailTimesCount(events, lo, hi);
  }

  /** ts holds the times of the failures, ascending. */
  ghost predicate TimesOf(ts: seq<real>, events: seq<Event>) {
    Ascending(ts, Self) && forall lo, hi :: CountIn(ts, lo, hi) == FailuresIn(events, lo, hi)
  }

  lemma SortedTimes(events: seq<Event>)
    ensures TimesOf(SortBy(FailTimes(events), Self), events)
  {
    SortBySorts(FailTimes(events), Self);
    forall lo, hi
      ensures CountIn(SortBy(FailTimes(events), Self), lo, hi) == FailuresIn(events, lo, hi)
    {
      SortedFailures(events, lo, hi);
    }
  }

  lemma CloseTrips(events: seq<Event>, ts: seq<real>, i: nat, fails: nat, windowDays: real)
    requires TimesOf(ts, events)
    requires fails >= 1 && CloseAt(ts, i, fails, windowDays)
    ensures Trips(events, fails, windowDays)
  {
    CloseFillsWindow(ts, i, fails, windowDays);
    assert Dense(events, ts[i], fails, windowDays);
  }

  lemma TripIsClose(events: seq<Event>, ts: seq<real>, fails: nat, windowDays: real) returns (i: nat)
    requires TimesOf(ts, events)
    requires fails >= 1 && Trips(events, fails, windowDays)
    ensures CloseAt(ts, i, fails, windowDays)
  {
    var lo :| Dense(events, lo, fails, windowDays);
    i := WindowIsARun(ts, lo, lo + windowDays);
  }

  method CusumTrip(events: seq<Event>, fails: nat, windowDays: real) returns (trip: bool)
    requires fails >= 1
    ensures trip <==> Trips(events, fails, windowDays)
  {
    var ts: seq<real> := [];
    for k := 0 to |events|
      invariant ts == FailTimes(events[..k])
    {
      assert events[..k + 1][..k] == events[..k];
      if !events[k].success {
        ts := ts + [events[k].ts];
      }
    }
    assert events[..|events|] == events;
    ts := SortBy(ts, Self);
    SortedTimes(events);
    var i := 0;
    while i + fails <= |ts|
      invariant forall j: nat :: j < i ==> !CloseAt(ts, j, fails, windowDays)
    {
      if ts[i + fails - 1] - ts[i] <= windowDays {
        CloseTrips(events, ts, i, fails, windowDays);
        return true;
      }
      i := i + 1;
    }
    if Trips(events, fails, windowDays) {
      var j := TripIsClose(events, ts, fails, windowDays);
    }
    return false;
  }

  // ---- The rolling window ----

  const ByTime: Event -> real := (e: Event) => e.ts

  function InDate(events: seq<Event>, now: real): seq<Event> {
    if events == [] then []
    else
      var e := events[|events| - 1];
      InDate(events[..|events| - 1], now) + (if now - e.ts <= WINDOW_MAX_DAYS then [e] else [])
  }

  function LastN<T>(s: seq<T>, n: nat): (r: seq<T>)
    ensures |r| == if |s| <= n then |s| else n
  {
    if |s| > n then s[|s| - n..] else s
  }

  function Recent(events: seq<Event>, now: real): seq<Event> {
    LastN(SortBy(InDate(events, now), ByTime), WINDOW_MAX_EVENTS)
  }

  method Window(events: seq<Event>, now: real) returns (recent: seq<Event>)
    ensures recent == Recent(events, now)
  {
    recent := [];
    for k := 0 to |events|
      invariant recent == InDate(events[..k], now)
    {
      assert events[..k + 1][..k] == events[..k];
      if now - events[k].ts <= WINDOW_MAX_DAYS {
        recent := recent + [events[k]];
      }
    }
    assert events[..|events|] == events;
    recent := SortBy(recent, ByTime);
    if |recent| > WINDOW_MAX_EVENTS {
      recent := recent[|recent| - WINDOW_MAX_EVENTS..];
    }
  }

  /** The in-date failures of a window are those of the same window cut at the oldest day. */
  lemma {:induction false} InDateFailures(events: seq<Event>, now: real, lo: real, hi: real)
    ensures FailuresIn(InDate(events, now), lo, hi) == FailuresIn(events, Max(lo, now - WINDOW_MAX_DAYS), hi)
  {
    if events != [] {
      var front, e := events[..|events| - 1], events[|events| - 1];
      InDateFailures(front, now, lo, hi);
      if now - e.ts <= WINDOW_MAX_DAYS {
        CountSnoc(InDate(front, now), e, FailedIn(lo, hi));
      } else {
        assert InDate(events, now) == InDate(front, now);
      }
    }
  }

  /** The rolling window never adds a failure, and with no more than 200 events in date it
      loses only those out of date. */
  lemma RecentFailures(events: seq<Event>, now: real, lo: real, hi: real)
    ensures FailuresIn(Recent(events, now), lo, hi) <= FailuresIn(events, Max(lo, now - WINDOW_MAX_DAYS), hi)
    ensures |InDate(events, now)| <= WINDOW_MAX_EVENTS ==>
            FailuresIn(Recent(events, now), lo, hi) == FailuresIn(events, Max(lo, now - WINDOW_MAX_DAYS), hi)
  {
    var all := SortBy(InDate(events, now), ByTime);
    InDateFailures(events, now, lo, hi);
    CountSort(InDate(events, now), FailedIn(lo, hi));
    if |all| > WINDOW_MAX_EVENTS {
      var n := |all| - WINDOW_MAX_EVENTS;
      CountConcat(all[..n], all[n..], FailedIn(lo, hi));
      assert all[..n] + all[n..] == all;
    }
  }

  lemma {:induction false} NarrowWindowHoldsLess(events: seq<Event>, lo: real, lo1: real, hi: real)
    requires lo <= lo1
    ensures FailuresIn(events, lo1, hi) <= FailuresIn(events, lo, hi)
  {
    if events != [] {
      NarrowWindowHoldsLess(events[..|events| - 1], lo, lo1, hi);
    }
  }

  /** The rolling window is the newest of the events in date: the others, if any, are no
      newer than any of it, and there are others only if it is full. */
  lemma RecentIsNewest(events: seq<Event>, now: real) returns (older: seq<Event>)
    ensures multiset(older) + multiset(Recent(events, now)) == multiset(InDate(events, now))
    ensures forall e, f :: e in older && f in Recent(events, now) ==> ByTime(e) <= ByTime(f)
    ensures older != [] ==> |Recent(events, now)| == WINDOW_MAX_EVENTS
    ensures Ascending(Recent(events, now), ByTime)
  {
    var all := SortBy(InDate(events, now), ByTime);
    SortBySorts(InDate(events, now), ByTime);
    var n := if |all| > WINDOW_MAX_EVENTS then |all| - WINDOW_MAX_EVENTS else 0;
    older := all[..n];
    SuffixIsNewest(all, n, ByTime);
    assert Recent(events, now) == all[n..];
  }

  lemma SuffixIsNewest<T>(all: seq<T>, n: nat, key: T -> real)
    requires n <= |all| && Ascending(all, key)
    ensures Ascending(all[n..], key) && multiset(all[..n]) + multiset(all[n..]) == multiset(all)
    ensures forall e, f :: e in all[..n] && f in all[n..] ==> key(e) <= key(f)
  {
    assert all[..n] + all[n..] == all;
    forall e, f | e in all[..n] && f in all[n..]
      ensures key(e) <= key(f)
    {
      var i :| 0 <= i < n && all[i] == e;
      var j :| n <= j < |all| && all[j] == f;
    }
    forall i, j | 0 <= i < j < |all[n..]|
      ensures key(all[n..][i]) <= key(all[n..][j])
    {
      assert key(all[n + i]) <= key(all[n + j]);
    }
  }

  /** The window is full and something in date did not fit. */
  predicate Overflows(events: seq<Event>, now: real) { |InDate(events, now)| > WINDOW_MAX_EVENTS }

  /** The time of the oldest event kept. */
  function CutTime(events: seq<Event>, now: real): real
    requires Overflows(events, now)
  {
    Recent(events, now)[0].ts
  }

  function Newer(t: real): Event -> bool { (e: Event) => e.ts > t }

  function FailedPast(t: real, hi: real): Event -> bool { (e: Event) => !e.success && t < e.ts <= hi }

  function FailedAt(t: real): Event -> bool { (e: Event) => !e.success && e.ts == t }

  function Failed(e: Event): bool { !e.success }

  /** The events at the cut that still fit: the last ones recorded. */
  function KeptTies(events: seq<Event>, now: real): seq<Event>
    requires Overflows(events, now)
  {
    var cut, newer := CutTime(events, now), CountIf(events, Newer(CutTime(events, now)));
    if newer <= WINDOW_MAX_EVENTS then LastN(AtKey(InDate(events, now), ByTime, cut), WINDOW_MAX_EVENTS - newer) else []
  }

  /** The failures between two days that the rolling window knows of, told from the raw
      events: of the last 90 days, and if that is too many, those past the cut and those of
      the ties at the cut that fit. */
  function KeptFailures(events: seq<Event>, now: real, lo: real, hi: real): nat {
    if !Overflows(events, now) then FailuresIn(events, Max(lo, now - WINDOW_MAX_DAYS), hi)
    else
      var cut := CutTime(events, now);
      if lo > cut then FailuresIn(events, lo, hi)
      else if hi < cut then 0
      else CountIf(events, FailedPast(cut, hi)) + CountIf(KeptTies(events, now), Failed)
  }

  /** What is past the cut is all kept. */
  lemma PastTheCut(events: seq<Event>, now: real, p: Event -> bool)
    requires Overflows(events, now) && forall e :: p(e) ==> e.ts > CutTime(events, now)
    ensures CountIf(Recent(events, now), p) == CountIf(events, p)
  {
    hide CountIf, InDate, AtKey, Insert;
    var all := SortBy(InDate(events, now), ByTime);
    var n := |all| - WINDOW_MAX_EVENTS;
    SortBySorts(InDate(events, now), ByTime);
    forall e | e in all[..n]
      ensures !p(e)
    {
      var i :| 0 <= i < n && all[i] == e;
      assert ByTime(all[i]) <= ByTime(all[n]);
    }
    CountNone(all[..n], p);
    CountConcat(all[..n], all[n..], p);
    assert all[..n] + all[n..] == all;
    CountSort(InDate(events, now), p);
    KeptIsInDate(events, now);
    InDateCount(events, now, p);
  }

  lemma KeptIsInDate(events: seq<Event>, now: real)
    requires Overflows(events, now)
    ensures now - CutTime(events, now) <= WINDOW_MAX_DAYS
  {
    var all := SortBy(InDate(events, now), ByTime);
    var kept := all[|all| - WINDOW_MAX_EVENTS];
    SortKeepsMembers(InDate(events, now), ByTime, kept);
    InDateIsPart(events, now, kept);
  }

  lemma {:induction false} InDateCount(events: seq<Event>, now: real, p: Event -> bool)
    requires forall e :: p(e) ==> now - e.ts <= WINDOW_MAX_DAYS
    ensures CountIf(InDate(events, now), p) == CountIf(events, p)
  {
    if events != [] {
      var front, e := events[..|events| - 1], events[|events| - 1];
      InDateCount(front, now, p);
      if now - e.ts <= WINDOW_MAX_DAYS {
        CountSnoc(InDate(front, now), e, p);
      } else {
        assert InDate(events, now) == InDate(front, now);
      }
    }
  }

  lemma {:induction false} AtKeyConcat(a: seq<Event>, b: seq<Event>, k: real)
    ensures AtKey(a + b, ByTime, k) == AtKey(a, ByTime, k) + AtKey(b, ByTime, k)
    decreases |b|
  {
    if b == [] {
      assert a + b == a;
    } else {
      var n := |b| - 1;
      AtKeyConcat(a, b[..n], k);
      AtKeySnoc(a + b[..n], b[n], ByTime, k);
      assert a + b == (a + b[..n]) + [b[n]];
    }
  }

  /** Of events not before t, those that are not newer are at it. */
  lemma {:induction false} NewerOrAt(events: seq<Event>, t: real)
    requires forall e :: e in events ==> t <= e.ts
    ensures |events| == CountIf(events, Newer(t)) + |AtKey(events, ByTime, t)|
    ensures CountIf(events, FailedAt(t)) == CountIf(AtKey(events, ByTime, t), Failed)
  {
    if events != [] {
      var front, e := events[..|events| - 1], events[|events| - 1];
      NewerOrAt(front, t);
      assert e in events;
      if e.ts == t {
        CountSnoc(AtKey(front, ByTime, t), e, Failed);
      } else {
        assert AtKey(events, ByTime, t) == AtKey(front, ByTime, t);
      }
    }
  }

  lemma NoneBeforeTheCut(events: seq<Event>, now: real)
    requires Overflows(events, now)
    ensures |Recent(events, now)| == WINDOW_MAX_EVENTS
    ensures forall e :: e in Recent(events, now) ==> CutTime(events, now) <= e.ts
  {
    var all := SortBy(InDate(events, now), ByTime);
    var n := |all| - WINDOW_MAX_EVENTS;
    SortBySorts(InDate(events, now), ByTime);
    forall e | e in all[n..]
      ensures all[n].ts <= e.ts
    {
      var i :| n <= i < |all| && all[i] == e;
      assert i > n ==> ByTime(all[n]) <= ByTime(all[i]);
    }
  }

  lemma KeptTiesAreKept(events: seq<Event>, now: real)
    requires Overflows(events, now)
    ensures AtKey(Recent(events, now), ByTime, CutTime(events, now)) == KeptTies(events, now)
  {
    var all, cut := SortBy(InDate(events, now), ByTime), CutTime(events, now);
    var n := |all| - WINDOW_MAX_EVENTS;
    SortBySorts(InDate(events, now), ByTime);
    AtKeyConcat(all[..n], all[n..], cut);
    assert all[..n] + all[n..] == all;
    NoneBeforeTheCut(events, now);
    NewerOrAt(all[n..], cut);
    PastTheCut(events, now, Newer(cut));
    assert AtKey(all, ByTime, cut) == AtKey(InDate(events, now), ByTime, cut);
  }

  /** The rolling window's failures, for every history. */
  lemma RecentKeeps(events: seq<Event>, now: real, lo: real, hi: real)
    ensures FailuresIn(Recent(events, now), lo, hi) == KeptFailures(events, now, lo, hi)
  {
    var kept := Recent(events, now);
    if !Overflows(events, now) {
      RecentFailures(events, now, lo, hi);
    } else {
      var cut := CutTime(events, now);
      NoneBeforeTheCut(events, now);
      if lo > cut {
        PastTheCut(events, now, FailedIn(lo, hi));
      } else if hi < cut {
        CountNone(kept, FailedIn(lo, hi));
      } else {
        CountSplits(kept, FailedIn(lo, hi), FailedPast(cut, hi), FailedAt(cut));
        PastTheCut(events, now, FailedPast(cut, hi));
        NewerOrAt(kept, cut);
        KeptTiesAreKept(events, now);
      }
    }
  }

  predicate DenseKept(events: seq<Event>, now: real, lo: real, fails: nat, windowDays: real) {
    KeptFailures(events, now, lo, lo + windowDays) >= fails
  }

  /** EvaluateDemotion asks the rolling window, not the raw events as CusumTrip's own
      description says. For every history that trips exactly if some window of so many days
      holds enough of the failures that are kept. */
  lemma WindowedTrip(events: seq<Event>, now: real, fails: nat, windowDays: real)
    ensures Trips(Recent(events, now), fails, windowDays) <==> exists lo :: DenseKept(events, now, lo, fails, windowDays)
  {
    forall lo
      ensures Dense(Recent(events, now), lo, fails, windowDays) <==> DenseKept(events, now, lo, fails, windowDays)
    {
      RecentKeeps(events, now, lo, lo + windowDays);
    }
  }

  /** Whatever the window trips on, the raw events trip on too. */
  lemma WindowTripIsRawTrip(events: seq<Event>, now: real, fails: nat, windowDays: real)
    requires Trips(Recent(events, now), fails, windowDays)
    ensures Trips(events, fails, windowDays)
  {
    var lo :| Dense(Recent(events, now), lo, fails, windowDays);
    RecentFailures(events, now, lo, lo + windowDays);
    NarrowWindowHoldsLess(events, lo, Max(lo, now - WINDOW_MAX_DAYS), lo + windowDays);
    assert Dense(events, lo, fails, windowDays);
  }

  /** But not the other way round. Failures more than ninety days old escape it. */
  lemma {:induction false} OldFailuresEscape(events: seq<Event>, now: real, fails: nat, windowDays: real)
    requires fails > 0 && forall i :: 0 <= i < |events| ==> now - events[i].ts > WINDOW_MAX_DAYS
    ensures Recent(events, now) == [] && !Trips(Recent(events, now), fails, windowDays)
  {
    if events != [] {
      OldFailuresEscape(events[..|events| - 1], now, fails, windowDays);
    }
  }

  /** And so do fresh ones, however grave, behind two hundred successes of the same day. */
  lemma FreshFailuresEscape(failures: seq<Event>, successes: seq<Event>, now: real, fails: nat, windowDays: real)
    requires fails > 0 && Trips(failures, fails, windowDays) && Ascending(failures + successes, ByTime)
    requires |successes| >= WINDOW_MAX_EVENTS && forall e :: e in successes ==> e.success
    requires forall e :: e in failures + successes ==> now - e.ts <= WINDOW_MAX_DAYS
    ensures Trips(failures + successes, fails, windowDays)
    ensures !Trips(Recent(failures + successes, now), fails, windowDays)
  {
    hide CountIf, InDate, AtKey;
    var events := failures + successes;
    var lo :| Dense(failures, lo, fails, windowDays);
    CountConcat(failures, successes, FailedIn(lo, lo + windowDays));
    assert Dense(events, lo, fails, windowDays);
    AllInDate(events, now);
    SortedStays(events, ByTime);
    var recent := Recent(events, now);
    assert recent == successes[|successes| - WINDOW_MAX_EVENTS..];
    forall lo
      ensures !Dense(recent, lo, fails, windowDays)
    {
      CountNone(recent, FailedIn(lo, lo + windowDays));
    }
  }

  lemma {:induction false} AllInDate(events: seq<Event>, now: real)
    requires forall e :: e in events ==> now - e.ts <= WINDOW_MAX_DAYS
    ensures InDate(events, now) == events
  {
    if events != [] {
      AllInDate(events[..|events| - 1], now);
      assert events[|events| - 1] in events;
    }
  }

  // ---- Hysteresis ----

  function Successes(events: seq<Event>): (n: nat)
    ensures n <= |events|
  {
    if events == [] then 0 else Successes(events[..|events| - 1]) + (if events[|events| - 1].success then 1 else 0)
  }

  function LCB(successes: nat, n: nat, z: real, sqrt: SqrtFn): real {
    Wilson(successes as real, n as real, z, sqrt)
  }

  /** The bound has fallen below the floor although a flawless record would clear it. */
  predicate Fallen(successes: nat, n: nat, floor: real, z: real, sqrt: SqrtFn) {
    LCB(n, n, z, sqrt) >= floor && LCB(successes, n, z, sqrt) < floor
  }

  predicate Breach(events: seq<Event>, theta: real, lastN: nat, band: real, z: real, sqrt: SqrtFn) {
    var win := LastN(SortBy(events, ByTime), lastN);
    win != [] && Fallen(Successes(win), |win|, theta - band, z, sqrt)
  }

  method HysteresisBreach(events: seq<Event>, theta: real, lastN: nat, band: real, z: real, sqrt: SqrtFn) returns (breach: bool)
    ensures breach == Breach(events, theta, lastN, band, z, sqrt)
  {
    var win := SortBy(events, ByTime);
    if |win| > lastN {
      win := win[|win| - lastN..];
    }
    if |win| == 0 {
      return false;
    }
    var floor := theta - band;
    if LCB(|win|, |win|, z, sqrt) < floor {
      return false;
    }
    var succ := 0;
    for k := 0 to |win|
      invariant succ == Successes(win[..k])
    {
      assert win[..k + 1][..k] == win[..k];
      if win[k].success {
        succ := succ + 1;
      }
    }
    assert win[..|win|] == win;
    return LCB(succ, |win|, z, sqrt) < floor;
  }

  /** In the same number of trials, one more success gives a higher bound. */
  lemma SuccessBeatsFailure(successes: nat, n: nat, z: real, sqrt: SqrtFn)
    requires SquareRoots(sqrt) && z > 0.0 && successes < n
    ensures LCB(successes, n, z, sqrt) < LCB(successes + 1, n, z, sqrt)
  {
    var s, m := successes as real, n as real;
    if n == 1 {
      BoundIsPositive(0.0, 1.0, z, sqrt);
      BoundIsPositive(1.0, 1.0, z, sqrt);
    } else {
      SuccessRaisesBound(s, m - 1.0, z, sqrt);
      FailureLowersBound(s, m - 1.0, z, sqrt);
    }
  }

  lemma {:induction false} BoundGrowsWithSuccesses(a: nat, b: nat, n: nat, z: real, sqrt: SqrtFn)
    requires SquareRoots(sqrt) && z > 0.0 && a <= b <= n
    ensures LCB(a, n, z, sqrt) <= LCB(b, n, z, sqrt)
    decreases b - a
  {
    if a < b {
      SuccessBeatsFailure(a, n, z, sqrt);
      BoundGrowsWithSuccesses(a + 1, b, n, z, sqrt);
    }
  }

  /** More failures in as many trials never undo a breach, so a breach is always the fault
      of failures: a flawless record is not one, whatever its length and the threshold. */
  lemma BreachNeedsFailures(a: nat, b: nat, n: nat, floor: real, z: real, sqrt: SqrtFn)
    requires SquareRoots(sqrt) && z > 0.0 && a <= b <= n && Fallen(b, n, floor, z, sqrt)
    ensures Fallen(a, n, floor, z, sqrt) && b < n
  {
    BoundGrowsWithSuccesses(a, b, n, z, sqrt);
  }

  /** The trigger abstains exactly if the record is too short for its floor: a flawless
      record of n is below the floor if and only if n (1 - floor) < floor z^2. */
  lemma TooShortToJudge(n: nat, floor: real, z: real, sqrt: SqrtFn)
    requires SquareRoots(sqrt) && z > 0.0 && n > 0
    ensures LCB(n, n, z, sqrt) < floor <==> (n as real) * (1.0 - floor) < floor * (z * z)
  {
    FlawlessBound(n as real, z, sqrt);
    ShortOfFloor(n as real, z * z, floor, LCB(n, n, z, sqrt));
  }

  lemma ShortOfFloor(m: real, k: real, floor: real, l: real)
    requires m + k > 0.0 && l * (m + k) == m
    ensures l < floor <==> m * (1.0 - floor) < floor * k
  {
    var gap := floor - l;
    SignOfProduct(m + k, gap);
    assert (m + k) * gap == floor * (m + k) - l * (m + k);
    assert floor * (m + k) == m - m * (1.0 - floor) + floor * k;
  }

  /** The share is within reach: the trials have it or more, and refute every lower one. */
  ghost predicate Held(share: real, successes: real, n: real, z: real) {
    n * share <= successes && forall y :: y < share ==> Refuted(successes, n, z, y)
  }

  lemma ReachesFloorIff(successes: nat, n: nat, floor: real, z: real, sqrt: SqrtFn)
    requires SquareRoots(sqrt) && z > 0.0 && successes <= n && n > 0
    ensures LCB(successes, n, z, sqrt) >= floor <==> Held(floor, successes as real, n as real, z)
  {
    var s, m, l := successes as real, n as real, LCB(successes, n, z, sqrt);
    BoundIsLeastShare(s, m, z, sqrt);
    assert Below(l, s, m) && Scaled(s, m, z, l) == 0.0;
    if l >= floor {
      NoMoreThan(m, floor, l);
      forall y | y < floor
        ensures Refuted(s, m, z, y)
      {
        NoMoreThan(m, y, l);
        assert Below(y, s, m);
      }
    }
  }

  lemma NoMoreThan(m: real, y: real, l: real)
    requires m > 0.0 && y <= l
    ensures m * y <= m * l
  {
    NonNegativeProduct(m, l - y);
    assert m * (l - y) == m * l - m * y;
  }

  /** A flawless record of n is long enough to clear the floor. */
  predicate LongEnough(n: nat, floor: real, z: real) { n as real * (1.0 - floor) >= floor * (z * z) }

  lemma FallenMeans(successes: nat, n: nat, floor: real, z: real, sqrt: SqrtFn)
    requires SquareRoots(sqrt) && z > 0.0 && successes <= n && n > 0
    ensures Fallen(successes, n, floor, z, sqrt) <==> LongEnough(n, floor, z) && !Held(floor, successes as real, n as real, z)
  {
    hide Held, LCB;
    TooShortToJudge(n, floor, z, sqrt);
    ReachesFloorIff(successes, n, floor, z, sqrt);
  }

  /** A breach, in terms of the trials: of the newest events, as many as there are up to
      lastN, a flawless record would be long enough for the floor, and this one does not
      hold it any more. */
  lemma BreachMeans(events: seq<Event>, theta: real, lastN: nat, band: real, z: real, sqrt: SqrtFn)
    requires SquareRoots(sqrt) && z > 0.0
    ensures
      var all, floor := SortBy(events, ByTime), theta - band;
      var n := if |events| < lastN then |events| else lastN;
      |all| == |events| &&
      var win := all[|all| - n..];
      Breach(events, theta, lastN, band, z, sqrt) <==>
      n > 0 && LongEnough(n, floor, z) && !Held(floor, Successes(win) as real, n as real, z)
  {
    var all := SortBy(events, ByTime);
    var n := if |events| < lastN then |events| else lastN;
    var win := all[|all| - n..];
    assert win == LastN(all, lastN);
    hide Held, Fallen, LongEnough;
    if n > 0 {
      FallenMeans(Successes(win), n, theta - band, z, sqrt);
    }
  }

  ghost predicate Flawless(events: seq<Event>) {
    forall e :: e in events ==> e.success
  }

  lemma {:induction false} FlawlessSuccesses(events: seq<Event>)
    requires Flawless(events)
    ensures Successes(events) == |events|
  {
    if events != [] {
      assert events[|events| - 1] in events;
      FlawlessSuccesses(events[..|events| - 1]);
    }
  }

  lemma SortedIsFlawless(events: seq<Event>, n: nat)
    requires Flawless(events)
    ensures Flawless(SortBy(events, ByTime)) && Flawless(LastN(SortBy(events, ByTime), n))
  {
    SortBySorts(events, ByTime);
    forall e | e in SortBy(events, ByTime)
      ensures e.success
    {
      assert e in multiset(SortBy(events, ByTime));
      assert e in multiset(events);
    }
  }

  lemma {:induction false} FlawlessHasNoFailures(events: seq<Event>, lo: real, hi: real)
    requires Flawless(events)
    ensures FailuresIn(events, lo, hi) == 0
  {
    if events != [] {
      assert events[|events| - 1] in events;
      FlawlessHasNoFailures(events[..|events| - 1], lo, hi);
    }
  }

  lemma {:induction false} InDateIsPart(events: seq<Event>, now: real, e: Event)
    requires e in InDate(events, now)
    ensures e in events && now - e.ts <= WINDOW_MAX_DAYS
  {
    var front := events[..|events| - 1];
    if e in InDate(front, now) {
      InDateIsPart(front, now, e);
    }
  }

  // ---- The decision ----

  const RUNGS := ["L0", "L1", "L2", "L3", "L4"]

  function RungIndex(rung: string): int {
    if rung == "L0" then 0 else if rung == "L1" then 1 else if rung == "L2" then 2 else if rung == "L3" then 3
    else if rung == "L4" then 4 else -1
  }

  lemma RungsAreInOrder(rung: string)
    ensures var i := RungIndex(rung);
            if rung in ["L0", "L1", "L2", "L3", "L4"] then 0 <= i < 5 && ["L0", "L1", "L2", "L3", "L4"][i] == rung else i == -1
  {
  }

  function DemoteTo(rung: string, down: nat): string {
    if RungIndex(rung) < 0 then rung else if RungIndex(rung) <= down then "L0" else RUNGS[RungIndex(rung) - down]
  }

  datatype Reason = SevAtL4 | CriticalAtL4 | Drift | Cusum(critical: bool) | Hysteresis | NotClean(sev: bool, critical: bool) | Quiet

  datatype Decision = Decision(demote: bool, from: string, to: string, reason: Reason, freezeDays: nat, stale: bool)

  predicate CriticalFailure(events: seq<Event>) {
    exists i :: 0 <= i < |events| && events[i].critical && !events[i].success
  }

  /** The most severe trigger that fires, in their order. */
  ghost function Verdict(current: string, theta: real, events: seq<Event>, now: real, sev: bool, critical: bool, drift: bool, z: real, sqrt: SqrtFn): Decision {
    var win := Recent(events, now);
    if sev && current == "L4" then Decision(true, current, DemoteTo(current, SEV_DROP), SevAtL4, FREEZE_DAYS, false)
    else if critical && current == "L4" then Decision(true, current, "L3", CriticalAtL4, 0, false)
    else if drift then Decision(false, current, current, Drift, 0, true)
    else if Trips(win, CUSUM_FAILS, CUSUM_WINDOW_DAYS) then Decision(true, current, DemoteTo(current, 1), Cusum(CriticalFailure(win)), 0, false)
    else if Breach(win, theta, HYSTERESIS_LAST_N, HYSTERESIS_BAND, z, sqrt) then Decision(true, current, DemoteTo(current, 1), Hysteresis, 0, false)
    else if sev || critical then Decision(false, current, current, NotClean(sev, critical), 0, false)
    else Decision(false, current, current, Quiet, 0, false)
  }

  method EvaluateAt(current: string, theta: real, events: seq<Event>, now: real, sev: bool, critical: bool, drift: bool, z: real, sqrt: SqrtFn)
    returns (d: Decision)
    ensures d == Verdict(current, theta, events, now, sev, critical, drift, z, sqrt)
  {
    var atL4 := current == "L4";
    if sev && atL4 {
      return Decision(true, current, DemoteTo(current, SEV_DROP), SevAtL4, FREEZE_DAYS, false);
    }
    if critical && atL4 {
      return Decision(true, current, "L3", CriticalAtL4, 0, false);
    }
    if drift {
      return Decision(false, current, current, Drift, 0, true);
    }
    var win := Window(events, now);
    var trip := CusumTrip(win, CUSUM_FAILS, CUSUM_WINDOW_DAYS);
    if trip {
      var worst := false;
      var i := 0;
      while i < |win| && !worst
        invariant i <= |win| && (!worst ==> !CriticalFailure(win[..i])) && (worst ==> CriticalFailure(win))
      {
        worst := win[i].critical && !win[i].success;
        i := i + 1;
      }
      assert win[..|win|] == win;
      return Decision(true, current, DemoteTo(current, 1), Cusum(worst), 0, false);
    }
    var breach := HysteresisBreach(win, theta, HYSTERESIS_LAST_N, HYSTERESIS_BAND, z, sqrt);
    if breach {
      return Decision(true, current, DemoteTo(current, 1), Hysteresis, 0, false);
    }
    if sev || critical {
      return Decision(false, current, current, NotClean(sev, critical), 0, false);
    }
    return Decision(false, current, current, Quiet, 0, false);
  }

  /** The code's own z is the constant of a one-sided bound at 95%. */
  method EvaluateDemotion(current: string, theta: real, events: seq<Event>, now: real, sev: bool, critical: bool, drift: bool, sqrt: SqrtFn)
    returns (d: Decision)
    ensures d == Verdict(current, theta, events, now, sev, critical, drift, Z95, sqrt)
  {
    d := EvaluateAt(current, theta, events, now, sev, critical, drift, Z95, sqrt);
  }

  lemma DropsRungs(rung: string, down: nat)
    requires down > 0
    ensures RungIndex(DemoteTo(rung, down)) == if RungIndex(rung) <= 0 then RungIndex(rung) else if RungIndex(rung) <= down then 0 else RungIndex(rung) - down
    ensures DemoteTo(rung, down) == rung <==> RungIndex(rung) <= 0
  {
  }

  /** A demotion never raises a rung and takes two only for a severity at L4, the one case
      that freezes the fleet. It leaves the rung where it is exactly at L0 and at rungs
      nobody knows, where the decision still says demote. */
  lemma DemotionFalls(current: string, theta: real, events: seq<Event>, now: real, sev: bool, critical: bool, drift: bool, z: real, sqrt: SqrtFn)
    ensures var d := Verdict(current, theta, events, now, sev, critical, drift, z, sqrt);
            RungIndex(d.to) <= RungIndex(current) <= RungIndex(d.to) + SEV_DROP &&
            (d.freezeDays > 0 <==> RungIndex(current) == RungIndex(d.to) + SEV_DROP) &&
            (!d.demote ==> d.to == current) &&
            (d.demote ==> (d.to == current <==> RungIndex(current) <= 0))
  {
    hide Trips, Breach, Recent, CriticalFailure, DemoteTo;
    DropsRungs(current, SEV_DROP);
    DropsRungs(current, 1);
  }

  /** Which trigger is given as the reason: at L4 a severity before a critical event, then drift,
      two failures a day apart, a breach over the last fifty. What demotes, how far, and that
      the reason tells a critical failure among those kept. */
  lemma ReasonIs(current: string, theta: real, events: seq<Event>, now: real, sev: bool, critical: bool, drift: bool, z: real, sqrt: SqrtFn)
    ensures
      var d := Verdict(current, theta, events, now, sev, critical, drift, z, sqrt);
      var win, grave := Recent(events, now), current == "L4" && (sev || critical);
      var fast, slow := Trips(win, 2, 1.0), Breach(win, theta, 50, 0.05, z, sqrt);
      d.from == current && (d.stale <==> d.reason == Drift) && (d.demote <==> d.reason.SevAtL4? || d.reason.CriticalAtL4? || d.reason.Cusum? || d.reason.Hysteresis?) &&
      (d.reason.SevAtL4? <==> sev && current == "L4") &&
      (d.reason.CriticalAtL4? <==> critical && !sev && current == "L4") &&
      (d.reason.Drift? <==> drift && !grave) &&
      (d.reason.Cusum? <==> fast && !drift && !grave) &&
      (d.reason.Cusum? ==> (d.reason.critical <==> exists e :: e in win && e.critical && !e.success)) &&
      (d.reason.Hysteresis? <==> slow && !fast && !drift && !grave) &&
      (d.reason.NotClean? ==> d.reason == NotClean(sev, critical)) &&
      (d.reason.Quiet? <==> !sev && !critical && !drift && !fast && !slow) &&
      (d.reason.SevAtL4? ==> d.to == "L2" && d.freezeDays == 14) && (d.reason.CriticalAtL4? ==> d.to == "L3") &&
      (d.reason.Cusum? || d.reason.Hysteresis? ==> d.to == (if RungIndex(current) <= 0 then current else RUNGS[RungIndex(current) - 1]))
  {
    hide Trips, Breach, Recent;
  }

  /** A class that never failed keeps its rung, unless a severity or a critical event is
      laid to it at L4. */
  lemma FlawlessKeepsRung(current: string, theta: real, events: seq<Event>, now: real, sev: bool, critical: bool, drift: bool, z: real, sqrt: SqrtFn)
    requires Flawless(events)
    ensures Verdict(current, theta, events, now, sev, critical, drift, z, sqrt).demote <==> current == "L4" && (sev || critical)
  {
    var win := Recent(events, now);
    assert Flawless(InDate(events, now)) by {
      forall e | e in InDate(events, now)
        ensures e.success
      {
        InDateIsPart(events, now, e);
      }
    }
    SortedIsFlawless(InDate(events, now), WINDOW_MAX_EVENTS);
    forall lo
      ensures !Dense(win, lo, CUSUM_FAILS, CUSUM_WINDOW_DAYS)
    {
      FlawlessHasNoFailures(win, lo, lo + CUSUM_WINDOW_DAYS);
    }
    SortedIsFlawless(win, HYSTERESIS_LAST_N);
    FlawlessSuccesses(LastN(SortBy(win, ByTime), HYSTERESIS_LAST_N));
  }
}
