/** The temporal knowledge graph (internal/memory/kg.go): edges with a valid-time and a
    transaction-time axis, its writes, its change log and its point-in-time query. */
module TemporalGraph {
  import opened Options
  import opened StableSort

  /** An entity row is named by its key; ids are one-to-one with keys. */
  datatype Entity = Entity(kind: string, namespace: string, name: string)

  datatype Fact = Fact(cluster: string, src: Entity, rel: string, dst: Entity)

  datatype Edge = Edge(fact: Fact, attrs: string, from: real, to: Option<real>, ingested: real, retracted: Option<real>)

  predicate Open(e: Edge) { e.to.None? }

  /** cluster AND src AND rel [AND dst]. */
  datatype Selector = Selector(cluster: string, src: Entity, rel: string, dst: Option<Entity>)

  predicate Selects(s: Selector, f: Fact) {
    f.cluster == s.cluster && f.src == s.src && f.rel == s.rel && (s.dst.Some? ==> f.dst == s.dst.value)
  }

  predicate HasOpen(edges: seq<Edge>, f: Fact) {
    exists i :: 0 <= i < |edges| && edges[i].fact == f && Open(edges[i])
  }

  // ---- The writes, as functions of the table ----

  datatype Write =
    | OpenEdge(fact: Fact, attrs: string)
    | CloseEdge(sel: Selector)
    | CloseAll(cluster: string, entity: Entity)
    | Retract(sel: Selector)
    | Amend(index: nat, attrs: string)

  /** Which open edges a close stamps. */
  predicate Closes(w: Write, f: Fact) {
    match w
    case CloseEdge(sel) => Selects(sel, f)
    case CloseAll(cluster, entity) => f.cluster == cluster && (f.src == entity || f.dst == entity)
    case _ => false
  }

  function Stamp(e: Edge, w: Write, validAt: real, now: real): Edge {
    if Closes(w, e.fact) && Open(e) then e.(to := Some(validAt))
    else if w.Retract? && Selects(w.sel, e.fact) && e.retracted.None? then e.(retracted := Some(now))
    else e
  }

  /** One write. validAt is the valid-time stamp it uses and now its transaction time; the
      two differ only when bi-temporality is on. */
  function Apply(edges: seq<Edge>, w: Write, validAt: real, now: real): seq<Edge> {
    match w
    case OpenEdge(fact, attrs) =>
      if HasOpen(edges, fact) then edges else edges + [Edge(fact, attrs, validAt, None, now, None)]
    case Amend(index, attrs) =>
      if index < |edges| then edges[index := edges[index].(attrs := attrs)] else edges
    case _ => seq(|edges|, i requires 0 <= i < |edges| => Stamp(edges[i], w, validAt, now))
  }

  // ---- What the writes keep when bi-temporality is off ----

  ghost predicate StampedBefore(e: Edge, next: real) {
    e.from == e.ingested < next &&
    (e.to.Some? ==> e.from < e.to.value < next) &&
    (e.retracted.Some? ==> e.from < e.retracted.value < next)
  }

  /** The edge is over before the other one begins. */
  ghost predicate EndsBefore(e: Edge, f: Edge) {
    e.to.Some? && e.to.value < f.from
  }

  /** All stamps lie before `next`, rows are in the order they were opened, and the edges
      of one fact follow each other without overlap. */
  ghost predicate Consistent(edges: seq<Edge>, next: real) {
    (forall i :: 0 <= i < |edges| ==> StampedBefore(edges[i], next)) &&
    (forall i, j :: 0 <= i < j < |edges| ==> edges[i].from < edges[j].from) &&
    (forall i, j :: 0 <= i < j < |edges| && edges[i].fact == edges[j].fact ==> EndsBefore(edges[i], edges[j]))
  }

  ghost predicate AtMostOneOpen(edges: seq<Edge>) {
    forall i, j :: 0 <= i < j < |edges| && edges[i].fact == edges[j].fact ==> !(Open(edges[i]) && Open(edges[j]))
  }

  /** A write of a run, with its two stamps. */
  datatype Stamped = At(write: Write, validAt: real, now: real)

  /** Every write uses a later clock reading than the one before. */
  ghost predicate ClockIncreases(h: seq<Stamped>, from: real) {
    (forall i :: 0 <= i < |h| ==> from <= h[i].now) && forall i, j :: 0 <= i < j < |h| ==> h[i].now < h[j].now
  }

  /** With bi-temporality off both stamps are the clock reading. */
  ghost predicate Monotemporal(h: seq<Stamped>) {
    forall i :: 0 <= i < |h| ==> h[i].validAt == h[i].now
  }

  function RunWrites(edges: seq<Edge>, h: seq<Stamped>): seq<Edge>
    decreases |h|
  {
    if h == [] then edges else RunWrites(Apply(edges, h[0].write, h[0].validAt, h[0].now), h[1..])
  }

  lemma WriteKeepsConsistent(edges: seq<Edge>, w: Write, now: real, next: real)
    requires Consistent(edges, now) && now < next
    ensures Consistent(Apply(edges, w, now, now), next)
  {
    if w.OpenEdge? {
      OpenKeepsConsistent(edges, w, now, next);
    } else {
      StampsKeepConsistent(edges, Apply(edges, w, now, now), now, next);
    }
  }

  lemma OpenKeepsConsistent(edges: seq<Edge>, w: Write, now: real, next: real)
    requires Consistent(edges, now) && now < next && w.OpenEdge?
    ensures Consistent(Apply(edges, w, now, now), next)
  {
    var after := Apply(edges, w, now, now);
    if !HasOpen(edges, w.fact) {
      forall i | 0 <= i < |edges|
        ensures after[i] == edges[i] && edges[i].from < now && (edges[i].fact == w.fact ==> edges[i].to.Some? && edges[i].to.value < now)
      {
        assert StampedBefore(edges[i], now);
        assert edges[i].fact == w.fact ==> !Open(edges[i]);
      }
    }
  }

  lemma StampsKeepConsistent(edges: seq<Edge>, after: seq<Edge>, now: real, next: real)
    requires Consistent(edges, now) && now < next && |after| == |edges|
    requires forall i :: 0 <= i < |edges| ==>
               after[i].fact == edges[i].fact && after[i].from == edges[i].from && after[i].ingested == edges[i].ingested &&
               (after[i].to == edges[i].to || (Open(edges[i]) && after[i].to == Some(now))) &&
               (after[i].retracted == edges[i].retracted || after[i].retracted == Some(now))
    ensures Consistent(after, next)
  {
    forall i | 0 <= i < |after|
      ensures StampedBefore(after[i], next)
    {
      assert StampedBefore(edges[i], now);
    }
    forall i, j | 0 <= i < j < |after| && after[i].fact == after[j].fact
      ensures EndsBefore(after[i], after[j])
    {
      assert EndsBefore(edges[i], edges[j]);
    }
  }

  /** Over every sequence of writes, whatever their stamps, there is never more than one
      open edge for a fact. */
  lemma {:induction false} RunKeepsOneOpen(edges: seq<Edge>, h: seq<Stamped>)
    requires AtMostOneOpen(edges)
    ensures AtMostOneOpen(RunWrites(edges, h))
    decreases |h|
  {
    if h != [] {
      RunKeepsOneOpen(Apply(edges, h[0].write, h[0].validAt, h[0].now), h[1..]);
    }
  }

  /** With bi-temporality off and an increasing clock, every sequence of writes leaves a
      consistent table. */
  lemma {:induction false} RunKeepsConsistent(edges: seq<Edge>, h: seq<Stamped>, from: real)
    requires Consistent(edges, from) && ClockIncreases(h, from) && Monotemporal(h)
    ensures exists next :: Consistent(RunWrites(edges, h), next)
    decreases |h|
  {
    if h != [] {
      var now := h[0].now;
      var next := if |h| > 1 then h[1].now else now + 1.0;
      LaterIsConsistent(edges, from, now);
      WriteKeepsConsistent(edges, h[0].write, now, next);
      RunKeepsConsistent(Apply(edges, h[0].write, now, now), h[1..], next);
      assert RunWrites(edges, h) == RunWrites(Apply(edges, h[0].write, now, now), h[1..]);
    } else {
      assert Consistent(RunWrites(edges, h), from);
    }
  }

  lemma LaterIsConsistent(edges: seq<Edge>, from: real, later: real)
    requires Consistent(edges, from) && from <= later
    ensures Consistent(edges, later)
  {
  }

  // ---- The point-in-time query ----

  /** Valid in the world at v, as believed at transaction time x. */
  predicate VisibleAt(e: Edge, cluster: string, v: real, x: real) {
    e.fact.cluster == cluster &&
    e.from <= v && (e.to.None? || e.to.value > v) &&
    e.ingested <= x && (e.retracted.None? || e.retracted.value > x)
  }

  /** A row the query selects. */
  datatype Hit = Hit(from: real, fact: Fact)

  function HitTime(h: Hit): real { h.from }

  function Hits(edges: seq<Edge>, cluster: string, v: real, x: real): seq<Hit> {
    if edges == [] then []
    else (if VisibleAt(edges[0], cluster, v, x) then [Hit(edges[0].from, edges[0].fact)] else []) + Hits(edges[1..], cluster, v, x)
  }

  /** The facts AsOf finds, ordered by the time from which they are valid. */
  function FactsAsOf(edges: seq<Edge>, cluster: string, v: real, x: real): (facts: seq<Fact>)
    ensures |facts| == |Hits(edges, cluster, v, x)|
  {
    var hits := SortBy(Hits(edges, cluster, v, x), HitTime);
    seq(|hits|, i requires 0 <= i < |hits| => hits[i].fact)
  }

  lemma {:induction false} SameVisibleSameHits(a: seq<Edge>, b: seq<Edge>, cluster: string, v: real, x: real)
    requires |a| == |b|
    requires forall i :: 0 <= i < |a| ==> a[i].fact == b[i].fact && a[i].from == b[i].from && (VisibleAt(a[i], cluster, v, x) <==> VisibleAt(b[i], cluster, v, x))
    ensures Hits(a, cluster, v, x) == Hits(b, cluster, v, x)
  {
    if a != [] {
      SameVisibleSameHits(a[1..], b[1..], cluster, v, x);
    }
  }

  lemma {:induction false} HitsAppend(edges: seq<Edge>, e: Edge, cluster: string, v: real, x: real)
    ensures Hits(edges + [e], cluster, v, x) ==
            Hits(edges, cluster, v, x) + (if VisibleAt(e, cluster, v, x) then [Hit(e.from, e.fact)] else [])
  {
    if edges == [] {
      assert edges + [e] == [e];
    } else {
      HitsAppend(edges[1..], e, cluster, v, x);
      assert (edges + [e])[1..] == edges[1..] + [e];
    }
  }

  /** A write after x whose valid-time stamp is after v leaves the answer for (v, x) alone. */
  lemma LaterWriteKeepsThePast(edges: seq<Edge>, w: Write, validAt: real, now: real, cluster: string, v: real, x: real)
    requires x < now && v < validAt
    ensures Hits(Apply(edges, w, validAt, now), cluster, v, x) == Hits(edges, cluster, v, x)
  {
    var after := Apply(edges, w, validAt, now);
    if w.OpenEdge? && !HasOpen(edges, w.fact) {
      HitsAppend(edges, after[|edges|], cluster, v, x);
    } else {
      SameVisibleSameHits(edges, after, cluster, v, x);
    }
  }

  /** No run of later opens, closes, retractions and amendments changes the past. */
  lemma {:induction false} ThePastIsStable(edges: seq<Edge>, h: seq<Stamped>, cluster: string, v: real, x: real)
    requires forall i :: 0 <= i < |h| ==> x < h[i].now && v < h[i].validAt
    ensures Hits(RunWrites(edges, h), cluster, v, x) == Hits(edges, cluster, v, x)
    ensures FactsAsOf(RunWrites(edges, h), cluster, v, x) == FactsAsOf(edges, cluster, v, x)
    decreases |h|
  {
    if h != [] {
      LaterWriteKeepsThePast(edges, h[0].write, h[0].validAt, h[0].now, cluster, v, x);
      ThePastIsStable(Apply(edges, h[0].write, h[0].validAt, h[0].now), h[1..], cluster, v, x);
    }
  }

  lemma {:induction false} FewerVisibleFewerHits(a: seq<Edge>, b: seq<Edge>, cluster: string, v: real, x: real, k: nat)
    requires |a| == |b| && k < |a|
    requires forall i :: 0 <= i < |a| ==> (VisibleAt(b[i], cluster, v, x) ==> VisibleAt(a[i], cluster, v, x))
    requires VisibleAt(a[k], cluster, v, x) && !VisibleAt(b[k], cluster, v, x)
    ensures |Hits(b, cluster, v, x)| < |Hits(a, cluster, v, x)|
  {
    if k == 0 {
      NoMoreHits(a[1..], b[1..], cluster, v, x);
    } else {
      FewerVisibleFewerHits(a[1..], b[1..], cluster, v, x, k - 1);
    }
  }

  lemma {:induction false} NoMoreHits(a: seq<Edge>, b: seq<Edge>, cluster: string, v: real, x: real)
    requires |a| == |b|
    requires forall i :: 0 <= i < |a| ==> (VisibleAt(b[i], cluster, v, x) ==> VisibleAt(a[i], cluster, v, x))
    ensures |Hits(b, cluster, v, x)| <= |Hits(a, cluster, v, x)|
  {
    if a != [] {
      NoMoreHits(a[1..], b[1..], cluster, v, x);
    }
  }

  /** With bi-temporality on a close is stamped with an event time, which may lie in the
      past. It then rewrites the answer for (v, x) exactly when that time is not after v
      and it closes an edge the answer contained. */
  lemma BackdatedCloseRewritesThePast(edges: seq<Edge>, w: Write, validAt: real, now: real, cluster: string, v: real, x: real)
    requires x < now && (w.CloseEdge? || w.CloseAll?)
    ensures FactsAsOf(Apply(edges, w, validAt, now), cluster, v, x) == FactsAsOf(edges, cluster, v, x) <==>
            !(validAt <= v && exists i :: 0 <= i < |edges| && Open(edges[i]) && Closes(w, edges[i].fact) && VisibleAt(edges[i], cluster, v, x))
  {
    var after := Apply(edges, w, validAt, now);
    if k :| 0 <= k < |edges| && Open(edges[k]) && Closes(w, edges[k].fact) && VisibleAt(edges[k], cluster, v, x) && validAt <= v {
      FewerVisibleFewerHits(edges, after, cluster, v, x, k);
    } else {
      SameVisibleSameHits(edges, after, cluster, v, x);
    }
  }

  lemma {:induction false} HitsFind(edges: seq<Edge>, cluster: string, v: real, x: real, h: Hit)
    ensures h in Hits(edges, cluster, v, x) <==>
            exists i :: 0 <= i < |edges| && VisibleAt(edges[i], cluster, v, x) && h == Hit(edges[i].from, edges[i].fact)
  {
    if edges != [] {
      HitsFind(edges[1..], cluster, v, x, h);
      assert forall i :: 0 < i < |edges| ==> edges[i] == edges[1..][i - 1];
    }
  }

  /** What the query answers, without its order: the facts of the edges that hold at v in the
      sense of the change log, as far as they were recorded and not yet retracted at x. */
  lemma AsOfFinds(edges: seq<Edge>, cluster: string, v: real, x: real, f: Fact)
    ensures f in FactsAsOf(edges, cluster, v, x) <==>
            exists i :: 0 <= i < |edges| && edges[i].fact == f && ValidAt(edges[i], cluster, v) &&
                        edges[i].ingested <= x && (edges[i].retracted.Some? ==> x < edges[i].retracted.value)
  {
    var found := Hits(edges, cluster, v, x);
    var hits, facts := SortBy(found, HitTime), FactsAsOf(edges, cluster, v, x);
    if f in facts {
      var i :| 0 <= i < |facts| && facts[i] == f;
      SortKeepsMembers(found, HitTime, hits[i]);
      HitsFind(edges, cluster, v, x, hits[i]);
    }
    if i :| 0 <= i < |edges| && edges[i].fact == f && VisibleAt(edges[i], cluster, v, x) {
      var h := Hit(edges[i].from, f);
      HitsFind(edges, cluster, v, x, h);
      SortKeepsMembers(found, HitTime, h);
      var j :| 0 <= j < |hits| && hits[j] == h;
      assert facts[j] == f;
    }
  }

  /** With nothing retracted, and asked of a time by which all is recorded, the answer is the
      facts that the change log leaves valid. */
  lemma AsOfIsValidAt(edges: seq<Edge>, cluster: string, v: real, x: real)
    requires forall i :: 0 <= i < |edges| ==> edges[i].ingested <= x && edges[i].retracted.None?
    ensures (set f | f in FactsAsOf(edges, cluster, v, x)) == FactsValidAt(edges, cluster, v)
  {
    forall f
      ensures f in FactsAsOf(edges, cluster, v, x) <==> f in FactsValidAt(edges, cluster, v)
    {
      AsOfFinds(edges, cluster, v, x, f);
      if f in FactsValidAt(edges, cluster, v) {
        var e :| e in edges && ValidAt(e, cluster, v) && e.fact == f;
        var i :| 0 <= i < |edges| && edges[i] == e;
      }
    }
  }

  /** A retraction hides exactly the facts it selects, from then on and for all valid times.
      What was believed before stays as it was. */
  lemma RetractionHides(edges: seq<Edge>, sel: Selector, validAt: real, now: real, cluster: string, v: real, x: real, f: Fact)
    requires forall i :: 0 <= i < |edges| && edges[i].retracted.Some? ==> edges[i].retracted.value <= now
    ensures f in FactsAsOf(Apply(edges, Retract(sel), validAt, now), cluster, v, x) <==>
            f in FactsAsOf(edges, cluster, v, x) &&
            (x < now || !(f.cluster == sel.cluster && f.src == sel.src && f.rel == sel.rel && (sel.dst.Some? ==> f.dst == sel.dst.value)))
  {
    var after := Apply(edges, Retract(sel), validAt, now);
    forall i | 0 <= i < |edges|
      ensures after[i].fact == edges[i].fact
      ensures VisibleAt(after[i], cluster, v, x) <==> VisibleAt(edges[i], cluster, v, x) && (x < now || !Selects(sel, edges[i].fact))
    {
      assert after[i] == Stamp(edges[i], Retract(sel), validAt, now);
    }
    hide Apply, VisibleAt, FactsAsOf, Selects;
    VisibleDecides(edges, cluster, v, x, f);
    VisibleDecides(after, cluster, v, x, f);
    if i :| 0 <= i < |edges| && edges[i].fact == f && VisibleAt(edges[i], cluster, v, x) && (x < now || !Selects(sel, f)) {
      assert after[i].fact == f && VisibleAt(after[i], cluster, v, x);
    }
  }

  lemma VisibleDecides(edges: seq<Edge>, cluster: string, v: real, x: real, f: Fact)
    ensures f in FactsAsOf(edges, cluster, v, x) <==>
            exists i :: 0 <= i < |edges| && edges[i].fact == f && VisibleAt(edges[i], cluster, v, x)
  {
    hide FactsAsOf;
    AsOfFinds(edges, cluster, v, x, f);
  }

  // ---- One node per pod ----

  const RUNS_ON := "runs_on"

  /** No pod has two open runs_on edges. */
  ghost predicate OneNodePerPod(edges: seq<Edge>) {
    forall i, j :: 0 <= i < j < |edges| && SamePod(edges[i].fact, edges[j].fact) ==> !(Open(edges[i]) && Open(edges[j]))
  }

  predicate SamePod(f: Fact, g: Fact) {
    f.rel == RUNS_ON && g.rel == RUNS_ON && f.cluster == g.cluster && f.src == g.src
  }

  // ---- The change log ----

  datatype Change = Change(opens: bool, at: real, fact: Fact)

  predicate InWindow(t: real, t1: real, t2: real) { t1 < t <= t2 }

  function ChangesOf(e: Edge, t1: real, t2: real): seq<Change> {
    (if InWindow(e.from, t1, t2) then [Change(true, e.from, e.fact)] else []) +
    (if e.to.Some? && InWindow(e.to.value, t1, t2) then [Change(false, e.to.value, e.fact)] else [])
  }

  function Collect(edges: seq<Edge>, cluster: string, t1: real, t2: real): seq<Change> {
    if edges == [] then []
    else (if edges[0].fact.cluster == cluster then ChangesOf(edges[0], t1, t2) else []) + Collect(edges[1..], cluster, t1, t2)
  }

  function FromTime(e: Edge): real { e.from }

  function ChangeTime(c: Change): real { c.at }

  /** The rows ORDER BY valid_from, their changes stably sorted by time. */
  function ChangeLog(edges: seq<Edge>, cluster: string, t1: real, t2: real): seq<Change> {
    SortBy(Collect(SortBy(edges, FromTime), cluster, t1, t2), ChangeTime)
  }

  ghost predicate IsChange(edges: seq<Edge>, cluster: string, t1: real, t2: real, c: Change) {
    exists e :: e in edges && e.fact.cluster == cluster && c in ChangesOf(e, t1, t2)
  }

  lemma {:induction false} CollectFinds(edges: seq<Edge>, cluster: string, t1: real, t2: real, c: Change)
    ensures c in Collect(edges, cluster, t1, t2) <==> IsChange(edges, cluster, t1, t2, c)
  {
    if edges != [] {
      CollectFinds(edges[1..], cluster, t1, t2, c);
      assert forall e :: e in edges <==> e == edges[0] || e in edges[1..];
    }
  }

  /** The log holds each opening and each closing after t1 and up to t2, and nothing else, in
      the order of their times. */
  lemma LogIsExact(edges: seq<Edge>, cluster: string, t1: real, t2: real, c: Change)
    ensures Ascending(ChangeLog(edges, cluster, t1, t2), ChangeTime)
    ensures c in ChangeLog(edges, cluster, t1, t2) <==>
            t1 < c.at <= t2 &&
            exists e :: e in edges && e.fact == c.fact && e.fact.cluster == cluster && (if c.opens then e.from == c.at else e.to == Some(c.at))
  {
    hide *;
    var rows := SortBy(edges, FromTime);
    LogSorts(rows, edges, cluster, t1, t2, c);
    SortKeepsMembers(Collect(rows, cluster, t1, t2), ChangeTime, c);
    CollectFinds(rows, cluster, t1, t2, c);
    ChangesAreExact(rows, edges, cluster, t1, t2, c);
  }

  lemma LogSorts(rows: seq<Edge>, edges: seq<Edge>, cluster: string, t1: real, t2: real, c: Change)
    requires rows == SortBy(edges, FromTime)
    ensures ChangeLog(edges, cluster, t1, t2) == SortBy(Collect(rows, cluster, t1, t2), ChangeTime)
    ensures Ascending(ChangeLog(edges, cluster, t1, t2), ChangeTime)
    ensures forall e :: e in rows <==> e in edges
  {
    SortBySorts(Collect(rows, cluster, t1, t2), ChangeTime);
    forall e
      ensures e in rows <==> e in edges
    {
      SortKeepsMembers(edges, FromTime, e);
    }
  }

  lemma ChangesAreExact(rows: seq<Edge>, edges: seq<Edge>, cluster: string, t1: real, t2: real, c: Change)
    requires forall e :: e in rows <==> e in edges
    ensures IsChange(rows, cluster, t1, t2, c) <==>
            t1 < c.at <= t2 &&
            exists e :: e in edges && e.fact == c.fact && e.fact.cluster == cluster && (if c.opens then e.from == c.at else e.to == Some(c.at))
  {
  }

  function Replay(facts: set<Fact>, cs: seq<Change>): set<Fact> {
    if cs == [] then facts
    else
      var c := cs[|cs| - 1];
      var before := Replay(facts, cs[..|cs| - 1]);
      if c.opens then before + {c.fact} else before - {c.fact}
  }

  predicate ValidAt(e: Edge, cluster: string, t: real) {
    e.fact.cluster == cluster && e.from <= t && (e.to.None? || e.to.value > t)
  }

  function FactsValidAt(edges: seq<Edge>, cluster: string, t: real): set<Fact> {
    set e | e in edges && ValidAt(e, cluster, t) :: e.fact
  }

  /** The position of the last change of a fact, or -1. */
  function LastChange(cs: seq<Change>, f: Fact): (k: int)
    ensures -1 <= k < |cs|
    ensures k >= 0 ==> cs[k].fact == f
    ensures forall i :: k < i < |cs| ==> cs[i].fact != f
  {
    if cs == [] then -1 else if cs[|cs| - 1].fact == f then |cs| - 1 else LastChange(cs[..|cs| - 1], f)
  }

  lemma {:induction false} ReplayKeepsTheLast(facts: set<Fact>, cs: seq<Change>, f: Fact)
    ensures f in Replay(facts, cs) <==>
            if LastChange(cs, f) < 0 then f in facts else cs[LastChange(cs, f)].opens
  {
    if cs != [] {
      ReplayKeepsTheLast(facts, cs[..|cs| - 1], f);
    }
  }

  /** Replaying the change log of (t1, t2] on the facts valid at t1 gives those valid at t2. */
  lemma ChangesReplay(edges: seq<Edge>, cluster: string, t1: real, t2: real, next: real)
    requires Consistent(edges, next) && t1 <= t2
    ensures Replay(FactsValidAt(edges, cluster, t1), ChangeLog(edges, cluster, t1, t2)) == FactsValidAt(edges, cluster, t2)
  {
    var cs, facts := ChangeLog(edges, cluster, t1, t2), FactsValidAt(edges, cluster, t1);
    SortedStays(edges, FromTime);
    SortBySorts(Collect(edges, cluster, t1, t2), ChangeTime);
    forall c
      ensures c in cs <==> IsChange(edges, cluster, t1, t2, c)
    {
      SortKeepsMembers(Collect(edges, cluster, t1, t2), ChangeTime, c);
      CollectFinds(edges, cluster, t1, t2, c);
    }
    forall f
      ensures f in Replay(facts, cs) <==> f in FactsValidAt(edges, cluster, t2)
    {
      ReplayKeepsTheLast(facts, cs, f);
      LastChangeDecides(edges, cluster, t1, t2, next, cs, f);
    }
  }

  lemma LastChangeDecides(edges: seq<Edge>, cluster: string, t1: real, t2: real, next: real, cs: seq<Change>, f: Fact)
    requires Consistent(edges, next) && t1 <= t2 && Ascending(cs, ChangeTime)
    requires forall c :: c in cs <==> IsChange(edges, cluster, t1, t2, c)
    ensures f in FactsValidAt(edges, cluster, t2) <==>
            if LastChange(cs, f) < 0 then f in FactsValidAt(edges, cluster, t1) else cs[LastChange(cs, f)].opens
  {
    var k := LastChange(cs, f);
    forall e | e in edges && e.fact == f && f.cluster == cluster
      ensures InWindow(e.from, t1, t2) ==> k >= 0 && e.from <= cs[k].at
      ensures e.to.Some? && InWindow(e.to.value, t1, t2) ==> k >= 0 && e.to.value <= cs[k].at
    {
      if InWindow(e.from, t1, t2) {
        ChangeIsNotAfterLast(cs, f, Change(true, e.from, f), edges, cluster, t1, t2, e);
      }
      if e.to.Some? && InWindow(e.to.value, t1, t2) {
        ChangeIsNotAfterLast(cs, f, Change(false, e.to.value, f), edges, cluster, t1, t2, e);
      }
    }
    if k < 0 {
      SilenceMeansSame(edges, cluster, t1, t2, f);
    } else {
      assert cs[k] in cs;
      var e :| e in edges && e.fact.cluster == cluster && cs[k] in ChangesOf(e, t1, t2);
      assert e.fact == f;
      if cs[k].opens {
        assert ValidAt(e, cluster, t2);
      } else {
        ClosedLastMeansNotValid(edges, cluster, t1, t2, next, e, f);
      }
    }
  }

  lemma ChangeIsNotAfterLast(cs: seq<Change>, f: Fact, c: Change, edges: seq<Edge>, cluster: string, t1: real, t2: real, e: Edge)
    requires Ascending(cs, ChangeTime) && c.fact == f && e in edges && e.fact.cluster == cluster && c in ChangesOf(e, t1, t2)
    requires forall x :: x in cs <==> IsChange(edges, cluster, t1, t2, x)
    ensures LastChange(cs, f) >= 0 && c.at <= cs[LastChange(cs, f)].at
  {
    assert c in cs;
    var i :| 0 <= i < |cs| && cs[i] == c;
  }

  lemma SilenceMeansSame(edges: seq<Edge>, cluster: string, t1: real, t2: real, f: Fact)
    requires t1 <= t2
    requires forall e :: e in edges && e.fact == f && f.cluster == cluster ==>
               !InWindow(e.from, t1, t2) && (e.to.Some? ==> !InWindow(e.to.value, t1, t2))
    requires forall e :: e in edges && e.to.Some? ==> e.from < e.to.value
    ensures f in FactsValidAt(edges, cluster, t2) <==> f in FactsValidAt(edges, cluster, t1)
  {
    forall e | e in edges && e.fact == f
      ensures ValidAt(e, cluster, t1) <==> ValidAt(e, cluster, t2)
    {
    }
  }

  lemma ClosedLastMeansNotValid(edges: seq<Edge>, cluster: string, t1: real, t2: real, next: real, e: Edge, f: Fact)
    requires Consistent(edges, next) && e in edges && e.fact == f && f.cluster == cluster
    requires e.to.Some? && InWindow(e.to.value, t1, t2)
    requires forall g :: g in edges && g.fact == f && InWindow(g.from, t1, t2) ==> g.from <= e.to.value
    ensures f !in FactsValidAt(edges, cluster, t2)
  {
    forall g | g in edges && g.fact == f
      ensures !ValidAt(g, cluster, t2)
    {
      var i :| 0 <= i < |edges| && edges[i] == e;
      var j :| 0 <= j < |edges| && edges[j] == g;
      assert i < j ==> EndsBefore(e, g);
      assert j < i ==> EndsBefore(g, e);
      assert StampedBefore(e, next);
    }
  }

  // ---- Pod observations ----

  datatype Observation = Observation(kind: string, cluster: string, namespace: string, name: string, deleted: bool,
                                     node: string, owner: string)

  function PodOf(o: Observation): Entity { Entity("Pod", o.namespace, o.name) }

  /** strings.Cut(owner, "/"). */
  function CutSlash(s: string): Option<(string, string)> {
    if s == "" then None
    else if s[0] == '/' then Some(("", s[1..]))
    else
      var rest := CutSlash(s[1..]);
      if rest.None? then None else Some(([s[0]] + rest.value.0, rest.value.1))
  }

  /** The dst of the first open runs_on edge of a pod. */
  function OpenNode(edges: seq<Edge>, cluster: string, pod: Entity): Option<Entity> {
    if edges == [] then None
    else if SamePod(edges[0].fact, Fact(cluster, pod, RUNS_ON, pod)) && Open(edges[0]) then Some(edges[0].fact.dst)
    else OpenNode(edges[1..], cluster, pod)
  }

  function PlaceWrites(edges: seq<Edge>, o: Observation, attrs: string): seq<Write> {
    if o.node == "" then []
    else
      var pod, node := PodOf(o), Entity("Node", "", o.node);
      var cur := OpenNode(edges, o.cluster, pod);
      (if cur.Some? && cur.value != node then [CloseEdge(Selector(o.cluster, pod, RUNS_ON, None))] else []) +
      [OpenEdge(Fact(o.cluster, pod, RUNS_ON, node), attrs)]
  }

  function OwnWrites(o: Observation, attrs: string): seq<Write> {
    var owner := CutSlash(o.owner);
    if owner.None? then []
    else [OpenEdge(Fact(o.cluster, Entity(owner.value.0, o.namespace, owner.value.1), "owns", PodOf(o)), attrs)]
  }

  /** The writes that one observation makes, given the table it finds. */
  function IngestWrites(edges: seq<Edge>, o: Observation, attrs: string): seq<Write> {
    if o.kind != "pod_status" then []
    else if o.deleted then [CloseAll(o.cluster, PodOf(o))]
    else PlaceWrites(edges, o, attrs) + OwnWrites(o, attrs)
  }

  ghost predicate Writes(h: seq<Stamped>, ws: seq<Write>) {
    |h| == |ws| && forall i :: 0 <= i < |h| ==> h[i].write == ws[i]
  }

  lemma {:induction false} OpenNodeFinds(edges: seq<Edge>, cluster: string, pod: Entity)
    ensures OpenNode(edges, cluster, pod).None? ==>
              forall i :: 0 <= i < |edges| && SamePod(edges[i].fact, Fact(cluster, pod, RUNS_ON, pod)) ==> !Open(edges[i])
    ensures OpenNode(edges, cluster, pod).Some? ==>
              exists i :: 0 <= i < |edges| && edges[i].fact == Fact(cluster, pod, RUNS_ON, OpenNode(edges, cluster, pod).value) && Open(edges[i])
  {
    if edges != [] {
      OpenNodeFinds(edges[1..], cluster, pod);
      if !(SamePod(edges[0].fact, Fact(cluster, pod, RUNS_ON, pod)) && Open(edges[0])) && OpenNode(edges, cluster, pod).Some? {
        var i :| 0 <= i < |edges[1..]| && edges[1..][i].fact == Fact(cluster, pod, RUNS_ON, OpenNode(edges, cluster, pod).value) && Open(edges[1..][i]);
        assert edges[i + 1] == edges[1..][i];
      }
    }
  }

  /** No write but the opening of a runs_on edge adds to the open edges of a pod. */
  lemma OtherWritesKeepOneNode(edges: seq<Edge>, w: Write, validAt: real, now: real)
    requires OneNodePerPod(edges) && (w.OpenEdge? ==> w.fact.rel != RUNS_ON)
    ensures OneNodePerPod(Apply(edges, w, validAt, now))
  {
  }

  /** The only open runs_on edge of a pod, if there is one, leads to this node. */
  ghost predicate OnlyOn(edges: seq<Edge>, cluster: string, pod: Entity, node: Entity) {
    forall i :: 0 <= i < |edges| && SamePod(edges[i].fact, Fact(cluster, pod, RUNS_ON, pod)) && Open(edges[i]) ==>
                  edges[i].fact.dst == node
  }

  lemma OpenOnTheOnlyNode(edges: seq<Edge>, f: Fact, attrs: string, validAt: real, now: real)
    requires OneNodePerPod(edges) && f.rel == RUNS_ON && OnlyOn(edges, f.cluster, f.src, f.dst)
    ensures
      var after := Apply(edges, OpenEdge(f, attrs), validAt, now);
      OneNodePerPod(after) && HasOpen(after, f) && OnlyOn(after, f.cluster, f.src, f.dst)
  {
    var after := Apply(edges, OpenEdge(f, attrs), validAt, now);
    if !HasOpen(edges, f) {
      assert after[|edges|].fact == f && Open(after[|edges|]);
      assert forall i :: 0 <= i < |edges| && SamePod(edges[i].fact, f) ==> edges[i].fact == f || !Open(edges[i]);
    }
  }

  lemma MovedPodIsNowhere(edges: seq<Edge>, cluster: string, pod: Entity, node: Entity)
    requires OneNodePerPod(edges)
    requires var cur := OpenNode(edges, cluster, pod); cur.None? || cur.value == node
    ensures OnlyOn(edges, cluster, pod, node)
  {
    OpenNodeFinds(edges, cluster, pod);
  }

  /** What an observation leaves behind, whatever stamps its writes use: still one node
      per pod, the observed node open, and nothing open around a deleted pod. */
  lemma IngestKeepsOneNode(edges: seq<Edge>, o: Observation, attrs: string, h: seq<Stamped>)
    requires OneNodePerPod(edges) && Writes(h, IngestWrites(edges, o, attrs))
    ensures
      var after, pod, node := RunWrites(edges, h), PodOf(o), Entity("Node", "", o.node);
      OneNodePerPod(after) &&
      (o.kind == "pod_status" && o.deleted ==>
         forall e :: e in after && e.fact.cluster == o.cluster && (e.fact.src == pod || e.fact.dst == pod) ==> !Open(e)) &&
      (o.kind == "pod_status" && !o.deleted && o.node != "" ==>
         HasOpen(after, Fact(o.cluster, pod, RUNS_ON, node)) && OnlyOn(after, o.cluster, pod, node))
  {
    var ws, pod, node := IngestWrites(edges, o, attrs), PodOf(o), Entity("Node", "", o.node);
    if o.kind != "pod_status" {
    } else if o.deleted {
      RunOne(edges, h);
      OtherWritesKeepOneNode(edges, h[0].write, h[0].validAt, h[0].now);
    } else {
      var placed, rest := edges, h;
      if o.node != "" {
        var cur := OpenNode(edges, o.cluster, pod);
        if cur.Some? && cur.value != node {
          placed, rest := Apply(edges, h[0].write, h[0].validAt, h[0].now), h[1..];
          OtherWritesKeepOneNode(edges, h[0].write, h[0].validAt, h[0].now);
          assert OnlyOn(placed, o.cluster, pod, node);
        } else {
          MovedPodIsNowhere(edges, o.cluster, pod, node);
        }
        OpenOnTheOnlyNode(placed, rest[0].write.fact, attrs, rest[0].validAt, rest[0].now);
        placed, rest := Apply(placed, rest[0].write, rest[0].validAt, rest[0].now), rest[1..];
      }
      assert RunWrites(edges, h) == RunWrites(placed, rest);
      if rest != [] {
        OtherWritesKeepOneNode(placed, rest[0].write, rest[0].validAt, rest[0].now);
        RunOne(placed, rest);
        OwnsKeepsPlace(placed, rest[0], o.cluster, pod, node);
      }
    }
  }

  /** The fact is one that an observation of this pod may close. */
  predicate Concerns(o: Observation, f: Fact) {
    var pod := Entity("Pod", o.namespace, o.name);
    f.cluster == o.cluster && if o.deleted then f.src == pod || f.dst == pod else f.src == pod && f.rel == "runs_on"
  }

  /** And what it leaves alone: of a pod that is still there it closes no edge but its place,
      of a deleted pod only the edges at it, and never in another cluster. Every other row
      stays as it is, and rows are only added. */
  lemma IngestSpares(edges: seq<Edge>, o: Observation, attrs: string, h: seq<Stamped>, i: nat)
    requires Writes(h, IngestWrites(edges, o, attrs)) && i < |edges|
    ensures i < |RunWrites(edges, h)|
    ensures !(o.kind == "pod_status" && Concerns(o, edges[i].fact)) ==> RunWrites(edges, h)[i] == edges[i]
    ensures RunWrites(edges, h)[i].(to := None) == edges[i].(to := None)
  {
    RunSpares(edges, h, o, i);
  }

  lemma {:induction false} RunSpares(edges: seq<Edge>, h: seq<Stamped>, o: Observation, i: nat)
    requires i < |edges|
    requires forall k :: 0 <= k < |h| ==> o.kind == "pod_status" && MayMake(o, h[k].write)
    ensures i < |RunWrites(edges, h)|
    ensures !(o.kind == "pod_status" && Concerns(o, edges[i].fact)) ==> RunWrites(edges, h)[i] == edges[i]
    ensures RunWrites(edges, h)[i].(to := None) == edges[i].(to := None)
    decreases |h|
  {
    if h != [] {
      assert MayMake(o, h[0].write);
      RunSpares(Apply(edges, h[0].write, h[0].validAt, h[0].now), h[1..], o, i);
    }
  }

  /** The writes that an observation may make. */
  predicate MayMake(o: Observation, w: Write) {
    match w
    case OpenEdge(_, _) => !o.deleted
    case CloseEdge(sel) => !o.deleted && sel == Selector(o.cluster, PodOf(o), RUNS_ON, None)
    case CloseAll(cluster, entity) => o.deleted && cluster == o.cluster && entity == PodOf(o)
    case _ => false
  }

  lemma OwnsKeepsPlace(edges: seq<Edge>, s: Stamped, cluster: string, pod: Entity, node: Entity)
    requires s.write.OpenEdge? && s.write.fact.rel == "owns"
    ensures
      var after, f := Apply(edges, s.write, s.validAt, s.now), Fact(cluster, pod, RUNS_ON, node);
      (HasOpen(edges, f) ==> HasOpen(after, f)) && (OnlyOn(edges, cluster, pod, node) ==> OnlyOn(after, cluster, pod, node))
  {
    var after, f := Apply(edges, s.write, s.validAt, s.now), Fact(cluster, pod, RUNS_ON, node);
    if HasOpen(edges, f) {
      var i :| 0 <= i < |edges| && edges[i].fact == f && Open(edges[i]);
      assert after[i] == edges[i];
    }
  }

  lemma {:induction false} CutSlashCuts(kind: string, name: string)
    requires '/' !in kind
    ensures CutSlash(kind + "/" + name) == Some((kind, name)) && CutSlash(kind) == None
  {
    if kind == "" {
      assert (kind + "/" + name)[1..] == name;
    } else {
      CutSlashCuts(kind[1..], name);
      assert (kind + "/" + name)[1..] == kind[1..] + "/" + name;
      assert [kind[0]] + kind[1..] == kind;
    }
  }

  /** An observation that names its owner as kind/name leaves an open owns edge from that
      workload, in the pod's namespace, to the pod. Without a slash there is no owner, and
      the open owns edges stay as they are. */
  lemma IngestOwnsPod(edges: seq<Edge>, o: Observation, attrs: string, h: seq<Stamped>, kind: string, name: string)
    requires Writes(h, IngestWrites(edges, o, attrs)) && o.kind == "pod_status" && !o.deleted && '/' !in kind
    ensures o.owner == kind + "/" + name ==>
              HasOpen(RunWrites(edges, h), Fact(o.cluster, Entity(kind, o.namespace, name), "owns", Entity("Pod", o.namespace, o.name)))
    ensures o.owner == kind ==> forall f: Fact :: f.rel == "owns" ==> (HasOpen(RunWrites(edges, h), f) <==> HasOpen(edges, f))
  {
    CutSlashCuts(kind, name);
    var ws, n := IngestWrites(edges, o, attrs), |PlaceWrites(edges, o, attrs)|;
    if o.owner == kind + "/" + name {
      var f := Fact(o.cluster, Entity(kind, o.namespace, name), "owns", PodOf(o));
      assert ws[n] == OpenEdge(f, attrs) && |h| == n + 1 && h[..n] + [h[n]] == h;
      RunAppend(edges, h[..n], h[n]);
      OpeningOpens(RunWrites(edges, h[..n]), f, attrs, h[n].validAt, h[n].now);
    } else if o.owner == kind {
      forall f: Fact | f.rel == "owns"
        ensures HasOpen(RunWrites(edges, h), f) <==> HasOpen(edges, f)
      {
        PlacingSparesOwners(edges, h, f);
      }
    }
  }

  lemma OpeningOpens(edges: seq<Edge>, f: Fact, attrs: string, validAt: real, now: real)
    ensures HasOpen(Apply(edges, OpenEdge(f, attrs), validAt, now), f)
  {
    var after := Apply(edges, OpenEdge(f, attrs), validAt, now);
    assert !HasOpen(edges, f) ==> after[|edges|].fact == f;
  }

  lemma {:induction false} PlacingSparesOwners(edges: seq<Edge>, h: seq<Stamped>, f: Fact)
    requires f.rel == "owns"
    requires forall i :: 0 <= i < |h| ==>
               (h[i].write.OpenEdge? && h[i].write.fact.rel == RUNS_ON) || (h[i].write.CloseEdge? && h[i].write.sel.rel == RUNS_ON)
    ensures HasOpen(RunWrites(edges, h), f) <==> HasOpen(edges, f)
    decreases |h|
  {
    if h != [] {
      var after := Apply(edges, h[0].write, h[0].validAt, h[0].now);
      assert forall i :: 0 <= i < |edges| && edges[i].fact == f ==> after[i] == edges[i];
      assert forall i :: 0 <= i < |after| && after[i].fact == f ==> i < |edges| && edges[i].fact == f;
      PlacingSparesOwners(after, h[1..], f);
    }
  }

  lemma RunOne(edges: seq<Edge>, h: seq<Stamped>)
    requires |h| == 1
    ensures RunWrites(edges, h) == Apply(edges, h[0].write, h[0].validAt, h[0].now)
  {
  }

  /** A history of observations, mixed with any other writes. */
  datatype GraphStep = Observed(o: Observation, attrs: string, h: seq<Stamped>) | Other(s: Stamped)

  ghost predicate IsStep(edges: seq<Edge>, step: GraphStep) {
    step.Observed? ==> Writes(step.h, IngestWrites(edges, step.o, step.attrs))
  }

  function Taken(edges: seq<Edge>, step: GraphStep): seq<Edge> {
    match step
    case Observed(_, _, h) => RunWrites(edges, h)
    case Other(s) => Apply(edges, s.write, s.validAt, s.now)
  }

  ghost predicate IsHistory(edges: seq<Edge>, steps: seq<GraphStep>)
    decreases |steps|
  {
    steps == [] || (IsStep(edges, steps[0]) && IsHistory(Taken(edges, steps[0]), steps[1..]))
  }

  ghost predicate OneNodeThroughout(edges: seq<Edge>, steps: seq<GraphStep>)
    decreases |steps|
  {
    OneNodePerPod(edges) && (steps == [] || OneNodeThroughout(Taken(edges, steps[0]), steps[1..]))
  }

  /** Outside of ingestion, every opening of a runs_on edge finds the pod on no other node. */
  ghost predicate OpensInPlace(edges: seq<Edge>, steps: seq<GraphStep>)
    decreases |steps|
  {
    steps == [] ||
    ((steps[0].Other? ==> OpensOnlyNode(edges, steps[0].s.write)) && OpensInPlace(Taken(edges, steps[0]), steps[1..]))
  }

  ghost predicate OpensOnlyNode(edges: seq<Edge>, w: Write) {
    w.OpenEdge? && w.fact.rel == RUNS_ON ==> OnlyOn(edges, w.fact.cluster, w.fact.src, w.fact.dst)
  }

  /** One write keeps one node per pod if and only if it does not open a runs_on edge of a
      pod that has one to another node. Closing it first is left to the caller. */
  lemma WriteKeepsOneNode(edges: seq<Edge>, w: Write, validAt: real, now: real)
    requires OneNodePerPod(edges)
    ensures OneNodePerPod(Apply(edges, w, validAt, now)) <==> OpensOnlyNode(edges, w)
  {
    var after := Apply(edges, w, validAt, now);
    if w.OpenEdge? && w.fact.rel == RUNS_ON {
      if OnlyOn(edges, w.fact.cluster, w.fact.src, w.fact.dst) {
        OpenOnTheOnlyNode(edges, w.fact, w.attrs, validAt, now);
      } else {
        ElsewhereMeansTwo(edges, w.fact, w.attrs, validAt, now);
      }
    } else {
      OtherWritesKeepOneNode(edges, w, validAt, now);
    }
  }

  lemma ElsewhereMeansTwo(edges: seq<Edge>, f: Fact, attrs: string, validAt: real, now: real)
    requires OneNodePerPod(edges) && f.rel == RUNS_ON && !OnlyOn(edges, f.cluster, f.src, f.dst)
    ensures !OneNodePerPod(Apply(edges, OpenEdge(f, attrs), validAt, now))
  {
    var after := Apply(edges, OpenEdge(f, attrs), validAt, now);
    var i: nat :| i < |edges| && SamePod(edges[i].fact, Fact(f.cluster, f.src, RUNS_ON, f.src)) && Open(edges[i]) && edges[i].fact.dst != f.dst;
    ElsewhereOnly(edges, f, i);
    assert after[i] == edges[i] && SamePod(after[i].fact, after[|edges|].fact) && Open(after[|edges|]);
  }

  lemma ElsewhereOnly(edges: seq<Edge>, f: Fact, i: nat)
    requires OneNodePerPod(edges) && f.rel == RUNS_ON && i < |edges| && Open(edges[i])
    requires SamePod(edges[i].fact, Fact(f.cluster, f.src, RUNS_ON, f.src)) && edges[i].fact.dst != f.dst
    ensures !HasOpen(edges, f)
  {
    forall k | 0 <= k < |edges| && edges[k].fact == f
      ensures !Open(edges[k])
    {
      assert SamePod(edges[i].fact, edges[k].fact) && SamePod(edges[k].fact, edges[i].fact);
    }
  }

  /** Over every history a pod has at most one open runs_on edge after each step, if and
      only if every opening outside of ingestion finds the pod on no other node. */
  lemma {:induction false} RunKeepsOneNode(edges: seq<Edge>, steps: seq<GraphStep>)
    requires OneNodePerPod(edges) && IsHistory(edges, steps)
    ensures OneNodeThroughout(edges, steps) <==> OpensInPlace(edges, steps)
    decreases |steps|
  {
    if steps != [] {
      match steps[0] {
        case Observed(o, attrs, h) => IngestKeepsOneNode(edges, o, attrs, h);
        case Other(s) => WriteKeepsOneNode(edges, s.write, s.validAt, s.now);
      }
      if OneNodePerPod(Taken(edges, steps[0])) {
        RunKeepsOneNode(Taken(edges, steps[0]), steps[1..]);
      }
    }
  }

  // ---- Reconciling a candidate fact ----

  const SALIENCE_FLOOR: real := 0.2
  const RETRACT_FLOOR: real := 0.5
  const NO_ATTRS := ""

  predicate Functional(rel: string) { rel == RUNS_ON || rel == "has_status" }

  /** Currently true and currently believed. */
  predicate Current(e: Edge) { Open(e) && e.retracted.None? }

  ghost predicate Believed(edges: seq<Edge>, f: Fact) {
    exists i :: 0 <= i < |edges| && edges[i].fact == f && Current(edges[i])
  }

  /** Opening a fact makes it believed, or leaves it so, if and only if it is not in the
      table open and retracted: the opening then finds it and does nothing. */
  lemma OpeningBelieves(edges: seq<Edge>, f: Fact, attrs: string, validAt: real, now: real)
    ensures Believed(Apply(edges, OpenEdge(f, attrs), validAt, now), f) <==> Believed(edges, f) || !HasOpen(edges, f)
  {
    var after := Apply(edges, OpenEdge(f, attrs), validAt, now);
    if !HasOpen(edges, f) {
      assert after[|edges|].fact == f && Current(after[|edges|]);
    }
  }

  function Exactly(f: Fact): Selector { Selector(f.cluster, f.src, f.rel, Some(f.dst)) }

  function FromSource(f: Fact): Selector { Selector(f.cluster, f.src, f.rel, None) }

  /** The first current row the selector finds, or the length of the table. */
  function FirstCurrent(edges: seq<Edge>, sel: Selector): (i: nat)
    ensures i <= |edges|
    ensures i < |edges| ==> Selects(sel, edges[i].fact) && Current(edges[i])
    ensures forall k :: 0 <= k < i ==> !(Selects(sel, edges[k].fact) && Current(edges[k]))
  {
    if edges == [] || (Selects(sel, edges[0].fact) && Current(edges[0])) then 0 else 1 + FirstCurrent(edges[1..], sel)
  }

  datatype Answer = Noop | Update(index: nat, attrs: string) | Supersede(other: Entity) | Add

  /** What ReconcileEdge decides. merge is the union of two attribute sets. */
  function Reconcile(edges: seq<Edge>, f: Fact, attrs: string, score: real, merge: (string, string) -> string): Answer {
    var same, rival := FirstCurrent(edges, Exactly(f)), FirstCurrent(edges, FromSource(f));
    if score < SALIENCE_FLOOR then Noop
    else if same < |edges| then
      var merged := merge(edges[same].attrs, attrs);
      if attrs == NO_ATTRS || merged == edges[same].attrs then Noop else Update(same, merged)
    else if Functional(f.rel) && score >= RETRACT_FLOOR && rival < |edges| && edges[rival].fact.dst != f.dst
    then Supersede(edges[rival].fact.dst)
    else Add
  }

  /** What a reconciliation leaves in the table. */
  function Reconciled(edges: seq<Edge>, f: Fact, attrs: string, answer: Answer, t: real, validAt: real, now: real): seq<Edge> {
    match answer
    case Noop => edges
    case Update(index, merged) => Apply(edges, Amend(index, merged), validAt, now)
    case Supersede(other) => Apply(Apply(edges, Retract(Exactly(f.(dst := other))), t, t), OpenEdge(f, attrs), validAt, now)
    case Add => Apply(edges, OpenEdge(f, attrs), validAt, now)
  }

  /** At most one current edge leads from the fact's source along its relation. */
  ghost predicate OneCurrent(edges: seq<Edge>, f: Fact) {
    forall i, j :: 0 <= i < j < |edges| && Selects(FromSource(f), edges[i].fact) && Selects(FromSource(f), edges[j].fact) ==>
                     !(Current(edges[i]) && Current(edges[j]))
  }

  /** A salient candidate is believed afterwards, whatever the answer says, if and only if
      it was believed before or is not in the table open and retracted. */
  lemma ReconcilingBelieves(edges: seq<Edge>, f: Fact, attrs: string, score: real, merge: (string, string) -> string, t: real, validAt: real, now: real)
    requires score >= SALIENCE_FLOOR
    ensures Believed(Reconciled(edges, f, attrs, Reconcile(edges, f, attrs, score, merge), t, validAt, now), f) <==>
            Believed(edges, f) || !HasOpen(edges, f)
  {
    var answer, same := Reconcile(edges, f, attrs, score, merge), FirstCurrent(edges, Exactly(f));
    match answer {
      case Noop => assert edges[same].fact == f && Current(edges[same]);
      case Update(index, _) =>
        var after := Reconciled(edges, f, attrs, answer, t, validAt, now);
        assert after[index].fact == f && Current(after[index]) && edges[index].fact == f;
      case Supersede(other) =>
        var mid := Apply(edges, Retract(Exactly(f.(dst := other))), t, t);
        RetractionSpares(edges, mid, f, other, t);
        OpeningBelieves(mid, f, attrs, validAt, now);
      case Add => OpeningBelieves(edges, f, attrs, validAt, now);
    }
  }

  lemma RetractionSpares(edges: seq<Edge>, mid: seq<Edge>, f: Fact, other: Entity, t: real)
    requires mid == Apply(edges, Retract(Exactly(f.(dst := other))), t, t) && other != f.dst
    ensures (Believed(mid, f) <==> Believed(edges, f)) && (HasOpen(mid, f) <==> HasOpen(edges, f))
  {
    forall i | 0 <= i < |edges|
      ensures mid[i].fact == edges[i].fact && (edges[i].fact == f ==> mid[i] == edges[i])
    {
      assert mid[i] == Stamp(edges[i], Retract(Exactly(f.(dst := other))), t, t);
    }
    if HasOpen(edges, f) {
      var i :| 0 <= i < |edges| && edges[i].fact == f && Open(edges[i]);
      assert mid[i] == edges[i];
    }
    if Believed(edges, f) {
      var i :| 0 <= i < |edges| && edges[i].fact == f && Current(edges[i]);
      assert mid[i] == edges[i];
    }
  }

  /** A functional relation keeps at most one current edge per source, unless the candidate
      is salient but not enough to supersede, is not open, and finds another one. */
  lemma ReconcilingKeepsOneCurrent(edges: seq<Edge>, f: Fact, attrs: string, score: real, merge: (string, string) -> string,
                                   t: real, validAt: real, now: real)
    requires f.rel in {"runs_on", "has_status"} && OneCurrent(edges, f)
    ensures
      OneCurrent(Reconciled(edges, f, attrs, Reconcile(edges, f, attrs, score, merge), t, validAt, now), f) <==>
      !(SALIENCE_FLOOR <= score < RETRACT_FLOOR && !HasOpen(edges, f) && FirstCurrent(edges, FromSource(f)) < |edges|)
  {
    hide OneCurrent, Reconciled, Reconcile;
    WrittenKeepsOneCurrent(edges, f, attrs, score, merge, t, validAt, now);
    if !HasOpen(edges, f) && FirstCurrent(edges, FromSource(f)) < |edges| {
      AddsNextToAnother(edges, f, attrs, score, merge);
    }
  }

  lemma WrittenKeepsOneCurrent(edges: seq<Edge>, f: Fact, attrs: string, score: real, merge: (string, string) -> string,
                               t: real, validAt: real, now: real)
    requires OneCurrent(edges, f)
    ensures
      var answer := Reconcile(edges, f, attrs, score, merge);
      OneCurrent(Reconciled(edges, f, attrs, answer, t, validAt, now), f) <==>
      !(answer.Add? && !HasOpen(edges, f) && FirstCurrent(edges, FromSource(f)) < |edges|)
  {
    hide HasOpen;
    match Reconcile(edges, f, attrs, score, merge) {
      case Noop =>
      case Update(index, merged) => AmendKeepsOneCurrent(edges, f, index, merged, validAt, now);
      case Supersede(other) => SupersedeKeepsOneCurrent(edges, f, attrs, other, t, validAt, now);
      case Add => AddKeepsOneCurrent(edges, f, attrs, validAt, now);
    }
  }

  lemma AmendKeepsOneCurrent(edges: seq<Edge>, f: Fact, index: nat, attrs: string, validAt: real, now: real)
    requires OneCurrent(edges, f)
    ensures OneCurrent(Apply(edges, Amend(index, attrs), validAt, now), f)
  {
  }

  lemma CurrentIsOpen(edges: seq<Edge>, f: Fact)
    ensures FirstCurrent(edges, Exactly(f)) < |edges| ==> HasOpen(edges, f)
  {
    var i := FirstCurrent(edges, Exactly(f));
    assert i < |edges| ==> edges[i].fact == f && Open(edges[i]);
  }

  lemma AddsNextToAnother(edges: seq<Edge>, f: Fact, attrs: string, score: real, merge: (string, string) -> string)
    requires Functional(f.rel) && !HasOpen(edges, f) && FirstCurrent(edges, FromSource(f)) < |edges|
    ensures Reconcile(edges, f, attrs, score, merge).Add? <==> SALIENCE_FLOOR <= score < RETRACT_FLOOR
  {
    CurrentIsOpen(edges, f);
    assert edges[FirstCurrent(edges, FromSource(f))].fact != f;
  }

  lemma AddKeepsOneCurrent(edges: seq<Edge>, f: Fact, attrs: string, validAt: real, now: real)
    requires OneCurrent(edges, f)
    ensures OneCurrent(Apply(edges, OpenEdge(f, attrs), validAt, now), f) <==>
            HasOpen(edges, f) || FirstCurrent(edges, FromSource(f)) == |edges|
  {
    var after, rival := Apply(edges, OpenEdge(f, attrs), validAt, now), FirstCurrent(edges, FromSource(f));
    if !HasOpen(edges, f) {
      assert after[|edges|].fact == f && Current(after[|edges|]) && Selects(FromSource(f), after[|edges|].fact);
      if rival < |edges| {
        assert after[rival] == edges[rival];
      } else {
        NoneCurrentThenOne(edges, f, attrs, validAt, now);
      }
    }
  }

  lemma SupersedeKeepsOneCurrent(edges: seq<Edge>, f: Fact, attrs: string, other: Entity, t: real, validAt: real, now: real)
    requires OneCurrent(edges, f) && FirstCurrent(edges, FromSource(f)) < |edges| && edges[FirstCurrent(edges, FromSource(f))].fact.dst == other
    ensures OneCurrent(Reconciled(edges, f, attrs, Supersede(other), t, validAt, now), f)
  {
    var mid := Apply(edges, Retract(Exactly(f.(dst := other))), t, t);
    NoRivalLeft(edges, mid, f, FirstCurrent(edges, FromSource(f)), t);
    NoneCurrentThenOne(mid, f, attrs, validAt, now);
  }

  lemma NoRivalLeft(edges: seq<Edge>, mid: seq<Edge>, f: Fact, k: nat, t: real)
    requires OneCurrent(edges, f) && k < |edges| && Selects(FromSource(f), edges[k].fact) && Current(edges[k])
    requires |mid| == |edges|
    requires forall i :: 0 <= i < |edges| ==> mid[i] == Stamp(edges[i], Retract(Exactly(f.(dst := edges[k].fact.dst))), t, t)
    ensures forall i :: 0 <= i < |mid| && Selects(FromSource(f), mid[i].fact) ==> !Current(mid[i])
  {
    forall i | 0 <= i < |edges| && Selects(FromSource(f), mid[i].fact)
      ensures !Current(mid[i])
    {
      assert Selects(FromSource(f), edges[i].fact);
      assert i != k ==> !Current(edges[i]);
    }
  }

  lemma NoneCurrentThenOne(edges: seq<Edge>, f: Fact, attrs: string, validAt: real, now: real)
    requires forall i :: 0 <= i < |edges| && Selects(FromSource(f), edges[i].fact) ==> !Current(edges[i])
    ensures OneCurrent(Apply(edges, OpenEdge(f, attrs), validAt, now), f)
  {
    var after := Apply(edges, OpenEdge(f, attrs), validAt, now);
    assert forall i :: 0 <= i < |edges| ==> after[i] == edges[i];
  }

  /** Open edges are another matter. Reconciling a pod's node keeps one open runs_on edge if
      and only if the candidate is not salient, is believed already, or finds the pod on no
      other node; and every superseding leaves two. */
  lemma ReconcilingOpensSecondNode(edges: seq<Edge>, f: Fact, attrs: string, score: real, merge: (string, string) -> string,
                                   t: real, validAt: real, now: real)
    requires OneNodePerPod(edges) && f.rel == RUNS_ON
    ensures
      var answer := Reconcile(edges, f, attrs, score, merge);
      var after := Reconciled(edges, f, attrs, answer, t, validAt, now);
      (OneNodePerPod(after) <==> score < SALIENCE_FLOOR || Believed(edges, f) || OnlyOn(edges, f.cluster, f.src, f.dst)) &&
      (answer.Supersede? ==> !OneNodePerPod(after))
  {
    var answer := Reconcile(edges, f, attrs, score, merge);
    WrittenOpensSecondNode(edges, f, attrs, answer, t, validAt, now);
    KnownIffBelieved(edges, f);
    if answer.Supersede? {
      RivalIsElsewhere(edges, f, FirstCurrent(edges, FromSource(f)));
    }
  }

  lemma KnownIffBelieved(edges: seq<Edge>, f: Fact)
    ensures FirstCurrent(edges, Exactly(f)) < |edges| <==> Believed(edges, f)
  {
    var i := FirstCurrent(edges, Exactly(f));
    assert i < |edges| ==> edges[i].fact == f && Current(edges[i]);
  }

  lemma RivalIsElsewhere(edges: seq<Edge>, f: Fact, k: nat)
    requires k < |edges| && f.rel == RUNS_ON && Selects(FromSource(f), edges[k].fact) && Open(edges[k]) && edges[k].fact.dst != f.dst
    ensures !OnlyOn(edges, f.cluster, f.src, f.dst)
  {
    assert SamePod(edges[k].fact, Fact(f.cluster, f.src, RUNS_ON, f.src));
  }

  lemma WrittenOpensSecondNode(edges: seq<Edge>, f: Fact, attrs: string, answer: Answer, t: real, validAt: real, now: real)
    requires OneNodePerPod(edges) && f.rel == RUNS_ON
    ensures OneNodePerPod(Reconciled(edges, f, attrs, answer, t, validAt, now)) <==>
            answer.Noop? || answer.Update? || OnlyOn(edges, f.cluster, f.src, f.dst)
  {
    match answer {
      case Noop =>
      case Update(index, merged) => WriteKeepsOneNode(edges, Amend(index, merged), validAt, now);
      case Supersede(other) =>
        var w := Retract(Exactly(f.(dst := other)));
        var mid := Apply(edges, w, t, t);
        WriteKeepsOneNode(edges, w, t, t);
        assert forall i :: 0 <= i < |edges| ==> mid[i].fact == edges[i].fact && mid[i].to == edges[i].to;
        assert OnlyOn(mid, f.cluster, f.src, f.dst) <==> OnlyOn(edges, f.cluster, f.src, f.dst);
        WriteKeepsOneNode(mid, OpenEdge(f, attrs), validAt, now);
      case Add => WriteKeepsOneNode(edges, OpenEdge(f, attrs), validAt, now);
    }
  }

  /** A salient candidate that is believed already only has its attributes merged into the row
      that is found first, if it brings any; the answer tells whether that changed them. */
  lemma ReconcilingMerges(edges: seq<Edge>, f: Fact, attrs: string, score: real, merge: (string, string) -> string, t: real, validAt: real, now: real)
    requires score >= 0.2 && Believed(edges, f)
    ensures
      var answer, same := Reconcile(edges, f, attrs, score, merge), FirstCurrent(edges, Exactly(f));
      var after := Reconciled(edges, f, attrs, answer, t, validAt, now);
      same < |edges| && edges[same].fact == f && Current(edges[same]) &&
      after == edges[same := edges[same].(attrs := if attrs == "" then edges[same].attrs else merge(edges[same].attrs, attrs))] &&
      (answer.Noop? <==> after == edges) && (answer.Noop? || answer.Update?)
  {
    KnownIffBelieved(edges, f);
  }

  /** Only functional relations are ever superseded, with a high salience; a candidate of none is ignored. */
  lemma OnlyFunctionalIsSuperseded(edges: seq<Edge>, f: Fact, attrs: string, score: real, merge: (string, string) -> string, t: real, validAt: real, now: real)
    ensures var answer := Reconcile(edges, f, attrs, score, merge);
            (answer.Supersede? ==> f.rel in {"runs_on", "has_status"} && score >= 0.5) &&
            (score < 0.2 ==> Reconciled(edges, f, attrs, answer, t, validAt, now) == edges) &&
            (!answer.Supersede? ==> forall i :: 0 <= i < |edges| ==>
               Reconciled(edges, f, attrs, answer, t, validAt, now)[i].retracted == edges[i].retracted)
  {
  }

  /** The count of a retraction is the number of rows that it stamps. */
  lemma {:induction false} UnretractedCounts(edges: seq<Edge>, sel: Selector, k: nat)
    requires k <= |edges|
    ensures Unretracted(edges, sel, k) == |NewlyRetracted(edges, sel, k)|
  {
    if k > 0 {
      UnretractedCounts(edges, sel, k - 1);
      var rows, before := NewlyRetracted(edges, sel, k), NewlyRetracted(edges, sel, k - 1);
      if Selects(sel, edges[k - 1].fact) && edges[k - 1].retracted.None? {
        assert rows == before + {k - 1};
      } else {
        assert rows == before;
      }
    } else {
      assert NewlyRetracted(edges, sel, 0) == {};
    }
  }

  function NewlyRetracted(edges: seq<Edge>, sel: Selector, k: nat): set<int>
    requires k <= |edges|
  {
    set i | 0 <= i < k && Selects(sel, edges[i].fact) && edges[i].retracted.None?
  }

  /** How many of the first k rows a retraction selects that were not retracted before. */
  function Unretracted(edges: seq<Edge>, sel: Selector, k: nat): nat
    requires k <= |edges|
  {
    if k == 0 then 0
    else Unretracted(edges, sel, k - 1) +
         if Selects(sel, edges[k - 1].fact) && edges[k - 1].retracted.None? then 1 else 0
  }

  // ---- The store ----

  class Store {
    const bitemporal: bool
    const clock: nat -> real
    var ticks: nat
    var edges: seq<Edge>

    constructor (bitemporal: bool, clock: nat -> real)
      requires forall i: nat, j: nat :: i < j ==> clock(i) < clock(j)
      ensures Valid() && edges == [] && this.bitemporal == bitemporal
    {
      this.bitemporal := bitemporal;
      this.clock := clock;
      ticks, edges := 0, [];
    }

    ghost predicate Valid()
      reads this
    {
      (forall i: nat, j: nat :: i < j ==> clock(i) < clock(j)) && (!bitemporal ==> Consistent(edges, clock(ticks)))
    }

    /** s.now(): every reading is later than the one before. */
    method Now() returns (t: real)
      requires Valid()
      modifies this`ticks
      ensures Valid() && t == clock(old(ticks)) && ticks == old(ticks) + 1
    {
      t := clock(ticks);
      if !bitemporal {
        LaterIsConsistent(edges, t, clock(ticks + 1));
      }
      ticks := ticks + 1;
    }

    /** orNow(eventTime(t), now). */
    function EventOr(eventTime: real, now: real): (t: real)
      ensures bitemporal && eventTime != 0.0 ==> t == eventTime
      ensures !bitemporal || eventTime == 0.0 ==> t == now
    {
      if eventTime == 0.0 || !bitemporal then now else eventTime
    }

    method OpenEdge(f: Fact, attrs: string, eventTime: real)
      requires Valid()
      modifies this
      ensures Valid() && old(ticks) <= ticks <= old(ticks) + 1
      ensures edges == Apply(old(edges), Write.OpenEdge(f, attrs), EventOr(eventTime, clock(old(ticks))), clock(old(ticks)))
      ensures ticks == old(ticks) ==> edges == old(edges)
    {
      if exists i :: 0 <= i < |edges| && edges[i].fact == f && Open(edges[i]) {
        return;
      }
      ghost var before, t0 := edges, clock(ticks);
      var now := Now();
      edges := edges + [Edge(f, attrs, EventOr(eventTime, now), None, now, None)];
      if !bitemporal {
        WriteKeepsConsistent(before, Write.OpenEdge(f, attrs), t0, clock(ticks));
      }
    }

    method CloseEdge(sel: Selector, eventTime: real)
      requires Valid()
      modifies this
      ensures Valid() && ticks == old(ticks) + 1
      ensures edges == Apply(old(edges), Write.CloseEdge(sel), EventOr(eventTime, clock(old(ticks))), clock(old(ticks)))
    {
      ghost var t0 := clock(ticks);
      var now := Now();
      var vt := EventOr(eventTime, now);
      ghost var w := Write.CloseEdge(sel);
      var i := 0;
      var before := edges;
      while i < |edges|
        invariant |edges| == |before| && i <= |before|
        invariant forall k :: 0 <= k < i ==> edges[k] == Stamp(before[k], w, vt, now)
        invariant forall k :: i <= k < |before| ==> edges[k] == before[k]
        invariant ticks == old(ticks) + 1
      {
        if Selects(sel, edges[i].fact) && Open(edges[i]) {
          edges := edges[i := edges[i].(to := Some(vt))];
        }
        i := i + 1;
      }
      assert edges == Apply(before, w, vt, now);
      if !bitemporal {
        WriteKeepsConsistent(before, w, t0, clock(ticks));
      }
    }

    method CloseAllEdges(cluster: string, entity: Entity)
      requires Valid()
      modifies this
      ensures Valid() && ticks == old(ticks) + 1
      ensures edges == Apply(old(edges), CloseAll(cluster, entity), clock(old(ticks)), clock(old(ticks)))
    {
      ghost var t0 := clock(ticks);
      var now := Now();
      ghost var w := CloseAll(cluster, entity);
      var i := 0;
      var before := edges;
      while i < |edges|
        invariant |edges| == |before| && i <= |before|
        invariant forall k :: 0 <= k < i ==> edges[k] == Stamp(before[k], w, now, now)
        invariant forall k :: i <= k < |before| ==> edges[k] == before[k]
        invariant ticks == old(ticks) + 1
      {
        var f := edges[i].fact;
        if f.cluster == cluster && (f.src == entity || f.dst == entity) && Open(edges[i]) {
          edges := edges[i := edges[i].(to := Some(now))];
        }
        i := i + 1;
      }
      assert edges == Apply(before, w, now, now);
      if !bitemporal {
        WriteKeepsConsistent(before, w, t0, clock(ticks));
      }
    }

    /** Returns how many rows were retracted: those selected and not yet retracted. */
    method RetractEdge(sel: Selector) returns (n: nat)
      requires Valid()
      modifies this
      ensures Valid() && ticks == old(ticks) + 1
      ensures edges == Apply(old(edges), Retract(sel), clock(old(ticks)), clock(old(ticks)))
      ensures n == Unretracted(old(edges), sel, |old(edges)|)
    {
      ghost var t0 := clock(ticks);
      var now := Now();
      ghost var w := Retract(sel);
      var i := 0;
      var before := edges;
      n := 0;
      while i < |edges|
        invariant |edges| == |before| && i <= |before|
        invariant forall k :: 0 <= k < i ==> edges[k] == Stamp(before[k], w, now, now)
        invariant forall k :: i <= k < |before| ==> edges[k] == before[k]
        invariant ticks == old(ticks) + 1
        invariant n == Unretracted(before, sel, i)
      {
        if Selects(sel, edges[i].fact) && edges[i].retracted.None? {
          edges := edges[i := edges[i].(retracted := Some(now))];
          n := n + 1;
        }
        i := i + 1;
      }
      assert edges == Apply(before, w, now, now);
      if !bitemporal {
        WriteKeepsConsistent(before, w, t0, clock(ticks));
      }
    }

    /** LIMIT 1 over the current rows. */
    method FindCurrent(sel: Selector) returns (i: nat)
      ensures i == FirstCurrent(edges, sel)
    {
      i := 0;
      while i < |edges|
        invariant i <= |edges| && FirstCurrent(edges, sel) == i + FirstCurrent(edges[i..], sel)
      {
        assert edges[i..][1..] == edges[i + 1..];
        if Selects(sel, edges[i].fact) && Current(edges[i]) {
          return;
        }
        i := i + 1;
      }
    }

    /** What is decided, before anything is written. */
    method Decide(f: Fact, attrs: string, score: real, merge: (string, string) -> string) returns (answer: Answer)
      ensures answer == Reconcile(edges, f, attrs, score, merge)
    {
      if score < SALIENCE_FLOOR {
        return Noop;
      }
      var same := FindCurrent(Exactly(f));
      if same < |edges| {
        var merged := merge(edges[same].attrs, attrs);
        return if attrs == NO_ATTRS || merged == edges[same].attrs then Noop else Update(same, merged);
      }
      if Functional(f.rel) && score >= RETRACT_FLOOR {
        var rival := FindCurrent(FromSource(f));
        if rival < |edges| && edges[rival].fact.dst != f.dst {
          return Supersede(edges[rival].fact.dst);
        }
      }
      return Add;
    }

    /** on is MemoryReconcile; without it this is OpenEdge. */
    method ReconcileEdge(f: Fact, attrs: string, eventTime: real, on: bool, score: real, merge: (string, string) -> string)
      returns (answer: Answer, ghost t: real, ghost now: real)
      requires Valid()
      modifies this
      ensures Valid()
      ensures answer == if on then Reconcile(old(edges), f, attrs, score, merge) else Add
      ensures edges == Reconciled(old(edges), f, attrs, answer, t, EventOr(eventTime, now), now)
    {
      t, now := clock(ticks), clock(ticks);
      answer := Add;
      if on {
        answer := Decide(f, attrs, score, merge);
      }
      match answer
      case Noop =>
      case Update(index, merged) =>
        edges := edges[index := edges[index].(attrs := merged)];
      case Supersede(other) =>
        var _ := RetractEdge(Exactly(f.(dst := other)));
        now := clock(ticks);
        OpenEdge(f, attrs, eventTime);
      case Add =>
        OpenEdge(f, attrs, eventTime);
    }

    method OpenRunsOnDst(cluster: string, pod: Entity) returns (dst: Option<Entity>)
      ensures dst == OpenNode(edges, cluster, pod)
    {
      for i := 0 to |edges|
        invariant OpenNode(edges, cluster, pod) == OpenNode(edges[i..], cluster, pod)
      {
        assert edges[i..][1..] == edges[i + 1..];
        if SamePod(edges[i].fact, Fact(cluster, pod, RUNS_ON, pod)) && Open(edges[i]) {
          return Some(edges[i].fact.dst);
        }
      }
      return None;
    }

    /** A history of this store: stamps never before `from`, and equal unless bi-temporal. */
    ghost predicate Proper(h: seq<Stamped>, from: nat) {
      forall i :: 0 <= i < |h| ==> h[i].now >= clock(from) && (!bitemporal ==> h[i].validAt == h[i].now)
    }

    /** Does exactly the writes of IngestWrites, at clock readings from now on. */
    method IngestPodObservation(o: Observation, attrs: string, ts: real) returns (ghost h: seq<Stamped>)
      requires Valid()
      modifies this
      ensures Valid() && Proper(h, old(ticks))
      ensures Writes(h, IngestWrites(old(edges), o, attrs)) && edges == RunWrites(old(edges), h)
    {
      h := [];
      if o.kind != "pod_status" {
        return;
      }
      if o.deleted {
        h := [At(CloseAll(o.cluster, PodOf(o)), clock(ticks), clock(ticks))];
        RunOne(edges, h);
        CloseAllEdges(o.cluster, PodOf(o));
        return;
      }
      ghost var placed := PlaceOnNode(o, attrs, ts);
      ghost var owned := OwnByWorkload(o, attrs, ts);
      RunConcat(old(edges), placed, owned);
      h := placed + owned;
    }

    method PlaceOnNode(o: Observation, attrs: string, ts: real) returns (ghost h: seq<Stamped>)
      requires Valid()
      modifies this
      ensures Valid() && old(ticks) <= ticks && Proper(h, old(ticks))
      ensures Writes(h, PlaceWrites(old(edges), o, attrs)) && edges == RunWrites(old(edges), h)
    {
      h := [];
      if o.node == "" {
        return;
      }
      var pod, node := PodOf(o), Entity("Node", "", o.node);
      var cur := OpenRunsOnDst(o.cluster, pod);
      if cur.Some? && cur.value != node {
        var sel := Selector(o.cluster, pod, RUNS_ON, None);
        h := [At(Write.CloseEdge(sel), EventOr(ts, clock(ticks)), clock(ticks))];
        RunOne(edges, h);
        CloseEdge(sel, ts);
      }
      var f := Fact(o.cluster, pod, RUNS_ON, node);
      ghost var s := At(Write.OpenEdge(f, attrs), EventOr(ts, clock(ticks)), clock(ticks));
      RunAppend(old(edges), h, s);
      h := h + [s];
      OpenEdge(f, attrs, ts);
    }

    method OwnByWorkload(o: Observation, attrs: string, ts: real) returns (ghost h: seq<Stamped>)
      requires Valid()
      modifies this
      ensures Valid() && Proper(h, old(ticks))
      ensures Writes(h, OwnWrites(o, attrs)) && edges == RunWrites(old(edges), h)
    {
      h := [];
      var owner := CutSlash(o.owner);
      if owner.Some? {
        var f := Fact(o.cluster, Entity(owner.value.0, o.namespace, owner.value.1), "owns", PodOf(o));
        h := [At(Write.OpenEdge(f, attrs), EventOr(ts, clock(ticks)), clock(ticks))];
        RunOne(edges, h);
        OpenEdge(f, attrs, ts);
      }
    }

    method Changes(cluster: string, t1: real, t2: real) returns (out: seq<Change>)
      ensures out == ChangeLog(edges, cluster, t1, t2)
    {
      out := [];
      var rows := SortBy(edges, FromTime);
      assert rows[..0] == [];
      for i := 0 to |rows|
        invariant out == Collect(rows[..i], cluster, t1, t2)
      {
        var e := rows[i];
        CollectAppend(rows[..i], e, cluster, t1, t2);
        assert rows[..i + 1] == rows[..i] + [e];
        if e.fact.cluster == cluster {
          if e.from > t1 && e.from <= t2 {
            out := out + [Change(true, e.from, e.fact)];
          }
          if e.to.Some? && e.to.value > t1 && e.to.value <= t2 {
            out := out + [Change(false, e.to.value, e.fact)];
          }
        }
      }
      assert rows[..|rows|] == rows;
      out := SortBy(out, ChangeTime);
    }

    method AsOf(cluster: string, validT: real, txT: real) returns (facts: seq<Fact>)
      requires Valid()
      modifies this`ticks
      ensures Valid()
      ensures facts == FactsAsOf(edges, cluster, validT, if txT == 0.0 then clock(old(ticks)) else txT)
    {
      var x := txT;
      if txT == 0.0 {
        x := Now();
      }
      var hits := [];
      assert edges[..0] == [];
      for i := 0 to |edges|
        invariant Valid() && hits == Hits(edges[..i], cluster, validT, x)
      {
        HitsAppend(edges[..i], edges[i], cluster, validT, x);
        assert edges[..i + 1] == edges[..i] + [edges[i]];
        if VisibleAt(edges[i], cluster, validT, x) {
          hits := hits + [Hit(edges[i].from, edges[i].fact)];
        }
      }
      assert edges[..|edges|] == edges;
      hits := SortBy(hits, HitTime);
      facts := seq(|hits|, i requires 0 <= i < |hits| => hits[i].fact);
    }
  }

  lemma {:induction false} RunAppend(edges: seq<Edge>, h: seq<Stamped>, s: Stamped)
    ensures RunWrites(edges, h + [s]) == Apply(RunWrites(edges, h), s.write, s.validAt, s.now)
    decreases |h|
  {
    hide Apply, HasOpen, Stamp;
    if h == [] {
      RunOne(edges, h + [s]);
    } else {
      RunAppend(Apply(edges, h[0].write, h[0].validAt, h[0].now), h[1..], s);
      assert (h + [s])[1..] == h[1..] + [s];
    }
  }

  lemma {:induction false} RunConcat(edges: seq<Edge>, g: seq<Stamped>, h: seq<Stamped>)
    ensures RunWrites(edges, g + h) == RunWrites(RunWrites(edges, g), h)
    decreases |h|
  {
    hide Apply, HasOpen, Stamp;
    if h == [] {
      assert g + h == g;
    } else {
      RunAppend(edges, g, h[0]);
      RunConcat(edges, g + [h[0]], h[1..]);
      assert (g + [h[0]]) + h[1..] == g + h;
    }
  }

  lemma {:induction false} CollectAppend(edges: seq<Edge>, e: Edge, cluster: string, t1: real, t2: real)
    ensures Collect(edges + [e], cluster, t1, t2) ==
            Collect(edges, cluster, t1, t2) + (if e.fact.cluster == cluster then ChangesOf(e, t1, t2) else [])
  {
    if edges == [] {
      assert edges + [e] == [e];
    } else {
      CollectAppend(edges[1..], e, cluster, t1, t2);
      assert (edges + [e])[1..] == edges[1..] + [e];
    }
  }
}
