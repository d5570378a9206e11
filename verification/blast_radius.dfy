/** Personalized PageRank over a small undirected subgraph (pprScores in
    internal/memory/kg.go), with exact reals for its floats. */
module BlastRadius {

  const DAMPING: real := 0.85
  const MAX_ITER := 50
  const TOLERANCE: real := 0.000001

  type Scores = map<string, real>

  /** A score that was never written reads as zero. */
  function At(m: Scores, n: string): real {
    if n in m then m[n] else 0.0
  }

  function Abs(x: real): real { if x < 0.0 then -x else x }

  function Sum(nodes: seq<string>, m: Scores): real {
    if nodes == [] then 0.0 else At(m, nodes[0]) + Sum(nodes[1..], m)
  }

  /** The L1 distance of two score vectors. */
  function Dist(nodes: seq<string>, p: Scores, q: Scores): real {
    if nodes == [] then 0.0 else Abs(At(p, nodes[0]) - At(q, nodes[0])) + Dist(nodes[1..], p, q)
  }

  ghost predicate Distinct(nodes: seq<string>) {
    forall i, j :: 0 <= i < j < |nodes| ==> nodes[i] != nodes[j]
  }

  /** The adjacency lists over which the iteration runs; parallel edges repeat. */
  datatype Graph = Graph(nodes: seq<string>, adj: map<string, seq<string>>)

  ghost predicate ValidGraph(g: Graph) {
    Distinct(g.nodes) &&
    forall n :: n in g.nodes ==> n in g.adj && g.adj[n] != [] && forall m :: m in g.adj[n] ==> m in g.nodes
  }

  /** The restart vector: an equal share for every seed node. */
  ghost predicate ValidSeeds(g: Graph, seeds: seq<string>) {
    seeds != [] && Distinct(seeds) && forall n :: n in seeds ==> n in g.nodes
  }

  function Weighted(seeds: seq<string>, w: real): Scores {
    map n | n in seeds :: w
  }

  // ---- One iteration ----

  /** Adds a share to every neighbour in the list. */
  function Spread(next: Scores, nbs: seq<string>, share: real): Scores
    decreases |nbs|
  {
    if nbs == [] then next else Spread(next[nbs[0] := At(next, nbs[0]) + share], nbs[1..], share)
  }

  /** What each neighbour gets from a node with this score and this many list entries. */
  function ShareOf(score: real, degree: nat): real
    requires degree > 0
  {
    DAMPING * score / degree as real
  }

  /** A node hands out its damped score, or is skipped if it has none. */
  function PushOne(next: Scores, nbs: seq<string>, score: real): Scores
    requires nbs != []
  {
    if score == 0.0 then next else Spread(next, nbs, ShareOf(score, |nbs|))
  }

  /** Every listed node in turn. */
  function Push(nodes: seq<string>, adj: map<string, seq<string>>, scores: Scores, next: Scores): Scores
    requires forall n :: n in nodes ==> n in adj && adj[n] != []
  {
    if nodes == [] then next
    else
      assert nodes[0] in nodes;
      Push(nodes[1..], adj, scores, PushOne(next, adj[nodes[0]], At(scores, nodes[0])))
  }

  function Step(g: Graph, seeds: seq<string>, scores: Scores): Scores
    requires forall n :: n in g.nodes ==> n in g.adj && g.adj[n] != []
    requires seeds != []
  {
    Push(g.nodes, g.adj, scores, Weighted(seeds, (1.0 - DAMPING) / |seeds| as real))
  }

  function Iterate(g: Graph, seeds: seq<string>, k: nat): Scores
    requires forall n :: n in g.nodes ==> n in g.adj && g.adj[n] != []
    requires seeds != []
  {
    if k == 0 then Weighted(seeds, 1.0 / |seeds| as real) else Step(g, seeds, Iterate(g, seeds, k - 1))
  }

  // ---- Conservation ----

  lemma {:induction false} SumUpdate(nodes: seq<string>, m: Scores, k: string, v: real)
    requires Distinct(nodes)
    ensures Sum(nodes, m[k := v]) == Sum(nodes, m) + if k in nodes then v - At(m, k) else 0.0
  {
    if nodes != [] {
      SumUpdate(nodes[1..], m, k, v);
      assert k in nodes <==> k == nodes[0] || k in nodes[1..];
      assert nodes[0] !in nodes[1..];
    }
  }

  /** n * x, as a sum. */
  function Times(n: nat, x: real): real {
    if n == 0 then 0.0 else x + Times(n - 1, x)
  }

  lemma {:induction false} TimesMultiplies(n: nat, x: real)
    ensures Times(n, x) == n as real * x
  {
    if n > 0 {
      TimesMultiplies(n - 1, x);
      assert n as real * x == x + (n - 1) as real * x;
    }
  }

  /** n equal shares of d add up to d. */
  lemma EqualShares(d: real, n: nat)
    requires n > 0 && d >= 0.0
    ensures Times(n, d / n as real) == d && d / n as real >= 0.0
  {
    TimesMultiplies(n, d / n as real);
    ShareOut(d, n);
  }

  lemma SharesAddUp(score: real, degree: nat)
    requires degree > 0
    ensures Times(degree, ShareOf(score, degree)) == DAMPING * score
  {
    TimesMultiplies(degree, ShareOf(score, degree));
    ShareOut(DAMPING * score, degree);
  }

  lemma {:induction false} SpreadSum(nodes: seq<string>, next: Scores, nbs: seq<string>, share: real)
    requires Distinct(nodes) && forall m :: m in nbs ==> m in nodes
    ensures Sum(nodes, Spread(next, nbs, share)) == Sum(nodes, next) + Times(|nbs|, share)
    decreases |nbs|
  {
    if nbs != [] {
      assert nbs[0] in nbs;
      SumUpdate(nodes, next, nbs[0], At(next, nbs[0]) + share);
      SpreadSum(nodes, next[nbs[0] := At(next, nbs[0]) + share], nbs[1..], share);
    }
  }

  lemma ShareOut(d: real, n: nat)
    requires n > 0
    ensures n as real * (d / n as real) == d
  {
  }

  /** p and q read the same everywhere, though one may hold explicit zeros. */
  ghost predicate Same(p: Scores, q: Scores) {
    forall n :: At(p, n) == At(q, n)
  }

  lemma {:induction false} SpreadZero(next: Scores, nbs: seq<string>)
    ensures Same(Spread(next, nbs, 0.0), next)
    decreases |nbs|
  {
    if nbs != [] {
      SpreadZero(next[nbs[0] := At(next, nbs[0])], nbs[1..]);
    }
  }

  lemma {:induction false} SameSumAndDist(nodes: seq<string>, p: Scores, p': Scores, q: Scores, q': Scores)
    requires Same(p, p') && Same(q, q')
    ensures Sum(nodes, p) == Sum(nodes, p') && Dist(nodes, p, q) == Dist(nodes, p', q')
  {
    if nodes != [] {
      SameSumAndDist(nodes[1..], p, p', q, q');
    }
  }

  /** Skipping a node without a score comes to spreading nothing. */
  lemma SkippedIsSpread(next: Scores, nbs: seq<string>, score: real)
    requires nbs != []
    ensures Same(PushOne(next, nbs, score), Spread(next, nbs, ShareOf(score, |nbs|)))
  {
    if score == 0.0 {
      assert ShareOf(score, |nbs|) == 0.0;
      SpreadZero(next, nbs);
    }
  }

  lemma PushOneSum(all: seq<string>, next: Scores, nbs: seq<string>, score: real)
    requires Distinct(all) && nbs != [] && forall m :: m in nbs ==> m in all
    ensures Sum(all, PushOne(next, nbs, score)) == Sum(all, next) + DAMPING * score
  {
    var spread := Spread(next, nbs, ShareOf(score, |nbs|));
    SpreadSum(all, next, nbs, ShareOf(score, |nbs|));
    SharesAddUp(score, |nbs|);
    SkippedIsSpread(next, nbs, score);
    SameSumAndDist(all, PushOne(next, nbs, score), spread, next, next);
  }

  lemma {:induction false} PushSum(all: seq<string>, nodes: seq<string>, adj: map<string, seq<string>>, scores: Scores, next: Scores)
    requires Distinct(all)
    requires forall n :: n in nodes ==> n in adj && adj[n] != [] && forall m :: m in adj[n] ==> m in all
    ensures Sum(all, Push(nodes, adj, scores, next)) == Sum(all, next) + DAMPING * Sum(nodes, scores)
  {
    if nodes != [] {
      var n := nodes[0];
      assert n in nodes;
      PushOneSum(all, next, adj[n], At(scores, n));
      PushSum(all, nodes[1..], adj, scores, PushOne(next, adj[n], At(scores, n)));
    }
  }

  lemma {:induction false} WeightedSum(nodes: seq<string>, seeds: seq<string>, w: real)
    requires Distinct(nodes) && Distinct(seeds) && forall n :: n in seeds ==> n in nodes
    ensures Sum(nodes, Weighted(seeds, w)) == Times(|seeds|, w)
    decreases |seeds|
  {
    if seeds == [] {
      AllZeroSum(nodes, Weighted(seeds, w));
    } else {
      var rest := seeds[1..];
      WeightedSum(nodes, rest, w);
      assert seeds[0] in seeds && seeds[0] !in rest;
      SumUpdate(nodes, Weighted(rest, w), seeds[0], w);
      assert Weighted(seeds, w) == Weighted(rest, w)[seeds[0] := w] by {
        assert forall n :: n in seeds <==> n == seeds[0] || n in rest;
      }
    }
  }

  lemma {:induction false} AllZeroSum(nodes: seq<string>, m: Scores)
    requires m == map[]
    ensures Sum(nodes, m) == 0.0
  {
    if nodes != [] {
      AllZeroSum(nodes[1..], m);
    }
  }

  ghost predicate Distribution(nodes: seq<string>, m: Scores) {
    NonNegative(m) && Sum(nodes, m) == 1.0
  }

  ghost predicate NonNegative(m: Scores) {
    forall n :: At(m, n) >= 0.0
  }

  lemma {:induction false} SpreadNonNegative(next: Scores, nbs: seq<string>, share: real)
    requires share >= 0.0 && NonNegative(next)
    ensures NonNegative(Spread(next, nbs, share))
    decreases |nbs|
  {
    if nbs != [] {
      var after := next[nbs[0] := At(next, nbs[0]) + share];
      assert forall n :: At(after, n) == if n == nbs[0] then At(next, n) + share else At(next, n);
      SpreadNonNegative(after, nbs[1..], share);
    }
  }

  lemma {:induction false} PushNonNegative(nodes: seq<string>, adj: map<string, seq<string>>, scores: Scores, next: Scores)
    requires forall n :: n in nodes ==> n in adj && adj[n] != []
    requires NonNegative(scores) && NonNegative(next)
    ensures NonNegative(Push(nodes, adj, scores, next))
  {
    if nodes != [] {
      var n := nodes[0];
      assert n in nodes && At(scores, n) >= 0.0;
      EqualShares(DAMPING * At(scores, n), |adj[n]|);
      SpreadNonNegative(next, adj[n], ShareOf(At(scores, n), |adj[n]|));
      PushNonNegative(nodes[1..], adj, scores, PushOne(next, adj[n], At(scores, n)));
    }
  }

  /** An iteration turns a distribution into a distribution: nothing is lost or made. */
  lemma StepConserves(g: Graph, seeds: seq<string>, scores: Scores)
    requires ValidGraph(g) && ValidSeeds(g, seeds) && Distribution(g.nodes, scores)
    ensures Distribution(g.nodes, Step(g, seeds, scores))
  {
    var w := (1.0 - DAMPING) / |seeds| as real;
    WeightedSum(g.nodes, seeds, w);
    EqualShares(1.0 - DAMPING, |seeds|);
    PushSum(g.nodes, g.nodes, g.adj, scores, Weighted(seeds, w));
    PushNonNegative(g.nodes, g.adj, scores, Weighted(seeds, w));
  }

  lemma {:induction false} IterateConserves(g: Graph, seeds: seq<string>, k: nat)
    requires ValidGraph(g) && ValidSeeds(g, seeds)
    ensures Distribution(g.nodes, Iterate(g, seeds, k))
  {
    if k == 0 {
      WeightedSum(g.nodes, seeds, 1.0 / |seeds| as real);
      EqualShares(1.0, |seeds|);
    } else {
      IterateConserves(g, seeds, k - 1);
      StepConserves(g, seeds, Iterate(g, seeds, k - 1));
    }
  }

  // ---- Contraction ----

  lemma {:induction false} DistUpdate(nodes: seq<string>, p: Scores, q: Scores, k: string, u: real, v: real)
    requires Distinct(nodes)
    ensures Dist(nodes, p[k := u], q[k := v]) ==
            Dist(nodes, p, q) + if k in nodes then Abs(u - v) - Abs(At(p, k) - At(q, k)) else 0.0
  {
    if nodes != [] {
      DistUpdate(nodes[1..], p, q, k, u, v);
      assert k in nodes <==> k == nodes[0] || k in nodes[1..];
      assert nodes[0] !in nodes[1..];
    }
  }

  lemma {:induction false} SpreadDist(nodes: seq<string>, p: Scores, q: Scores, nbs: seq<string>, s: real, t: real)
    requires Distinct(nodes) && forall m :: m in nbs ==> m in nodes
    ensures Dist(nodes, Spread(p, nbs, s), Spread(q, nbs, t)) <= Dist(nodes, p, q) + Times(|nbs|, Abs(s - t))
    decreases |nbs|
  {
    if nbs != [] {
      var k := nbs[0];
      assert k in nbs;
      var u, v := At(p, k) + s, At(q, k) + t;
      DistUpdate(nodes, p, q, k, u, v);
      SpreadDist(nodes, p[k := u], q[k := v], nbs[1..], s, t);
    }
  }

  lemma {:induction false} TimesOfAbs(n: nat, s: real, t: real)
    ensures Times(n, Abs(s - t)) == Abs(Times(n, s) - Times(n, t))
    ensures n > 0 ==> (Times(n, s) < Times(n, t) <==> s < t)
    ensures s == t ==> Times(n, s) == Times(n, t)
  {
    if n > 0 {
      TimesOfAbs(n - 1, s, t);
    }
  }

  lemma SharesDiffer(x: real, y: real, degree: nat)
    requires degree > 0
    ensures Times(degree, Abs(ShareOf(x, degree) - ShareOf(y, degree))) == DAMPING * Abs(x - y)
  {
    SharesAddUp(x, degree);
    SharesAddUp(y, degree);
    TimesOfAbs(degree, ShareOf(x, degree), ShareOf(y, degree));
  }

  lemma PushOneDist(all: seq<string>, p: Scores, q: Scores, nbs: seq<string>, x: real, y: real)
    requires Distinct(all) && nbs != [] && forall m :: m in nbs ==> m in all
    ensures Dist(all, PushOne(p, nbs, x), PushOne(q, nbs, y)) <= Dist(all, p, q) + DAMPING * Abs(x - y)
  {
    var s, t := ShareOf(x, |nbs|), ShareOf(y, |nbs|);
    SpreadDist(all, p, q, nbs, s, t);
    SharesDiffer(x, y, |nbs|);
    SkippedIsSpread(p, nbs, x);
    SkippedIsSpread(q, nbs, y);
    SameSumAndDist(all, PushOne(p, nbs, x), Spread(p, nbs, s), PushOne(q, nbs, y), Spread(q, nbs, t));
  }

  lemma {:induction false} PushDist(all: seq<string>, nodes: seq<string>, adj: map<string, seq<string>>,
                                    x: Scores, y: Scores, p: Scores, q: Scores)
    requires Distinct(all)
    requires forall n :: n in nodes ==> n in adj && adj[n] != [] && forall m :: m in adj[n] ==> m in all
    ensures Dist(all, Push(nodes, adj, x, p), Push(nodes, adj, y, q)) <= Dist(all, p, q) + DAMPING * Dist(nodes, x, y)
  {
    if nodes != [] {
      var n := nodes[0];
      assert n in nodes;
      PushOneDist(all, p, q, adj[n], At(x, n), At(y, n));
      PushDist(all, nodes[1..], adj, x, y, PushOne(p, adj[n], At(x, n)), PushOne(q, adj[n], At(y, n)));
    }
  }

  lemma {:induction false} DistSelf(nodes: seq<string>, p: Scores)
    ensures Dist(nodes, p, p) == 0.0
  {
    if nodes != [] {
      DistSelf(nodes[1..], p);
    }
  }

  /** An iteration brings any two score vectors closer by at least the damping factor. */
  lemma StepContracts(g: Graph, seeds: seq<string>, x: Scores, y: Scores)
    requires ValidGraph(g) && ValidSeeds(g, seeds)
    ensures Dist(g.nodes, Step(g, seeds, x), Step(g, seeds, y)) <= DAMPING * Dist(g.nodes, x, y)
  {
    var base := Weighted(seeds, (1.0 - DAMPING) / |seeds| as real);
    PushDist(g.nodes, g.nodes, g.adj, x, y, base, base);
    DistSelf(g.nodes, base);
  }

  lemma {:induction false} DistributionsAreClose(nodes: seq<string>, p: Scores, q: Scores)
    requires NonNegative(p) && NonNegative(q)
    ensures Dist(nodes, p, q) <= Sum(nodes, p) + Sum(nodes, q)
  {
    if nodes != [] {
      DistributionsAreClose(nodes[1..], p, q);
    }
  }

  function Power(k: nat): real {
    if k == 0 then 1.0 else DAMPING * Power(k - 1)
  }

  /** Iteration k changes the scores by at most 2 * 0.85^k. */
  lemma {:induction false} ChangeShrinks(g: Graph, seeds: seq<string>, k: nat)
    requires ValidGraph(g) && ValidSeeds(g, seeds)
    ensures Dist(g.nodes, Iterate(g, seeds, k + 1), Iterate(g, seeds, k)) <= 2.0 * Power(k)
  {
    if k == 0 {
      IterateConserves(g, seeds, 0);
      IterateConserves(g, seeds, 1);
      DistributionsAreClose(g.nodes, Iterate(g, seeds, 1), Iterate(g, seeds, 0));
    } else {
      ChangeShrinks(g, seeds, k - 1);
      StepContracts(g, seeds, Iterate(g, seeds, k), Iterate(g, seeds, k - 1));
    }
  }

  lemma {:induction false} Triangle(nodes: seq<string>, p: Scores, q: Scores, r: Scores)
    ensures Dist(nodes, p, r) <= Dist(nodes, p, q) + Dist(nodes, q, r)
  {
    if nodes != [] {
      Triangle(nodes[1..], p, q, r);
    }
  }

  /** Scores that an iteration leaves as they are: the exact PageRank vector. */
  ghost predicate Stationary(g: Graph, seeds: seq<string>, p: Scores)
    requires ValidGraph(g) && ValidSeeds(g, seeds)
  {
    Dist(g.nodes, Step(g, seeds, p), p) == 0.0
  }

  /** The change of the last iteration bounds the distance to the exact vector, which is
      therefore unique; 17/3 is 0.85 / (1 - 0.85). */
  lemma ResidualBoundsError(g: Graph, seeds: seq<string>, x: Scores, p: Scores)
    requires ValidGraph(g) && ValidSeeds(g, seeds) && Stationary(g, seeds, p)
    ensures 3.0 * Dist(g.nodes, Step(g, seeds, x), p) <= 17.0 * Dist(g.nodes, Step(g, seeds, x), x)
    ensures Stationary(g, seeds, x) ==> Dist(g.nodes, x, p) == 0.0
  {
    var y, z := Step(g, seeds, x), Step(g, seeds, p);
    StepContracts(g, seeds, x, p);
    Triangle(g.nodes, y, z, p);
    Triangle(g.nodes, x, y, p);
    DistSymmetric(g.nodes, x, y);
    DistNonNegative(g.nodes, x, p);
  }

  lemma {:induction false} DistSymmetric(nodes: seq<string>, p: Scores, q: Scores)
    ensures Dist(nodes, p, q) == Dist(nodes, q, p)
  {
    if nodes != [] {
      DistSymmetric(nodes[1..], p, q);
    }
  }

  lemma {:induction false} DistNonNegative(nodes: seq<string>, p: Scores, q: Scores)
    ensures Dist(nodes, p, q) >= 0.0
  {
    if nodes != [] {
      DistNonNegative(nodes[1..], p, q);
    }
  }

  // ---- The loops ----

  /** Both endpoints of every edge, as neighbours of each other. */
  function Adjacency(edges: seq<(string, string)>): map<string, seq<string>> {
    if edges == [] then map[]
    else
      var before, e := Adjacency(edges[..|edges| - 1]), edges[|edges| - 1];
      AddEntry(AddEntry(before, e.0, e.1), e.1, e.0)
  }

  function Neighbours(adj: map<string, seq<string>>, n: string): seq<string> {
    if n in adj then adj[n] else []
  }

  function AddEntry(adj: map<string, seq<string>>, n: string, m: string): map<string, seq<string>> {
    adj[n := Neighbours(adj, n) + [m]]
  }

  /** How often m is in n's list. */
  function Entries(adj: map<string, seq<string>>, n: string, m: string): nat {
    multiset(Neighbours(adj, n))[m]
  }

  lemma EntryCounts(adj: map<string, seq<string>>, a: string, b: string, n: string, m: string)
    ensures Entries(AddEntry(adj, a, b), n, m) == Entries(adj, n, m) + if a == n && b == m then 1 else 0
  {
  }

  lemma {:induction false} AdjacencyIsClosed(edges: seq<(string, string)>)
    ensures forall n :: n in Adjacency(edges) ==> Adjacency(edges)[n] != []
    ensures forall n, m :: n in Adjacency(edges) && m in Adjacency(edges)[n] ==> m in Adjacency(edges)
    ensures edges != [] ==> edges[|edges| - 1].0 in Adjacency(edges)
  {
    if edges != [] {
      AdjacencyIsClosed(edges[..|edges| - 1]);
    }
  }

  /** The lists describe an undirected graph: m is in n's list as often as n is in m's, which
      is once for every edge that joins the two, or twice if they are the same node. A list
      is as long as the node has edge ends. */
  lemma {:induction false} AdjacencyCountsEdges(edges: seq<(string, string)>, n: string, m: string)
    ensures Entries(Adjacency(edges), n, m) == Entries(Adjacency(edges), m, n) == Links(edges, n, m)
    ensures |Neighbours(Adjacency(edges), n)| == Ends(edges, n)
  {
    hide Entries, AddEntry, Neighbours;
    NoEntries(n, m);
    NoEntries(m, n);
    if edges != [] {
      var before, e := Adjacency(edges[..|edges| - 1]), edges[|edges| - 1];
      AdjacencyCountsEdges(edges[..|edges| - 1], n, m);
      EdgeCounts(before, e.0, e.1, n, m);
      EdgeCounts(before, e.0, e.1, m, n);
    }
  }

  lemma NoEntries(n: string, m: string)
    ensures Entries(map[], n, m) == 0 && Neighbours(map[], n) == []
  {
  }

  lemma EdgeCounts(adj: map<string, seq<string>>, a: string, b: string, n: string, m: string)
    ensures
      var both := AddEntry(AddEntry(adj, a, b), b, a);
      Entries(both, n, m) == Entries(adj, n, m) + (if (a, b) == (n, m) then 1 else 0) + (if (b, a) == (n, m) then 1 else 0) &&
      |Neighbours(both, n)| == |Neighbours(adj, n)| + (if a == n then 1 else 0) + (if b == n then 1 else 0)
  {
    hide Entries, AddEntry, Neighbours;
    EntryCounts(adj, a, b, n, m);
    EntryCounts(AddEntry(adj, a, b), b, a, n, m);
    ListGrows(adj, a, b, n);
    ListGrows(AddEntry(adj, a, b), b, a, n);
  }

  lemma ListGrows(adj: map<string, seq<string>>, a: string, b: string, n: string)
    ensures |Neighbours(AddEntry(adj, a, b), n)| == |Neighbours(adj, n)| + if a == n then 1 else 0
  {
  }

  /** The edge ends at n of edges that lead to m. */
  function Links(edges: seq<(string, string)>, n: string, m: string): nat {
    if n == m then 2 * Joining(edges, n, m) else Joining(edges, n, m)
  }

  function Joining(edges: seq<(string, string)>, n: string, m: string): nat {
    if edges == [] then 0
    else
      var e := edges[|edges| - 1];
      Joining(edges[..|edges| - 1], n, m) + if e == (n, m) || e == (m, n) then 1 else 0
  }

  /** How many edges start at n and how many end there, together. */
  function Ends(edges: seq<(string, string)>, n: string): nat {
    if edges == [] then 0
    else
      var e := edges[|edges| - 1];
      Ends(edges[..|edges| - 1], n) + (if e.0 == n then 1 else 0) + (if e.1 == n then 1 else 0)
  }

  // ---- What one iteration computes ----

  /** What m gets from n: its damped score, divided among its edge ends, once for every edge
      end that leads to m. */
  function InflowFrom(edges: seq<(string, string)>, n: string, score: real, m: string): real
    requires Ends(edges, n) > 0
  {
    Part(DAMPING * score, Links(edges, n, m), Ends(edges, n))
  }

  /** d, times k of n. */
  function Part(d: real, k: nat, n: nat): real
    requires n > 0
  {
    d * k as real / n as real
  }

  function Inflow(edges: seq<(string, string)>, nodes: seq<string>, x: Scores, m: string): real
    requires forall n :: n in nodes ==> Ends(edges, n) > 0
  {
    if nodes == [] then 0.0
    else
      var n := nodes[0];
      assert n in nodes;
      InflowFrom(edges, n, At(x, n), m) + Inflow(edges, nodes[1..], x, m)
  }

  /** Every score after an iteration: an equal part of what restarts, if the node is a seed,
      and what flows in over its edges. */
  lemma StepIsTransition(edges: seq<(string, string)>, g: Graph, seeds: seq<string>, x: Scores, m: string)
    requires g.adj == Adjacency(edges) && seeds != [] && forall n :: n in g.nodes ==> n in g.adj
    ensures forall n :: n in g.nodes ==> g.adj[n] != [] && Ends(edges, n) > 0
    ensures At(Step(g, seeds, x), m) ==
            (if m in seeds then (1.0 - DAMPING) / |seeds| as real else 0.0) + Inflow(edges, g.nodes, x, m)
  {
    AdjacencyIsClosed(edges);
    forall n | n in g.nodes
      ensures g.adj[n] != [] && Ends(edges, n) > 0
    {
      AdjacencyCountsEdges(edges, n, m);
    }
    PushIsInflow(edges, g.nodes, g.adj, x, Weighted(seeds, (1.0 - DAMPING) / |seeds| as real), m);
  }

  /** The iterates, score by score: equal parts for the seeds at first, then what restarts and
      what flows in from the round before. */
  lemma IteratesFlow(edges: seq<(string, string)>, g: Graph, seeds: seq<string>, k: nat, m: string)
    requires g.adj == Adjacency(edges) && seeds != [] && forall n :: n in g.nodes ==> n in g.adj
    ensures forall n :: n in g.nodes ==> g.adj[n] != [] && Ends(edges, n) > 0
    ensures At(Iterate(g, seeds, 0), m) == if m in seeds then 1.0 / |seeds| as real else 0.0
    ensures At(Iterate(g, seeds, k + 1), m) ==
            (if m in seeds then (1.0 - DAMPING) / |seeds| as real else 0.0) + Inflow(edges, g.nodes, Iterate(g, seeds, k), m)
  {
    AdjacencyIsClosed(edges);
    StepIsTransition(edges, g, seeds, Iterate(g, seeds, k), m);
  }

  lemma {:induction false} PushIsInflow(edges: seq<(string, string)>, nodes: seq<string>, adj: map<string, seq<string>>,
                                        x: Scores, next: Scores, m: string)
    requires adj == Adjacency(edges) && forall n :: n in nodes ==> n in adj && adj[n] != [] && Ends(edges, n) > 0
    ensures At(Push(nodes, adj, x, next), m) == At(next, m) + Inflow(edges, nodes, x, m)
  {
    if nodes != [] {
      var n := nodes[0];
      assert n in nodes;
      PushIsInflow(edges, nodes[1..], adj, x, PushOne(next, adj[n], At(x, n)), m);
      PushOneIsInflow(edges, next, n, At(x, n), m);
    }
  }

  lemma PushOneIsInflow(edges: seq<(string, string)>, next: Scores, n: string, score: real, m: string)
    requires n in Adjacency(edges) && Adjacency(edges)[n] != [] && Ends(edges, n) > 0
    ensures At(PushOne(next, Adjacency(edges)[n], score), m) == At(next, m) + InflowFrom(edges, n, score, m)
  {
    hide Adjacency, PushOne, Spread, Times, Joining, Ends, ShareOf, Part;
    var nbs := Adjacency(edges)[n];
    SkippedIsSpread(next, nbs, score);
    SpreadReaches(next, nbs, ShareOf(score, |nbs|), m);
    AdjacencyCountsEdges(edges, n, m);
    SharesArePart(DAMPING * score, Links(edges, n, m), |nbs|);
    assert ShareOf(score, |nbs|) == DAMPING * score / |nbs| as real by {
      ShareIs(score, |nbs|);
    }
  }

  lemma ShareIs(score: real, degree: nat)
    requires degree > 0
    ensures ShareOf(score, degree) == DAMPING * score / degree as real
  {
  }

  lemma SharesArePart(d: real, k: nat, n: nat)
    requires n > 0
    ensures Times(k, d / n as real) == Part(d, k, n)
  {
    TimesMultiplies(k, d / n as real);
    ScaledShare(d, k as real, n as real);
  }

  lemma ScaledShare(d: real, c: real, n: real)
    requires n > 0.0
    ensures c * (d / n) == d * c / n
  {
  }

  lemma {:induction false} SpreadReaches(next: Scores, nbs: seq<string>, share: real, m: string)
    ensures At(Spread(next, nbs, share), m) == At(next, m) + Times(multiset(nbs)[m], share)
    decreases |nbs|
  {
    if nbs != [] {
      SpreadReaches(next[nbs[0] := At(next, nbs[0]) + share], nbs[1..], share, m);
      assert nbs == [nbs[0]] + nbs[1..];
    }
  }

  /** The keys of the adjacency map, each once. The code also sorts them, which with exact
      arithmetic changes nothing. */
  method NodesOf(adj: map<string, seq<string>>) returns (nodes: seq<string>)
    ensures Distinct(nodes) && forall n :: n in nodes <==> n in adj
  {
    nodes := [];
    var left := adj.Keys;
    while left != {}
      invariant left <= adj.Keys && Distinct(nodes)
      invariant forall n :: n in nodes <==> n in adj.Keys - left
      decreases |left|
    {
      var n :| n in left;
      assert n !in nodes;
      left, nodes := left - {n}, nodes + [n];
    }
  }

  method BuildAdjacency(edges: seq<(string, string)>) returns (adj: map<string, seq<string>>)
    ensures adj == Adjacency(edges)
  {
    adj := map[];
    assert edges[..0] == [];
    for i := 0 to |edges|
      invariant adj == Adjacency(edges[..i])
    {
      var e := edges[i];
      assert edges[..i + 1][..i] == edges[..i];
      adj := AddEntry(adj, e.0, e.1);
      adj := AddEntry(adj, e.1, e.0);
    }
    assert edges[..|edges|] == edges;
  }

  /** The graph of the given edges and the seed nodes to restart from: the seeds that are
      nodes, or every node if none is. */
  ghost predicate Prepared(edges: seq<(string, string)>, seeds: set<string>, g: Graph, start: seq<string>) {
    g.adj == Adjacency(edges) && (forall n :: n in g.nodes <==> n in g.adj) &&
    ValidGraph(g) && ValidSeeds(g, start) &&
    (forall n :: n in start <==> n in g.nodes && (n in seeds || forall m :: m in g.nodes ==> m !in seeds))
  }

  /** The result is a distribution over the nodes and one of the first fifty iterates:
      the fiftieth, or one that is within TOLERANCE of the one before. No edges, no scores. */
  method PprScores(edges: seq<(string, string)>, seeds: set<string>)
    returns (scores: Scores, ghost g: Graph, ghost start: seq<string>, ghost rounds: nat)
    ensures edges == [] ==> scores == map[]
    ensures edges != [] ==> Prepared(edges, seeds, g, start) && Settled(g, start, rounds, scores)
  {
    var adj := BuildAdjacency(edges);
    AdjacencyIsClosed(edges);
    var nodes := NodesOf(adj);
    g, start, rounds := Graph(nodes, adj), [], 0;
    assert edges != [] ==> nodes != [];
    if |nodes| == 0 {
      return map[], g, start, rounds;
    }
    assert ValidGraph(g);
    var seedNodes := SeedNodes(nodes, seeds);
    start := seedNodes;
    scores, rounds := PowerIterate(nodes, adj, seedNodes);
  }

  ghost predicate Settled(g: Graph, start: seq<string>, rounds: nat, scores: Scores) {
    ValidGraph(g) && ValidSeeds(g, start) && 1 <= rounds <= MAX_ITER &&
    scores == Iterate(g, start, rounds) && Distribution(g.nodes, scores) &&
    (rounds == MAX_ITER || Dist(g.nodes, scores, Iterate(g, start, rounds - 1)) < TOLERANCE)
  }

  method PowerIterate(nodes: seq<string>, adj: map<string, seq<string>>, seedNodes: seq<string>) returns (scores: Scores, ghost rounds: nat)
    requires ValidGraph(Graph(nodes, adj)) && ValidSeeds(Graph(nodes, adj), seedNodes)
    ensures Settled(Graph(nodes, adj), seedNodes, rounds, scores)
  {
    ghost var g := Graph(nodes, adj);
    scores, rounds := Weighted(seedNodes, 1.0 / |seedNodes| as real), 0;
    var it := 0;
    while it < MAX_ITER
      invariant 0 <= it <= MAX_ITER && rounds == it && scores == Iterate(g, seedNodes, it)
    {
      var next := NextScores(nodes, adj, seedNodes, scores);
      var delta := Change(nodes, next, scores);
      scores, it, rounds := next, it + 1, rounds + 1;
      IterateConserves(g, seedNodes, it);
      if delta < TOLERANCE {
        return;
      }
    }
    IterateConserves(g, seedNodes, it);
  }

  method SeedNodes(nodes: seq<string>, seeds: set<string>) returns (out: seq<string>)
    requires nodes != [] && Distinct(nodes)
    ensures out != [] && Distinct(out)
    ensures forall n :: n in out <==> n in nodes && (n in seeds || forall m :: m in nodes ==> m !in seeds)
  {
    out := [];
    for i := 0 to |nodes|
      invariant Distinct(out)
      invariant forall n :: n in out <==> n in nodes[..i] && n in seeds
    {
      if nodes[i] in seeds {
        assert nodes[i] !in nodes[..i];
        out := out + [nodes[i]];
      }
    }
    assert nodes[..|nodes|] == nodes;
    if |out| == 0 {
      out := nodes;
      assert nodes[0] in nodes;
    } else {
      assert out[0] in out;
    }
  }

  /** One pass: restart shares first, then every node hands out its damped score. */
  method NextScores(nodes: seq<string>, adj: map<string, seq<string>>, seedNodes: seq<string>, scores: Scores) returns (next: Scores)
    requires seedNodes != [] && forall n :: n in nodes ==> n in adj && adj[n] != []
    ensures next == Step(Graph(nodes, adj), seedNodes, scores)
  {
    next := Weighted(seedNodes, (1.0 - DAMPING) / |seedNodes| as real);
    ghost var base := next;
    for i := 0 to |nodes|
      invariant Push(nodes, adj, scores, base) == Push(nodes[i..], adj, scores, next)
    {
      assert nodes[i] in nodes && nodes[i..][1..] == nodes[i + 1..];
      var sc, nbs := At(scores, nodes[i]), adj[nodes[i]];
      if sc == 0.0 {
        continue;
      }
      next := SpreadLoop(next, nbs, ShareOf(sc, |nbs|));
    }
  }

  method SpreadLoop(next0: Scores, nbs: seq<string>, share: real) returns (next: Scores)
    ensures next == Spread(next0, nbs, share)
  {
    next := next0;
    for i := 0 to |nbs|
      invariant Spread(next0, nbs, share) == Spread(next, nbs[i..], share)
    {
      assert nbs[i..][1..] == nbs[i + 1..];
      next := next[nbs[i] := At(next, nbs[i]) + share];
    }
  }

  method Change(nodes: seq<string>, next: Scores, scores: Scores) returns (delta: real)
    ensures delta == Dist(nodes, next, scores)
  {
    delta := 0.0;
    for i := 0 to |nodes|
      invariant Dist(nodes, next, scores) == delta + Dist(nodes[i..], next, scores)
    {
      assert nodes[i..][1..] == nodes[i + 1..];
      delta := delta + Abs(At(next, nodes[i]) - At(scores, nodes[i]));
    }
  }
}
