/** Graph writers side by side. An opening is a SELECT and a later INSERT with no transaction,
    no lock and no unique index behind it (OpenEdge in internal/memory/kg.go), and several
    writers share the table; every other write is a single statement. */
module GraphRaces {
  import opened Options
  import opened TemporalGraph

  /** The opening a writer is about to insert, because its SELECT found nothing. */
  datatype Opening = Opening(fact: Fact, attrs: string)

  datatype Table = Table(edges: seq<Edge>, writers: seq<Option<Opening>>)

  /** Look is the SELECT and Insert the INSERT of a writer; Abandon is an INSERT that fails.
      Statement is any other write, of whoever. */
  datatype Move =
    | Look(g: nat, opening: Opening)
    | Insert(g: nat, validAt: real, now: real)
    | Abandon(g: nat)
    | Statement(write: Write, validAt: real, now: real)

  function NewEdge(o: Opening, validAt: real, now: real): Edge {
    Edge(o.fact, o.attrs, validAt, None, now, None)
  }

  function Next(t: Table, m: Move): Table {
    match m
    case Look(g, opening) =>
      if g < |t.writers| && t.writers[g].None? && !HasOpen(t.edges, opening.fact) then t.(writers := t.writers[g := Some(opening)]) else t
    case Insert(g, validAt, now) =>
      if Ready(t, g) then Table(t.edges + [NewEdge(t.writers[g].value, validAt, now)], t.writers[g := None]) else t
    case Abandon(g) =>
      if g < |t.writers| then t.(writers := t.writers[g := None]) else t
    case Statement(w, validAt, now) =>
      if w.OpenEdge? then t else t.(edges := Apply(t.edges, w, validAt, now))
  }

  predicate Ready(t: Table, g: nat) {
    g < |t.writers| && t.writers[g].Some?
  }

  function Run(t: Table, ms: seq<Move>): Table
    decreases |ms|
  {
    if ms == [] then t else Run(Next(t, ms[0]), ms[1..])
  }

  lemma RunTwo(t: Table, a: Move, b: Move)
    ensures Run(t, [a, b]) == Next(Next(t, a), b)
  {
    assert [a, b][1..] == [b] && [b][1..] == [];
    assert Run(Next(t, a), [b]) == Run(Next(Next(t, a), b), []);
  }

  /** An opening that nobody interrupts is the one write the other results are about. */
  lemma OpeningIsTwoMoves(t: Table, g: nat, o: Opening, validAt: real, now: real)
    requires g < |t.writers| && t.writers[g].None?
    ensures Run(t, [Look(g, o), Insert(g, validAt, now)]) == t.(edges := Apply(t.edges, OpenEdge(o.fact, o.attrs), validAt, now))
  {
    RunTwo(t, Look(g, o), Insert(g, validAt, now));
    assert t.writers[g := Some(o)][g := None] == t.writers;
    assert t.writers[g := t.writers[g]] == t.writers;
  }

  // ---- One open edge per fact ----

  ghost predicate OneOpenThroughout(t: Table, ms: seq<Move>)
    decreases |ms|
  {
    AtMostOneOpen(t.edges) && (ms == [] || OneOpenThroughout(Next(t, ms[0]), ms[1..]))
  }

  /** An insertion that its fact is still missing from, when it is made. */
  ghost predicate StillMissing(t: Table, m: Move) {
    m.Insert? && Ready(t, m.g) ==> !HasOpen(t.edges, t.writers[m.g].value.fact)
  }

  ghost predicate AlwaysMissing(t: Table, ms: seq<Move>)
    decreases |ms|
  {
    ms == [] || (StillMissing(t, ms[0]) && AlwaysMissing(Next(t, ms[0]), ms[1..]))
  }

  lemma InsertKeepsOneOpen(edges: seq<Edge>, o: Opening, validAt: real, now: real)
    requires AtMostOneOpen(edges)
    ensures AtMostOneOpen(edges + [NewEdge(o, validAt, now)]) <==> !HasOpen(edges, o.fact)
  {
    var after := edges + [NewEdge(o, validAt, now)];
    if i :| 0 <= i < |edges| && edges[i].fact == o.fact && Open(edges[i]) {
      assert after[i] == edges[i] && after[|edges|].fact == o.fact && Open(after[|edges|]);
    } else {
      assert forall i :: 0 <= i < |edges| ==> after[i] == edges[i];
    }
  }

  lemma StatementKeepsOneOpen(edges: seq<Edge>, w: Write, validAt: real, now: real)
    requires AtMostOneOpen(edges) && !w.OpenEdge?
    ensures AtMostOneOpen(Apply(edges, w, validAt, now))
  {
  }

  /** Over every interleaving of any number of writers, there is never more than one open
      edge for a fact if and only if each insertion still finds its fact missing. */
  lemma {:induction false} OneOpenIffMissing(t: Table, ms: seq<Move>)
    requires AtMostOneOpen(t.edges)
    ensures OneOpenThroughout(t, ms) <==> AlwaysMissing(t, ms)
    decreases |ms|
  {
    hide AtMostOneOpen;
    if ms != [] {
      var m := ms[0];
      match m {
        case Look(_, _) =>
        case Insert(g, validAt, now) =>
          if Ready(t, g) {
            InsertKeepsOneOpen(t.edges, t.writers[g].value, validAt, now);
          }
        case Abandon(_) =>
        case Statement(w, validAt, now) =>
          if !w.OpenEdge? {
            StatementKeepsOneOpen(t.edges, w, validAt, now);
          }
      }
      if AtMostOneOpen(Next(t, m).edges) {
        OneOpenIffMissing(Next(t, m), ms[1..]);
      }
    }
  }

  /** Between its SELECT and its INSERT a writer loses its fact only to another writer that
      inserts the same one. */
  lemma {:induction false} OnlyInsertionsInterfere(t: Table, ms: seq<Move>, f: Fact)
    requires !HasOpen(t.edges, f) && NoneInserts(t, ms, f)
    ensures !HasOpen(Run(t, ms).edges, f)
    decreases |ms|
  {
    if ms != [] {
      var m := ms[0];
      if m.Statement? && !m.write.OpenEdge? {
        StatementOpensNothing(t.edges, m.write, m.validAt, m.now, f);
      }
      OnlyInsertionsInterfere(Next(t, m), ms[1..], f);
    }
  }

  ghost predicate NoneInserts(t: Table, ms: seq<Move>, f: Fact)
    decreases |ms|
  {
    ms == [] ||
    ((ms[0].Insert? && Ready(t, ms[0].g) ==> t.writers[ms[0].g].value.fact != f) && NoneInserts(Next(t, ms[0]), ms[1..], f))
  }

  lemma StatementOpensNothing(edges: seq<Edge>, w: Write, validAt: real, now: real, f: Fact)
    requires !w.OpenEdge? && !HasOpen(edges, f)
    ensures !HasOpen(Apply(edges, w, validAt, now), f)
  {
    var after := Apply(edges, w, validAt, now);
    assert forall i :: 0 <= i < |edges| ==> after[i].fact == edges[i].fact && (Open(after[i]) ==> Open(edges[i]));
  }

  /** Two writers that both look before either inserts leave two open edges, whatever the
      table was. */
  lemma TwoOpenersRace(t: Table, g: nat, h: nat, o: Opening, p: Opening, validAt: real, now: real, later: real)
    requires AtMostOneOpen(t.edges) && !HasOpen(t.edges, o.fact) && o.fact == p.fact
    requires g < |t.writers| && h < |t.writers| && g != h && t.writers[g].None? && t.writers[h].None?
    ensures !AtMostOneOpen(Run(t, [Look(g, o), Look(h, p), Insert(g, validAt, now), Insert(h, validAt, later)]).edges)
  {
    var a, b, c, d := Look(g, o), Look(h, p), Insert(g, validAt, now), Insert(h, validAt, later);
    var t2 := Next(Next(t, a), b);
    assert [a, b, c, d][1..] == [b, c, d] && [b, c, d][1..] == [c, d];
    RunTwo(t2, c, d);
    InsertKeepsOneOpen(t.edges, o, validAt, now);
    var mid := t.edges + [NewEdge(o, validAt, now)];
    assert mid[|t.edges|].fact == p.fact && Open(mid[|t.edges|]);
    InsertKeepsOneOpen(mid, p, validAt, later);
  }

  // ---- One node per pod ----

  /** The pod has no open runs_on edge at all. */
  ghost predicate Nowhere(edges: seq<Edge>, cluster: string, pod: Entity) {
    forall i :: 0 <= i < |edges| && SamePod(edges[i].fact, Fact(cluster, pod, RUNS_ON, pod)) ==> !Open(edges[i])
  }

  ghost predicate OneNodeAlways(t: Table, ms: seq<Move>)
    decreases |ms|
  {
    OneNodePerPod(t.edges) && (ms == [] || OneNodeAlways(Next(t, ms[0]), ms[1..]))
  }

  /** An insertion of a runs_on edge finds the pod nowhere. */
  ghost predicate FindsNowhere(t: Table, m: Move) {
    m.Insert? && Ready(t, m.g) && t.writers[m.g].value.fact.rel == RUNS_ON ==>
      Nowhere(t.edges, t.writers[m.g].value.fact.cluster, t.writers[m.g].value.fact.src)
  }

  ghost predicate AlwaysNowhere(t: Table, ms: seq<Move>)
    decreases |ms|
  {
    ms == [] || (FindsNowhere(t, ms[0]) && AlwaysNowhere(Next(t, ms[0]), ms[1..]))
  }

  lemma InsertKeepsOneNode(edges: seq<Edge>, o: Opening, validAt: real, now: real)
    requires OneNodePerPod(edges)
    ensures OneNodePerPod(edges + [NewEdge(o, validAt, now)]) <==> (o.fact.rel == RUNS_ON ==> Nowhere(edges, o.fact.cluster, o.fact.src))
  {
    var after := edges + [NewEdge(o, validAt, now)];
    assert forall i :: 0 <= i < |edges| ==> after[i] == edges[i];
    if o.fact.rel == RUNS_ON && !Nowhere(edges, o.fact.cluster, o.fact.src) {
      var i :| 0 <= i < |edges| && SamePod(edges[i].fact, Fact(o.fact.cluster, o.fact.src, RUNS_ON, o.fact.src)) && Open(edges[i]);
      assert SamePod(after[i].fact, after[|edges|].fact) && Open(after[|edges|]);
    }
  }

  /** And over every such interleaving a pod is never on two nodes, nor twice on one, if and
      only if each insertion of a runs_on edge finds the pod nowhere. */
  lemma {:induction false} OneNodeIffNowhere(t: Table, ms: seq<Move>)
    requires OneNodePerPod(t.edges)
    ensures OneNodeAlways(t, ms) <==> AlwaysNowhere(t, ms)
    decreases |ms|
  {
    hide OneNodePerPod, Nowhere;
    if ms != [] {
      var m := ms[0];
      match m {
        case Look(_, _) =>
        case Insert(g, validAt, now) =>
          if Ready(t, g) {
            InsertKeepsOneNode(t.edges, t.writers[g].value, validAt, now);
          }
        case Abandon(_) =>
        case Statement(w, validAt, now) =>
          if !w.OpenEdge? {
            OtherWritesKeepOneNode(t.edges, w, validAt, now);
          }
      }
      if OneNodePerPod(Next(t, m).edges) {
        OneNodeIffNowhere(Next(t, m), ms[1..]);
      }
    }
  }
}
