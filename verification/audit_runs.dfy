/** Runs of the audit chain: any number of guard processes sharing one set of tables, each
    with its own cache, their steps interleaved in any order. */
module AuditRuns {
  import opened Options
  import opened ChainRecords
  import opened AuditGuard

  /** Where one process stands with the chain: nothing known, between the two queries of a
      resume, or a cached head. Its lock keeps it to one call at a time. */
  datatype Proc = Out | Midway(h: ChainHead) | Cached(h: ChainHead)

  /** One scope's ledger and its processes. */
  datatype World = World(ledger: Ledger, procs: seq<Proc>)

  /** Audit is ReadRow, ReadAnchor and Write by one process; only Write is a transaction,
      and other processes may step in between any two. Forget is a restart, or any error
      that drops the cache. Cut is the effect of TruncateChain (see ChainOps.TruncationCuts). */
  datatype Step =
    | ReadRow(g: nat)
    | ReadAnchor(g: nat, readable: bool)
    | Write(g: nat, kind: string, payload: Payload, commits: bool)
    | Forget(g: nat)
    | Cut(through: int, archiveHash: string)

  ghost function Next(hash: HashFn, scope: string, w: World, s: Step): World {
    match s
    case ReadRow(g) =>
      if g < |w.procs| && w.procs[g].Out? then Put(w, g, Midway(RowHead(w.ledger))) else w
    case ReadAnchor(g, readable) =>
      if g < |w.procs| && w.procs[g].Midway? then Put(w, g, Cached(PastAnchor(w.ledger, w.procs[g].h, readable))) else w
    case Write(g, kind, payload, commits) =>
      if g < |w.procs| && w.procs[g].Cached? then
        var h := w.procs[g].h;
        if !commits || HasRow(w.ledger.rows, h.next) then Put(w, g, Out)
        else
          var r := NewRow(hash, scope, h, kind, payload);
          Put(w.(ledger := Commit(w.ledger, r)), g, Cached(ChainHead(h.next + 1, r.hash)))
      else w
    case Forget(g) =>
      if g < |w.procs| then Put(w, g, Out) else w
    case Cut(through, archiveHash) =>
      if CanCut(w.ledger, through) then w.(ledger := CutLedger(w.ledger, through, archiveHash)) else w
  }

  ghost function Put(w: World, g: nat, p: Proc): World
    requires g < |w.procs|
  {
    w.(procs := w.procs[g := p])
  }

  ghost function Run(hash: HashFn, scope: string, w: World, steps: seq<Step>): World
    decreases |steps|
  {
    if steps == [] then w else Run(hash, scope, Next(hash, scope, w, steps[0]), steps[1..])
  }

  /** Where the row with this seq is, in a ledger that has one. */
  ghost function IndexOf(rows: seq<Row>, n: int): (i: nat)
    requires HasRow(rows, n)
    ensures i < |rows| && rows[i].seqNo == n
  {
    var i :| 0 <= i < |rows| && rows[i].seqNo == n;
    i
  }

  /** The live preconditions of a truncation: the row is there, a row survives it, the
      survivor chains from it, and this cut was not declared before. */
  ghost predicate CanCut(l: Ledger, through: int) {
    HasRow(l.rows, through) &&
    IndexOf(l.rows, through) + 1 < |l.rows| &&
    l.rows[IndexOf(l.rows, through) + 1].prevHash == l.rows[IndexOf(l.rows, through)].hash &&
    forall x :: x in l.gaps ==> x.through != through
  }

  ghost function CutLedger(l: Ledger, through: int, archiveHash: string): Ledger
    requires CanCut(l, through)
  {
    var i := IndexOf(l.rows, through) + 1;
    Ledger(l.rows[i..], l.head, l.gaps + [Gap(through, l.rows[i].seqNo, l.rows[i].prevHash, archiveHash)])
  }

  function ProcOf(cache: Option<ChainHead>): Proc {
    match cache
    case None => Out
    case Some(h) => Cached(h)
  }

  /** One call of Audit that nobody interrupts is the three steps in a row. */
  lemma AuditIsThreeSteps(hash: HashFn, scope: string, w: World, g: nat, cache: Option<ChainHead>,
                          kind: string, payload: Payload, fault: Fault)
    requires g < |w.procs| && w.procs[g] == ProcOf(cache)
    ensures
      var (l, c) := Audited(hash, scope, w.ledger, cache, kind, payload, fault);
      var steps := if fault.RowsUnreadable? && cache.None? then [Forget(g)]
                   else [ReadRow(g), ReadAnchor(g, !fault.AnchorUnreadable?), Write(g, kind, payload, !fault.WriteFails?)];
      Run(hash, scope, w, steps) == World(l, w.procs[g := ProcOf(c)])
  {
    if fault.RowsUnreadable? && cache.None? {
      RunOne(hash, scope, w, Forget(g));
    } else {
      var readable, write := !fault.AnchorUnreadable?, Write(g, kind, payload, !fault.WriteFails?);
      var a, b := ReadRow(g), ReadAnchor(g, readable);
      var w1 := Next(hash, scope, w, a);
      assert [a, b, write][1..] == [b, write];
      RunTwo(hash, scope, w1, b, write);
      ReadsResume(hash, scope, w, g, cache, readable);
    }
  }

  lemma ReadsResume(hash: HashFn, scope: string, w: World, g: nat, cache: Option<ChainHead>, readable: bool)
    requires g < |w.procs| && w.procs[g] == ProcOf(cache)
    ensures Next(hash, scope, Next(hash, scope, w, ReadRow(g)), ReadAnchor(g, readable)) ==
            Put(w, g, Cached(if cache.Some? then cache.value else Resume(w.ledger, readable)))
  {
    assert w.procs[g := w.procs[g]] == w.procs;
  }

  lemma RunOne(hash: HashFn, scope: string, w: World, s: Step)
    ensures Run(hash, scope, w, [s]) == Next(hash, scope, w, s)
  {
    assert [s][1..] == [];
  }

  lemma RunTwo(hash: HashFn, scope: string, w: World, a: Step, b: Step)
    ensures Run(hash, scope, w, [a, b]) == Next(hash, scope, Next(hash, scope, w, a), b)
  {
    assert [a, b][1..] == [b];
    RunOne(hash, scope, Next(hash, scope, w, a), b);
  }

  // ---- Honest histories ----

  /** The hash in front of seq n: blank at the origin, or that of some row with the seq before. */
  ghost predicate InFront(hash: HashFn, scope: string, prev: string, n: int) {
    if n == 0 then prev == "" else exists r: Row :: HashOf(hash, scope, r) == prev && r.seqNo == n - 1
  }

  /** What honest steps keep. Unlike the verdict it does not accept a lagging anchor. */
  ghost predicate Intact(hash: HashFn, scope: string, l: Ledger) {
    if l.rows == [] then l.head.None? && l.gaps == []
    else
      var first := l.rows[0];
      first.seqNo >= 0 && InFront(hash, scope, first.prevHash, first.seqNo) &&
      Contiguous(l.rows, first.seqNo) && Linked(hash, scope, l.rows, first.prevHash) &&
      StartsWhereDeclared(l) &&
      (forall x :: x in l.gaps ==> 0 <= x.through < first.seqNo) &&
      l.head == Some(Anchor(Last(l.rows).seqNo, Last(l.rows).hash))
  }

  /** A cached head names some point of the chain (the end, or an older one if another
      process has appended since) together with the hash in front of that point. */
  ghost predicate Plausible(l: Ledger, h: ChainHead) {
    if l.rows == [] then h == ChainHead(0, "")
    else
      l.rows[0].seqNo <= h.next <= l.rows[0].seqNo + |l.rows| &&
      h.last == PrevOf(l.rows, h.next - l.rows[0].seqNo, l.rows[0].prevHash)
  }

  ghost predicate Honest(hash: HashFn, scope: string, w: World) {
    Intact(hash, scope, w.ledger) &&
    forall g :: 0 <= g < |w.procs| && !w.procs[g].Out? ==> Plausible(w.ledger, w.procs[g].h)
  }

  /** No process still holds a point that the cut removes. */
  ghost predicate NoStaleCache(w: World, through: int) {
    forall g :: 0 <= g < |w.procs| && !w.procs[g].Out? ==> w.procs[g].h.next > through
  }

  /** The anchor has moved on since this process read its row: somebody committed. */
  ghost predicate Overtaken(w: World, g: nat)
    requires g < |w.procs|
  {
    w.procs[g].Midway? && w.ledger.head.Some? && w.ledger.head.value.seqNo >= w.procs[g].h.next
  }

  ghost predicate SafeStep(w: World, s: Step) {
    match s
    case Cut(through, _) => NoStaleCache(w, through)
    case ReadAnchor(g, readable) => readable && g < |w.procs| ==> !Overtaken(w, g)
    case _ => true
  }

  ghost predicate SafeRun(hash: HashFn, scope: string, w: World, steps: seq<Step>)
    decreases |steps|
  {
    steps == [] || (SafeStep(w, steps[0]) && SafeRun(hash, scope, Next(hash, scope, w, steps[0]), steps[1..]))
  }

  lemma IntactIsAccepted(hash: HashFn, scope: string, l: Ledger)
    requires Intact(hash, scope, l)
    ensures Accepts(hash, scope, l)
  {
  }

  lemma ContiguousHas(rows: seq<Row>, start: int, n: int)
    requires Contiguous(rows, start)
    ensures HasRow(rows, n) <==> start <= n < start + |rows|
    ensures HasRow(rows, n) ==> IndexOf(rows, n) == n - start
  {
    if HasRow(rows, n) {
      assert rows[IndexOf(rows, n)].seqNo == start + IndexOf(rows, n);
    }
    if start <= n < start + |rows| {
      assert rows[n - start].seqNo == n;
    }
  }

  lemma AppendKeepsIntact(hash: HashFn, scope: string, l: Ledger, h: ChainHead, kind: string, payload: Payload)
    requires Intact(hash, scope, l) && Plausible(l, h) && !HasRow(l.rows, h.next)
    ensures
      var r := NewRow(hash, scope, h, kind, payload);
      Commit(l, r).rows == l.rows + [r] && Intact(hash, scope, Commit(l, r)) &&
      Plausible(Commit(l, r), ChainHead(h.next + 1, r.hash))
  {
    var r := NewRow(hash, scope, h, kind, payload);
    if l.rows != [] {
      ContiguousHas(l.rows, l.rows[0].seqNo, h.next);
    }
    assert Commit(l, r).rows == l.rows + [r];
    LinkedAppend(hash, scope, l.rows, if l.rows == [] then "" else l.rows[0].prevHash, r);
  }

  lemma AppendKeepsPlausible(l: Ledger, r: Row, h: ChainHead)
    requires Plausible(l, h)
    requires l.rows == [] ==> r.seqNo == 0 && r.prevHash == ""
    ensures Plausible(Ledger(l.rows + [r], Some(Anchor(r.seqNo, r.hash)), l.gaps), h)
  {
    if l.rows != [] {
      var i := h.next - l.rows[0].seqNo;
      assert i > 0 ==> (l.rows + [r])[i - 1] == l.rows[i - 1];
    }
  }

  lemma NewestRowIsPlausible(hash: HashFn, scope: string, l: Ledger)
    requires Intact(hash, scope, l)
    ensures Plausible(l, RowHead(l))
  {
  }

  lemma CutAtIndex(l: Ledger, through: int, archiveHash: string)
    requires l.rows != [] && Contiguous(l.rows, l.rows[0].seqNo) && CanCut(l, through)
    ensures
      var k := through - l.rows[0].seqNo + 1;
      0 < k < |l.rows| && l.rows[k].seqNo == through + 1 &&
      CutLedger(l, through, archiveHash) ==
      Ledger(l.rows[k..], l.head, l.gaps + [Gap(through, through + 1, l.rows[k].prevHash, archiveHash)])
  {
    ContiguousHas(l.rows, l.rows[0].seqNo, through);
  }

  lemma CutKeepsIntact(hash: HashFn, scope: string, l: Ledger, through: int, archiveHash: string)
    requires Intact(hash, scope, l) && CanCut(l, through)
    ensures Intact(hash, scope, CutLedger(l, through, archiveHash))
    ensures 0 <= through - l.rows[0].seqNo < |l.rows| - 1
    ensures CutLedger(l, through, archiveHash).rows == l.rows[through - l.rows[0].seqNo + 1..]
  {
    hide Linked, InsertRow, Newest, InFront;
    CutAtIndex(l, through, archiveHash);
    SuffixIsIntact(hash, scope, l, through - l.rows[0].seqNo + 1, archiveHash);
  }

  lemma SuffixIsIntact(hash: HashFn, scope: string, l: Ledger, k: nat, archiveHash: string)
    requires Intact(hash, scope, l) && 0 < k < |l.rows|
    ensures
      var through := l.rows[0].seqNo + k - 1;
      Intact(hash, scope, Ledger(l.rows[k..], l.head, l.gaps + [Gap(through, through + 1, l.rows[k].prevHash, archiveHash)]))
  {
    hide Linked, InsertRow, Newest, InFront;
    var through := l.rows[0].seqNo + k - 1;
    SuffixLinks(hash, scope, l, k);
    assert l.rows[k..][0] == l.rows[k] && Last(l.rows[k..]) == Last(l.rows);
    var gap := Gap(through, through + 1, l.rows[k].prevHash, archiveHash);
    DeclareGap(l.gaps, gap, l.rows[0].seqNo);
    DeclaredIsIntact(hash, scope, Ledger(l.rows[k..], l.head, l.gaps + [gap]), gap);
  }

  lemma DeclaredIsIntact(hash: HashFn, scope: string, l: Ledger, gap: Gap)
    requires l.rows != [] && Newest(l.gaps) == Some(gap) && gap.resumeSeq == gap.through + 1 == l.rows[0].seqNo > 0
    requires gap.resumePrev == l.rows[0].prevHash && InFront(hash, scope, gap.resumePrev, gap.resumeSeq)
    requires Contiguous(l.rows, gap.resumeSeq) && Linked(hash, scope, l.rows, gap.resumePrev)
    requires forall x :: x in l.gaps ==> 0 <= x.through < gap.through + 1
    requires l.head == Some(Anchor(Last(l.rows).seqNo, Last(l.rows).hash))
    ensures Intact(hash, scope, l)
  {
  }

  lemma DeclareGap(gaps: seq<Gap>, g: Gap, first: int)
    requires 0 <= first <= g.through && forall x :: x in gaps ==> 0 <= x.through < first
    ensures Newest(gaps + [g]) == Some(g)
    ensures forall x :: x in gaps + [g] ==> 0 <= x.through < g.through + 1
  {
    assert (gaps + [g])[..|gaps|] == gaps;
  }

  lemma SuffixLinks(hash: HashFn, scope: string, l: Ledger, k: nat)
    requires Intact(hash, scope, l) && 0 < k < |l.rows|
    ensures Contiguous(l.rows[k..], l.rows[0].seqNo + k) && Linked(hash, scope, l.rows[k..], l.rows[k].prevHash)
    ensures InFront(hash, scope, l.rows[k].prevHash, l.rows[0].seqNo + k)
  {
    var prev, before := l.rows[0].prevHash, l.rows[k - 1];
    assert LinkedAt(hash, scope, l.rows, prev, k) && LinkedAt(hash, scope, l.rows, prev, k - 1);
    LinkedSplit(hash, scope, l.rows, prev, k);
    assert HashOf(hash, scope, before) == l.rows[k].prevHash;
    forall i | 0 <= i < |l.rows| - k
      ensures l.rows[k..][i].seqNo == l.rows[0].seqNo + k + i
    {
      assert l.rows[k..][i] == l.rows[k + i];
    }
  }

  lemma SuffixPoint(rows: seq<Row>, prev: string, k: nat, i: nat)
    requires 0 < k < |rows| && k <= i <= |rows| && rows[k].prevHash == rows[k - 1].hash
    ensures PrevOf(rows[k..], i - k, rows[k].prevHash) == PrevOf(rows, i, prev)
  {
    assert i > k ==> rows[k..][i - k - 1] == rows[i - 1];
  }

  lemma CutKeepsPlausible(hash: HashFn, scope: string, l: Ledger, through: int, archiveHash: string, h: ChainHead)
    requires Intact(hash, scope, l) && CanCut(l, through) && Plausible(l, h) && h.next > through
    ensures Plausible(CutLedger(l, through, archiveHash), h)
  {
    hide InFront, Newest, InsertRow, StartsWhereDeclared;
    var start := l.rows[0].seqNo;
    CutAtIndex(l, through, archiveHash);
    assert LinkedAt(hash, scope, l.rows, l.rows[0].prevHash, through - start + 1);
    SuffixPoint(l.rows, l.rows[0].prevHash, through - start + 1, h.next - start);
    assert l.rows[through - start + 1..][0] == l.rows[through - start + 1];
  }

  lemma CutKeepsHonest(hash: HashFn, scope: string, w: World, through: int, archiveHash: string)
    requires Honest(hash, scope, w) && CanCut(w.ledger, through) && NoStaleCache(w, through)
    ensures Honest(hash, scope, World(CutLedger(w.ledger, through, archiveHash), w.procs))
  {
    hide Linked, InFront, Newest, InsertRow;
    CutKeepsIntact(hash, scope, w.ledger, through, archiveHash);
    forall g | 0 <= g < |w.procs| && !w.procs[g].Out?
      ensures Plausible(CutLedger(w.ledger, through, archiveHash), w.procs[g].h)
    {
      CutKeepsPlausible(hash, scope, w.ledger, through, archiveHash, w.procs[g].h);
    }
  }

  lemma WriteKeepsHonest(hash: HashFn, scope: string, w: World, s: Step)
    requires Honest(hash, scope, w) && s.Write?
    ensures Honest(hash, scope, Next(hash, scope, w, s))
  {
    hide Linked, InFront, Newest, InsertRow;
    if s.g < |w.procs| && w.procs[s.g].Cached? {
      var h := w.procs[s.g].h;
      if s.commits && !HasRow(w.ledger.rows, h.next) {
        AppendKeepsIntact(hash, scope, w.ledger, h, s.kind, s.payload);
        var r := NewRow(hash, scope, h, s.kind, s.payload);
        forall g | 0 <= g < |w.procs| && !w.procs[g].Out?
          ensures Plausible(Commit(w.ledger, r), w.procs[g].h)
        {
          AppendKeepsPlausible(w.ledger, r, w.procs[g].h);
        }
      }
    }
  }

  lemma StepKeepsHonest(hash: HashFn, scope: string, w: World, s: Step)
    requires Honest(hash, scope, w) && SafeStep(w, s)
    ensures Honest(hash, scope, Next(hash, scope, w, s))
  {
    match s
    case ReadRow(g) => NewestRowIsPlausible(hash, scope, w.ledger);
    case ReadAnchor(g, readable) =>
    case Write(_, _, _, _) => WriteKeepsHonest(hash, scope, w, s);
    case Forget(g) =>
    case Cut(through, archiveHash) =>
      if CanCut(w.ledger, through) {
        CutKeepsHonest(hash, scope, w, through, archiveHash);
      }
  }

  /** Every history of any number of processes verifies, whatever faults it had, as long
      as no truncation removes a point that a process still holds, and no process is
      overtaken between the two queries of its resume. */
  lemma {:induction false} HonestRunVerifies(hash: HashFn, scope: string, w: World, steps: seq<Step>)
    requires Honest(hash, scope, w) && SafeRun(hash, scope, w, steps)
    ensures Honest(hash, scope, Run(hash, scope, w, steps))
    ensures Accepts(hash, scope, Run(hash, scope, w, steps).ledger)
    decreases |steps|
  {
    if steps == [] {
      IntactIsAccepted(hash, scope, w.ledger);
    } else {
      StepKeepsHonest(hash, scope, w, steps[0]);
      HonestRunVerifies(hash, scope, Next(hash, scope, w, steps[0]), steps[1..]);
    }
  }

  // ---- What the rows record ----

  datatype Event = Event(kind: string, payload: Payload)

  ghost function EventsOf(rows: seq<Row>): (events: seq<Event>)
    ensures |events| == |rows|
  {
    seq(|rows|, i requires 0 <= i < |rows| => Event(rows[i].kind, rows[i].payload))
  }

  ghost predicate Commits(w: World, s: Step) {
    s.Write? && s.commits && s.g < |w.procs| && w.procs[s.g].Cached? && !HasRow(w.ledger.rows, w.procs[s.g].h.next)
  }

  /** What the committing writes of a run were called with, in order. */
  ghost function Committed(hash: HashFn, scope: string, w: World, steps: seq<Step>): seq<Event>
    decreases |steps|
  {
    if steps == [] then []
    else
      (if Commits(w, steps[0]) then [Event(steps[0].kind, steps[0].payload)] else []) +
      Committed(hash, scope, Next(hash, scope, w, steps[0]), steps[1..])
  }

  ghost predicate EndsWith<T>(all: seq<T>, end: seq<T>) {
    |end| <= |all| && all[|all| - |end|..] == end
  }

  /** The rows tell the history: the events that were there, then those of every committing
      write in the order of the commits, less what truncations took from the front. */
  lemma {:induction false} RunRecordsEvents(hash: HashFn, scope: string, w: World, steps: seq<Step>)
    requires Honest(hash, scope, w) && SafeRun(hash, scope, w, steps)
    ensures
      var told := EventsOf(w.ledger.rows) + Committed(hash, scope, w, steps);
      var rows := Run(hash, scope, w, steps).ledger.rows;
      EndsWith(told, EventsOf(rows)) && (CutFree(steps) ==> EventsOf(rows) == told)
    decreases |steps|
  {
    if steps != [] {
      hide Honest, Next, EventsOf, Commits, EndsWith;
      var s, rest := steps[0], steps[1..];
      var w1 := Next(hash, scope, w, s);
      StepKeepsHonest(hash, scope, w, s);
      StepRecordsEvent(hash, scope, w, s);
      RunRecordsEvents(hash, scope, w1, rest);
      var event := if Commits(w, s) then [Event(s.kind, s.payload)] else [];
      var before, later := EventsOf(w.ledger.rows), Committed(hash, scope, w1, rest);
      assert Committed(hash, scope, w, steps) == event + later;
      EndOfEnd(before, event, later, EventsOf(w1.ledger.rows), EventsOf(Run(hash, scope, w1, rest).ledger.rows));
    } else {
      assert EventsOf(w.ledger.rows) + [] == EventsOf(w.ledger.rows);
    }
  }

  lemma EndOfEnd<T>(before: seq<T>, event: seq<T>, later: seq<T>, end: seq<T>, last: seq<T>)
    requires EndsWith(before + event, end) && EndsWith(end + later, last)
    ensures EndsWith(before + (event + later), last)
    ensures end == before + event && last == end + later ==> last == before + (event + later)
  {
    var all := before + event;
    var k := |all| - |end|;
    assert before + (event + later) == all + later;
    assert (all + later)[k..] == end + later;
    assert (all + later)[k..][|end + later| - |last|..] == (all + later)[|all + later| - |last|..];
  }

  lemma StepRecordsEvent(hash: HashFn, scope: string, w: World, s: Step)
    requires Honest(hash, scope, w) && SafeStep(w, s)
    ensures
      var rows := Next(hash, scope, w, s).ledger.rows;
      var told := EventsOf(w.ledger.rows) + (if Commits(w, s) then [Event(s.kind, s.payload)] else []);
      EndsWith(told, EventsOf(rows)) && (!s.Cut? ==> EventsOf(rows) == told)
  {
    hide Linked, InsertRow, Newest, InFront, EventsOf, Plausible, StartsWhereDeclared;
    var rows := w.ledger.rows;
    if Commits(w, s) {
      AppendKeepsIntact(hash, scope, w.ledger, w.procs[s.g].h, s.kind, s.payload);
      EventsOfAppend(rows, NewRow(hash, scope, w.procs[s.g].h, s.kind, s.payload));
    } else {
      assert EventsOf(rows) + [] == EventsOf(rows);
      if s.Cut? && CanCut(w.ledger, s.through) {
        EventsOfSuffix(rows, IndexOf(rows, s.through) + 1);
      }
    }
  }

  lemma EventsOfAppend(rows: seq<Row>, r: Row)
    ensures EventsOf(rows + [r]) == EventsOf(rows) + [Event(r.kind, r.payload)]
  {
  }

  lemma EventsOfSuffix(rows: seq<Row>, k: nat)
    requires k <= |rows|
    ensures EventsOf(rows[k..]) == EventsOf(rows)[k..] && EndsWith(EventsOf(rows), EventsOf(rows[k..]))
  {
  }

  /** With a single process nothing is ever stale or overtaken, so no side condition is left. */
  ghost predicate Fresh(l: Ledger, p: Proc) {
    !p.Out? ==> p.h.next == (if l.rows == [] then 0 else Last(l.rows).seqNo + 1)
  }

  lemma FreshStep(hash: HashFn, scope: string, w: World, s: Step)
    requires Honest(hash, scope, w) && |w.procs| == 1 && Fresh(w.ledger, w.procs[0])
    ensures SafeStep(w, s) || (s.Cut? && !CanCut(w.ledger, s.through))
    ensures Fresh(Next(hash, scope, w, s).ledger, Next(hash, scope, w, s).procs[0])
  {
    hide Linked, InsertRow, Newest, InFront;
    if s.Cut? && CanCut(w.ledger, s.through) {
      CutAtIndex(w.ledger, s.through, s.archiveHash);
    } else if s.Write? && s.g == 0 && w.procs[0].Cached? && s.commits && !HasRow(w.ledger.rows, w.procs[0].h.next) {
      AppendKeepsIntact(hash, scope, w.ledger, w.procs[0].h, s.kind, s.payload);
    }
  }

  lemma {:induction false} OneProcessRunVerifies(hash: HashFn, scope: string, w: World, steps: seq<Step>)
    requires Honest(hash, scope, w) && |w.procs| == 1 && Fresh(w.ledger, w.procs[0])
    ensures Accepts(hash, scope, Run(hash, scope, w, steps).ledger)
    decreases |steps|
  {
    if steps == [] {
      IntactIsAccepted(hash, scope, w.ledger);
    } else {
      FreshStep(hash, scope, w, steps[0]);
      if SafeStep(w, steps[0]) {
        StepKeepsHonest(hash, scope, w, steps[0]);
      }
      OneProcessRunVerifies(hash, scope, Next(hash, scope, w, steps[0]), steps[1..]);
    }
  }

  // ---- Both side conditions are exact ----

  predicate CutFree(steps: seq<Step>) {
    forall i :: 0 <= i < |steps| ==> !steps[i].Cut?
  }

  /** Whatever happens next, short of another of the two accidents, the chain verifies. */
  ghost predicate StaysValid(hash: HashFn, scope: string, w: World) {
    forall steps: seq<Step> :: CutFree(steps) && SafeRun(hash, scope, w, steps) ==> Accepts(hash, scope, Run(hash, scope, w, steps).ledger)
  }

  lemma HonestStaysValid(hash: HashFn, scope: string, w: World)
    requires Honest(hash, scope, w)
    ensures StaysValid(hash, scope, w)
  {
    forall steps: seq<Step> | CutFree(steps) && SafeRun(hash, scope, w, steps)
      ensures Accepts(hash, scope, Run(hash, scope, w, steps).ledger)
    {
      HonestRunVerifies(hash, scope, w, steps);
    }
  }

  /** No two points of a chain have the same hash in front of them. */
  lemma PointsDiffer(hash: HashFn, scope: string, l: Ledger, i: nat, j: nat)
    requires Injective(hash) && NeverBlank(hash) && Intact(hash, scope, l) && i < j <= |l.rows|
    ensures PrevOf(l.rows, i, l.rows[0].prevHash) != PrevOf(l.rows, j, l.rows[0].prevHash)
  {
    assert LinkedAt(hash, scope, l.rows, l.rows[0].prevHash, j - 1);
    if i > 0 {
      assert LinkedAt(hash, scope, l.rows, l.rows[0].prevHash, i - 1);
    }
  }

  /** When a process reads the anchor in the middle of its resume, later runs verify if and
      only if nobody has committed since it read its row. Otherwise its next append takes a
      seq past the newest row and points back at an older one. */
  lemma OvertakenResumeBreaks(hash: HashFn, scope: string, w: World, g: nat)
    requires Injective(hash) && NeverBlank(hash) && Honest(hash, scope, w) && g < |w.procs| && w.procs[g].Midway?
    ensures StaysValid(hash, scope, Next(hash, scope, w, ReadAnchor(g, true))) <==> !Overtaken(w, g)
  {
    var w1 := Next(hash, scope, w, ReadAnchor(g, true));
    if !Overtaken(w, g) {
      StepKeepsHonest(hash, scope, w, ReadAnchor(g, true));
      HonestStaysValid(hash, scope, w1);
    } else {
      var write := Write(g, "", "", true);
      RunOne(hash, scope, w1, write);
      TornAppendIsRejected(hash, scope, w.ledger, w.procs[g].h);
      assert CutFree([write]) && SafeRun(hash, scope, w1, [write]);
    }
  }

  lemma TornAppendIsRejected(hash: HashFn, scope: string, l: Ledger, h: ChainHead)
    requires Injective(hash) && NeverBlank(hash) && Intact(hash, scope, l) && Plausible(l, h)
    requires l.head.Some? && l.head.value.seqNo >= h.next
    ensures
      var torn := PastAnchor(l, h, true);
      !HasRow(l.rows, torn.next) && !Accepts(hash, scope, Commit(l, NewRow(hash, scope, torn, "", "")))
  {
    var rows, r := l.rows, NewRow(hash, scope, PastAnchor(l, h, true), "", "");
    ContiguousHas(rows, rows[0].seqNo, r.seqNo);
    PointsDiffer(hash, scope, l, h.next - rows[0].seqNo, |rows|);
    LinkedAppend(hash, scope, rows, rows[0].prevHash, r);
    assert Commit(l, r).rows == rows + [r];
  }

  /** After a truncation, later runs verify if and only if no process still holds a point
      it removed. Otherwise that process appends in front of the cut. */
  lemma StaleCacheBreaksCut(hash: HashFn, scope: string, w: World, through: int, archiveHash: string)
    requires Injective(hash) && Honest(hash, scope, w) && CanCut(w.ledger, through)
    ensures StaysValid(hash, scope, Next(hash, scope, w, Cut(through, archiveHash))) <==> NoStaleCache(w, through)
  {
    var w1 := Next(hash, scope, w, Cut(through, archiveHash));
    if NoStaleCache(w, through) {
      CutKeepsHonest(hash, scope, w, through, archiveHash);
      HonestStaysValid(hash, scope, w1);
    } else {
      var g: nat :| g < |w.procs| && !w.procs[g].Out? && w.procs[g].h.next <= through;
      var steps := StaleAppend(hash, scope, w, through, archiveHash, g);
    }
  }

  lemma StaleAppend(hash: HashFn, scope: string, w: World, through: int, archiveHash: string, g: nat) returns (steps: seq<Step>)
    requires Injective(hash) && Honest(hash, scope, w) && CanCut(w.ledger, through)
    requires g < |w.procs| && !w.procs[g].Out? && w.procs[g].h.next <= through
    ensures
      var w1 := Next(hash, scope, w, Cut(through, archiveHash));
      CutFree(steps) && SafeRun(hash, scope, w1, steps) && !Accepts(hash, scope, Run(hash, scope, w1, steps).ledger)
  {
    hide Linked, InFront, Newest, InsertRow;
    var kind, payload, h := "", OtherPayload(w.ledger.rows[0].payload), w.procs[g].h;
    var read, write := ReadAnchor(g, false), Write(g, kind, payload, true);
    var w1 := Next(hash, scope, w, Cut(through, archiveHash));
    steps := [read, write];
    CutInFront(hash, scope, w.ledger, through, archiveHash, h, kind, payload);
    AppendsItsHead(hash, scope, w1, g, kind, payload);
  }

  /** A process that holds a free point appends there, whether or not it has read the anchor. */
  lemma AppendsItsHead(hash: HashFn, scope: string, w: World, g: nat, kind: string, payload: Payload)
    requires g < |w.procs| && !w.procs[g].Out? && !HasRow(w.ledger.rows, w.procs[g].h.next)
    ensures
      var steps := [ReadAnchor(g, false), Write(g, kind, payload, true)];
      SafeRun(hash, scope, w, steps) &&
      Run(hash, scope, w, steps).ledger == Commit(w.ledger, NewRow(hash, scope, w.procs[g].h, kind, payload))
  {
    var read, write := ReadAnchor(g, false), Write(g, kind, payload, true);
    RunTwo(hash, scope, w, read, write);
    SafeTwo(hash, scope, w, read, write);
    assert Next(hash, scope, w, read) == Put(w, g, Cached(w.procs[g].h));
  }

  lemma CutInFront(hash: HashFn, scope: string, l: Ledger, through: int, archiveHash: string, h: ChainHead, kind: string, payload: Payload)
    requires Injective(hash) && Intact(hash, scope, l) && CanCut(l, through) && Plausible(l, h)
    requires h.next <= through && payload != l.rows[0].payload
    ensures
      var cut := CutLedger(l, through, archiveHash);
      !HasRow(cut.rows, h.next) && !Accepts(hash, scope, Commit(cut, NewRow(hash, scope, h, kind, payload)))
  {
    CutAtIndex(l, through, archiveHash);
    CutKeepsIntact(hash, scope, l, through, archiveHash);
    RowInFrontIsRejected(hash, scope, l, CutLedger(l, through, archiveHash), h, kind, payload);
  }

  lemma SafeTwo(hash: HashFn, scope: string, w: World, a: Step, b: Step)
    requires SafeStep(w, a) && SafeStep(Next(hash, scope, w, a), b)
    ensures SafeRun(hash, scope, w, [a, b])
  {
    assert [a, b][1..] == [b] && [b][1..] == [];
  }

  function OtherPayload(p: Payload): (other: Payload)
    ensures other != p
  {
    p + "x"
  }

  lemma RowInFrontIsRejected(hash: HashFn, scope: string, l: Ledger, cut: Ledger, h: ChainHead, kind: string, payload: Payload)
    requires Injective(hash) && Intact(hash, scope, l) && Intact(hash, scope, cut)
    requires l.rows != [] && cut.rows != [] && cut.rows[0].seqNo > h.next >= l.rows[0].seqNo
    requires cut.rows[0].seqNo == l.rows[0].seqNo + 1 ==> |l.rows| > 1 && cut.rows[0] == l.rows[1] && payload != l.rows[0].payload
    ensures !HasRow(cut.rows, h.next)
    ensures !Accepts(hash, scope, Commit(cut, NewRow(hash, scope, h, kind, payload)))
  {
    ContiguousHas(cut.rows, cut.rows[0].seqNo, h.next);
    var r := NewRow(hash, scope, h, kind, payload);
    var after := Commit(cut, r).rows;
    InsertInFront(cut.rows, r);
    assert after[1] == cut.rows[0];
    if cut.rows[0].seqNo == l.rows[0].seqNo + 1 {
      assert LinkedAt(hash, scope, l.rows, l.rows[0].prevHash, 0) && LinkedAt(hash, scope, l.rows, l.rows[0].prevHash, 1);
      assert r.hash != cut.rows[0].prevHash;
      assert !LinkedAt(hash, scope, after, after[0].prevHash, 1);
    }
  }

  lemma {:induction false} InsertInFront(rows: seq<Row>, r: Row)
    requires forall i :: 0 <= i < |rows| ==> r.seqNo < rows[i].seqNo
    ensures InsertRow(rows, r) == [r] + rows
  {
    if rows != [] {
      InsertInFront(rows[..|rows| - 1], r);
    }
  }

  // ---- A verdict while others work ----

  /** What appends and declared cuts lead to: no seq is ever lower, the newest row is the
      same row or a newer one, and a newly declared gap means that the front has gone. */
  ghost predicate Later(a: Ledger, b: Ledger) {
    a.rows != [] ==>
      b.rows != [] && a.rows[0].seqNo <= b.rows[0].seqNo && Last(a.rows).seqNo <= Last(b.rows).seqNo &&
      (Last(a.rows).seqNo == Last(b.rows).seqNo ==> Last(a.rows) == Last(b.rows)) &&
      (a.rows[0].seqNo == b.rows[0].seqNo ==> a.gaps == b.gaps)
  }

  lemma StepIsLater(hash: HashFn, scope: string, w: World, s: Step)
    requires Honest(hash, scope, w) && SafeStep(w, s)
    ensures Later(w.ledger, Next(hash, scope, w, s).ledger)
  {
    hide Linked, InsertRow, Newest, InFront;
    if s.Cut? && CanCut(w.ledger, s.through) {
      CutAtIndex(w.ledger, s.through, s.archiveHash);
    } else if s.Write? && s.g < |w.procs| && w.procs[s.g].Cached? && s.commits && !HasRow(w.ledger.rows, w.procs[s.g].h.next) {
      AppendKeepsIntact(hash, scope, w.ledger, w.procs[s.g].h, s.kind, s.payload);
      if w.ledger.rows != [] {
        ContiguousHas(w.ledger.rows, w.ledger.rows[0].seqNo, w.procs[s.g].h.next);
      }
    }
  }

  lemma {:induction false} RunIsLater(hash: HashFn, scope: string, w: World, steps: seq<Step>)
    requires Honest(hash, scope, w) && SafeRun(hash, scope, w, steps)
    ensures Later(w.ledger, Run(hash, scope, w, steps).ledger)
    decreases |steps|
  {
    if steps != [] {
      StepIsLater(hash, scope, w, steps[0]);
      StepKeepsHonest(hash, scope, w, steps[0]);
      RunIsLater(hash, scope, Next(hash, scope, w, steps[0]), steps[1..]);
    }
  }

  /** Verify asks for the rows, the declared gap and the anchor one after the other, while
      others go on, and takes the rows it got for all of them. On an honest chain its
      verdict is "valid" if and only if the row query did not break off, nobody committed
      until the anchor was read, and, if the front is gone, nobody truncated until the gap
      was read. Otherwise it reports tampering. */
  lemma HonestVerdictIffUndisturbed(hash: HashFn, scope: string, w: World, first: seq<Step>, second: seq<Step>, k: nat)
    requires Honest(hash, scope, w) && k <= |w.ledger.rows| && SafeRun(hash, scope, w, first)
    requires SafeRun(hash, scope, Run(hash, scope, w, first), second)
    ensures
      var l := w.ledger;
      var w1 := Run(hash, scope, w, first);
      var w2 := Run(hash, scope, w1, second);
      Accepts(hash, scope, Ledger(l.rows[..k], w2.ledger.head, w1.ledger.gaps)) <==>
      k == |l.rows| && w2.ledger.head == l.head && (l.rows != [] && l.rows[0].seqNo > 0 ==> w1.ledger.gaps == l.gaps)
  {
    var w1 := Run(hash, scope, w, first);
    HonestRunVerifies(hash, scope, w, first);
    RunIsLater(hash, scope, w, first);
    HonestRunVerifies(hash, scope, w1, second);
    RunIsLater(hash, scope, w1, second);
    MixedRead(hash, scope, w.ledger, w1.ledger, Run(hash, scope, w1, second).ledger, k);
  }

  lemma MixedRead(hash: HashFn, scope: string, l: Ledger, l1: Ledger, l2: Ledger, k: nat)
    requires Intact(hash, scope, l) && Intact(hash, scope, l1) && Intact(hash, scope, l2)
    requires Later(l, l1) && Later(l1, l2) && k <= |l.rows|
    ensures Accepts(hash, scope, Ledger(l.rows[..k], l2.head, l1.gaps)) <==>
            k == |l.rows| && l2.head == l.head && (l.rows != [] && l.rows[0].seqNo > 0 ==> l1.gaps == l.gaps)
  {
    assert l.rows[..|l.rows|] == l.rows;
    assert 0 < k < |l.rows| ==> Last(l.rows[..k]).seqNo < Last(l.rows).seqNo;
  }

  // ---- A lost tail ----

  /** Someone deletes every row from seq n on and leaves the anchor. */
  ghost function LoseTail(l: Ledger, n: int): Ledger
    requires HasRow(l.rows, n)
  {
    l.(rows := l.rows[..IndexOf(l.rows, n)])
  }

  /** Appends, restarts and resumes; no truncation, and every anchor read succeeds. Whether
      resumes are overtaken does not matter here. */
  predicate Appending(s: Step) {
    !s.Cut? && (s.ReadAnchor? ==> s.readable)
  }

  predicate AllAppending(steps: seq<Step>) {
    forall i :: 0 <= i < |steps| ==> Appending(steps[i])
  }

  ghost predicate RejectedForever(hash: HashFn, scope: string, w: World) {
    forall steps: seq<Step> :: AllAppending(steps) ==> !Accepts(hash, scope, Run(hash, scope, w, steps).ledger)
  }

  /** Row n is gone, the anchor is at or past it, and nobody is about to write it. */
  ghost predicate Torn(w: World, n: int) {
    n >= 0 && Ascending(w.ledger.rows) && !HasRow(w.ledger.rows, n) &&
    w.ledger.head.Some? && w.ledger.head.value.seqNo >= n &&
    (Newest(w.ledger.gaps).Some? ==> Newest(w.ledger.gaps).value.resumeSeq <= n) &&
    forall g :: 0 <= g < |w.procs| && w.procs[g].Cached? ==>
      w.procs[g].h.next > n || HasRow(w.ledger.rows, w.procs[g].h.next)
  }

  lemma TornIsRejected(hash: HashFn, scope: string, w: World, n: int)
    requires Torn(w, n)
    ensures !Accepts(hash, scope, w.ledger)
  {
    var rows := w.ledger.rows;
    if rows != [] && Contiguous(rows, rows[0].seqNo) {
      ContiguousHas(rows, rows[0].seqNo, n);
    }
  }

  lemma MembersDecideSeqs(rows: seq<Row>, r: Row, after: seq<Row>, m: int)
    requires forall x :: x in after <==> x in rows || x == r
    ensures HasRow(after, m) <==> HasRow(rows, m) || m == r.seqNo
  {
    assert forall s: seq<Row> :: HasRow(s, m) <==> exists x :: x in s && x.seqNo == m;
  }

  lemma StepKeepsTorn(hash: HashFn, scope: string, w: World, s: Step, n: int)
    requires Torn(w, n) && Appending(s)
    ensures Torn(Next(hash, scope, w, s), n)
  {
    if s.Write? && s.g < |w.procs| && w.procs[s.g].Cached? {
      var h := w.procs[s.g].h;
      if s.commits && !HasRow(w.ledger.rows, h.next) {
        var r := NewRow(hash, scope, h, s.kind, s.payload);
        InsertRowKeepsOrder(w.ledger.rows, r);
        var after := Commit(w.ledger, r);
        forall m
          ensures HasRow(after.rows, m) <==> HasRow(w.ledger.rows, m) || m == h.next
        {
          MembersDecideSeqs(w.ledger.rows, r, after.rows, m);
        }
      }
    }
  }

  lemma {:induction false} TornForever(hash: HashFn, scope: string, w: World, steps: seq<Step>, n: int)
    requires Torn(w, n) && AllAppending(steps)
    ensures !Accepts(hash, scope, Run(hash, scope, w, steps).ledger)
    decreases |steps|
  {
    if steps == [] {
      TornIsRejected(hash, scope, w, n);
    } else {
      StepKeepsTorn(hash, scope, w, steps[0], n);
      TornForever(hash, scope, Next(hash, scope, w, steps[0]), steps[1..], n);
    }
  }

  /** Some process caches exactly the first lost point as the place to append next. */
  ghost predicate SomeoneResumesAt(w: World, n: int) {
    exists g :: 0 <= g < |w.procs| && w.procs[g].Cached? && w.procs[g].h.next == n
  }

  /** Deleting the newest rows of an honest chain is visible for ever, through every
      later interleaving of appends and restarts, exactly unless some process still
      caches the first deleted seq as its next one. */
  lemma LostTailIsSeenForever(hash: HashFn, scope: string, w: World, n: int)
    requires Honest(hash, scope, w) && HasRow(w.ledger.rows, n)
    ensures RejectedForever(hash, scope, World(LoseTail(w.ledger, n), w.procs)) <==> !SomeoneResumesAt(w, n)
  {
    var lost := World(LoseTail(w.ledger, n), w.procs);
    if SomeoneResumesAt(w, n) {
      var g :| 0 <= g < |w.procs| && w.procs[g].Cached? && w.procs[g].h.next == n;
      StaleCacheHealsTail(hash, scope, w, n, g, "", "");
      assert AllAppending([Write(g, "", "", true)]);
    } else {
      LostTailIsTorn(hash, scope, w, n);
      forall steps: seq<Step> | AllAppending(steps)
        ensures !Accepts(hash, scope, Run(hash, scope, lost, steps).ledger)
      {
        TornForever(hash, scope, lost, steps, n);
      }
    }
  }

  lemma LostTailIsTorn(hash: HashFn, scope: string, w: World, n: int)
    requires Honest(hash, scope, w) && HasRow(w.ledger.rows, n) && !SomeoneResumesAt(w, n)
    ensures Torn(World(LoseTail(w.ledger, n), w.procs), n)
  {
    var l := w.ledger;
    var lost := LoseTail(l, n);
    var start := l.rows[0].seqNo;
    ContiguousHas(l.rows, start, n);
    assert Contiguous(lost.rows, start);
    ContiguousHas(lost.rows, start, n);
    forall g | 0 <= g < |w.procs| && w.procs[g].Cached?
      ensures w.procs[g].h.next > n || HasRow(lost.rows, w.procs[g].h.next)
    {
      assert Plausible(l, w.procs[g].h);
      ContiguousHas(lost.rows, start, w.procs[g].h.next);
    }
  }

  /** A process that still caches seq n with the hash in front of it writes n again, and
      the anchor moves back with it: nothing is left to see. */
  lemma StaleCacheHealsTail(hash: HashFn, scope: string, w: World, n: int, g: nat, kind: string, payload: Payload)
    requires Honest(hash, scope, w) && HasRow(w.ledger.rows, n)
    requires g < |w.procs| && w.procs[g].Cached? && w.procs[g].h.next == n
    ensures Accepts(hash, scope,
                    Run(hash, scope, World(LoseTail(w.ledger, n), w.procs), [Write(g, kind, payload, true)]).ledger)
  {
    var lost := World(LoseTail(w.ledger, n), w.procs);
    var s := Write(g, kind, payload, true);
    assert Run(hash, scope, lost, [s]) == Next(hash, scope, lost, s);
    RewrittenPointIsAccepted(hash, scope, w.ledger, n, w.procs[g].h, kind, payload);
  }

  /** Resuming without reading the anchor does the same: the lost rows are never missed. */
  lemma UnreadAnchorHealsTail(hash: HashFn, scope: string, w: World, n: int, g: nat, kind: string, payload: Payload)
    requires Honest(hash, scope, w) && HasRow(w.ledger.rows, n)
    requires g < |w.procs| && w.procs[g].Out?
    ensures Accepts(hash, scope, Run(hash, scope, World(LoseTail(w.ledger, n), w.procs),
                                     [ReadRow(g), ReadAnchor(g, false), Write(g, kind, payload, true)]).ledger)
  {
    var lost := World(LoseTail(w.ledger, n), w.procs);
    var a, b, c := ReadRow(g), ReadAnchor(g, false), Write(g, kind, payload, true);
    var w1 := Next(hash, scope, lost, a);
    assert [a, b, c][1..] == [b, c];
    RunTwo(hash, scope, w1, b, c);
    var w2 := Next(hash, scope, w1, b);
    ContiguousHas(w.ledger.rows, w.ledger.rows[0].seqNo, n);
    var h := Resume(lost.ledger, false);
    if lost.ledger.rows == [] {
      assert Next(hash, scope, w2, c).ledger.rows == [NewRow(hash, scope, h, kind, payload)];
    } else {
      RewrittenPointIsAccepted(hash, scope, w.ledger, n, h, kind, payload);
    }
  }

  lemma RewrittenPointIsAccepted(hash: HashFn, scope: string, l: Ledger, n: int, h: ChainHead, kind: string, payload: Payload)
    requires Intact(hash, scope, l) && Plausible(l, h) && HasRow(l.rows, n) && h.next == n
    ensures !HasRow(LoseTail(l, n).rows, n)
    ensures Accepts(hash, scope, Commit(LoseTail(l, n), NewRow(hash, scope, h, kind, payload)))
  {
    var start, lost, r := l.rows[0].seqNo, LoseTail(l, n), NewRow(hash, scope, h, kind, payload);
    ContiguousHas(l.rows, start, n);
    assert Contiguous(lost.rows, start);
    ContiguousHas(lost.rows, start, n);
    var after := Commit(lost, r);
    assert after.rows == l.rows[..n - start] + [r];
    LinkedSplit(hash, scope, l.rows, l.rows[0].prevHash, n - start);
    LinkedAppend(hash, scope, l.rows[..n - start], l.rows[0].prevHash, r);
  }
}
