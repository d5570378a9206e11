/** Archives of a chain and the declared removal of its prefix (internal/chainops). */
module ChainOps {
  import opened Options
  import opened ChainRecords
  import opened AuditGuard
  import opened AuditRuns

  const ARCHIVE_VERSION := 1

  const CHAINS: set<string> := {"decision_log", "memory_audit"}

  /** The archive document without its content hash. linksVerified is absent when the
      document does not carry a boolean there. */
  datatype Body = Body(version: int, chain: string, scope: string, through: Option<int>, boundedAt: Option<int>,
                       startPrev: string, endHash: string, anchor: Option<Anchor>,
                       linksVerified: Option<bool>, rows: seq<Row>)

  datatype Archive = Archive(body: Body, contentHash: string)

  type ContentHash = Body -> string

  datatype Problem =
    | TooNew | NoContentHash | Edited | Unlinked | RepairedSince | AlteredSince
    | NoAnchor | AnchorBehind | EntriesMissing

  datatype Refusal =
    | DoesNotVerify | UnknownChain | NoRows | EndRowGone | EndRowChanged | NothingSurvives | SeamBroken | AlreadyDeclared

  datatype Outcome = Refused(why: Refusal) | Truncated(through: int, resumeSeq: int, resumePrev: string, rowsRemoved: nat)

  // ---- Segments ----

  /** What VerifySegment accepts. The seq check is skipped behind a row whose successor
      would be negative. */
  ghost predicate SegmentOk(hash: HashFn, scope: string, rows: seq<Row>, prev: string) {
    Linked(hash, scope, rows, prev) &&
    forall i :: 0 < i < |rows| ==> FollowsOn(rows, i)
  }

  predicate FollowsOn(rows: seq<Row>, i: nat)
    requires 0 < i < |rows|
  {
    rows[i - 1].seqNo + 1 >= 0 ==> rows[i].seqNo == rows[i - 1].seqNo + 1
  }

  method VerifySegment(hash: HashFn, scope: string, rows: seq<Row>, startPrev: string) returns (ok: bool)
    ensures ok <==> SegmentOk(hash, scope, rows, startPrev)
  {
    var prev, want := startPrev, -1;
    for i := 0 to |rows|
      invariant prev == PrevOf(rows, i, startPrev)
      invariant want == if i == 0 then -1 else rows[i - 1].seqNo + 1
      invariant forall k :: 0 <= k < i ==> LinkedAt(hash, scope, rows, startPrev, k)
      invariant forall k :: 0 < k < i ==> FollowsOn(rows, k)
    {
      var r := rows[i];
      if want >= 0 && r.seqNo != want {
        assert !FollowsOn(rows, i);
        return false;
      }
      assert LinkedAt(hash, scope, rows, startPrev, i) <==> r.prevHash == prev && hash(prev, scope, r.seqNo, r.kind, r.payload) == r.hash;
      if r.prevHash != prev || hash(prev, scope, r.seqNo, r.kind, r.payload) != r.hash {
        return false;
      }
      prev, want := r.hash, r.seqNo + 1;
    }
    return true;
  }

  /** From -1 on, accepted segments are exactly the linked and contiguous ones. */
  lemma {:induction false} SegmentIsContiguous(hash: HashFn, scope: string, rows: seq<Row>, prev: string)
    requires rows != [] && rows[0].seqNo >= -1
    ensures SegmentOk(hash, scope, rows, prev) <==> Linked(hash, scope, rows, prev) && Contiguous(rows, rows[0].seqNo)
  {
    if SegmentOk(hash, scope, rows, prev) {
      for n := 1 to |rows|
        invariant forall i :: 0 <= i < n ==> rows[i].seqNo == rows[0].seqNo + i
      {
        assert FollowsOn(rows, n);
      }
    }
  }

  /** Below that the next seq is never checked: behind any earlier start, any seq is accepted. */
  lemma NegativeSegmentMaySkip(hash: HashFn, scope: string, prev: string, start: int, next: int)
    requires start < -1
    ensures exists rows: seq<Row> :: SegmentOk(hash, scope, rows, prev) && |rows| == 2 && rows[0].seqNo == start && rows[1].seqNo == next
  {
    var a := Row(start, "", "", prev, hash(prev, scope, start, "", ""));
    var b := Row(next, "", "", a.hash, hash(a.hash, scope, next, "", ""));
    var rows := [a, b];
    assert LinkedAt(hash, scope, rows, prev, 0) && LinkedAt(hash, scope, rows, prev, 1);
    assert FollowsOn(rows, 1);
    assert SegmentOk(hash, scope, rows, prev);
  }

  lemma HashFixesRow(hash: HashFn, scope: string, a: Row, b: Row)
    requires Injective(hash) && a.hash == b.hash
    requires a.hash == HashOf(hash, scope, a) && b.hash == HashOf(hash, scope, b)
    ensures a == b
  {
  }

  /** With an injective hash, the first seq and the last hash of a segment fix every row
      in it, and so also the hash it starts from. */
  lemma {:induction false} EndHashFixesSegment(hash: HashFn, scope: string, p: seq<Row>, q: seq<Row>, pp: string, qp: string)
    requires Injective(hash) && p != [] && q != []
    requires SegmentOk(hash, scope, p, pp) && SegmentOk(hash, scope, q, qp)
    requires p[0].seqNo == q[0].seqNo >= -1 && Last(p).hash == Last(q).hash
    ensures p == q && pp == qp
  {
    SegmentIsContiguous(hash, scope, p, pp);
    SegmentIsContiguous(hash, scope, q, qp);
    assert LinkedAt(hash, scope, p, pp, |p| - 1) && LinkedAt(hash, scope, q, qp, |q| - 1);
    HashFixesRow(hash, scope, Last(p), Last(q));
    assert |p| == |q|;
    var i := |p| - 1;
    while i > 0
      invariant 0 <= i < |p| && p[i..] == q[i..]
    {
      assert p[i] == p[i..][0] == q[i];
      assert LinkedAt(hash, scope, p, pp, i) && LinkedAt(hash, scope, q, qp, i);
      assert LinkedAt(hash, scope, p, pp, i - 1) && LinkedAt(hash, scope, q, qp, i - 1);
      HashFixesRow(hash, scope, p[i - 1], q[i - 1]);
      assert p[i - 1..] == [p[i - 1]] + p[i..] && q[i - 1..] == [q[i - 1]] + q[i..];
      i := i - 1;
    }
    assert p == p[0..] && q == q[0..];
    assert LinkedAt(hash, scope, p, pp, 0) && LinkedAt(hash, scope, q, qp, 0);
  }

  // ---- Exporting ----

  /** WHERE seq <= n. */
  function RowsThrough(rows: seq<Row>, n: int): seq<Row> {
    if rows == [] then [] else (if rows[0].seqNo <= n then [rows[0]] else []) + RowsThrough(rows[1..], n)
  }

  /** What DELETE WHERE seq <= n leaves. */
  function RowsAfter(rows: seq<Row>, n: int): seq<Row> {
    if rows == [] then [] else (if rows[0].seqNo <= n then [] else [rows[0]]) + RowsAfter(rows[1..], n)
  }

  lemma {:induction false} SelectionsSplit(rows: seq<Row>, n: int, k: nat)
    requires k <= |rows|
    requires forall i :: 0 <= i < |rows| ==> (rows[i].seqNo <= n <==> i < k)
    ensures RowsThrough(rows, n) == rows[..k] && RowsAfter(rows, n) == rows[k..]
  {
    if rows != [] {
      var first, rest := rows[0], rows[1..];
      assert rows == [first] + rest;
      assert forall i :: 0 <= i < |rest| ==> rest[i] == rows[i + 1];
      if k > 0 {
        SelectionsSplit(rest, n, k - 1);
        assert rows[..k] == [first] + rest[..k - 1] && rows[k..] == rest[k - 1..];
      } else {
        SelectionsSplit(rest, n, 0);
        assert rows[..0] == [] == rest[..0] && rows[0..] == rows && rest[0..] == rest;
      }
    }
  }

  /** What the row query asks for. */
  function Selected(l: Ledger, bound: Option<int>): seq<Row> {
    if bound.Some? then RowsThrough(l.rows, bound.value) else l.rows
  }

  lemma {:induction false} SelectionsFind(rows: seq<Row>, n: int, r: Row)
    ensures r in RowsThrough(rows, n) <==> r in rows && r.seqNo <= n
    ensures r in RowsAfter(rows, n) <==> r in rows && r.seqNo > n
  {
    if rows != [] {
      SelectionsFind(rows[1..], n, r);
      assert r in rows <==> r == rows[0] || r in rows[1..];
    }
  }

  /** On what its two queries answer; the loop over the rows never asks for an error. */
  method BuildExport(hash: HashFn, content: ContentHash, chain: string, scope: string, bound: Option<int>,
                     rows: Answer<seq<Row>>, anchor: Answer<Option<Anchor>>)
    returns (doc: Option<Archive>)
    ensures doc.None? <==> chain !in CHAINS || rows.Failed? || anchor.Failed?
    ensures doc.Some? ==> IsExport(hash, content, chain, scope, bound, rows.value, anchor.value, doc.value)
  {
    if chain !in CHAINS || rows.Failed? || anchor.Failed? {
      return None;
    }
    var got := rows.value;
    var startPrev, endHash, through := "", "", None;
    if got != [] {
      startPrev, endHash, through := got[0].prevHash, Last(got).hash, Some(Last(got).seqNo);
    }
    var ok := VerifySegment(hash, scope, got, startPrev);
    var body := Body(ARCHIVE_VERSION, chain, scope, through, bound, startPrev, endHash, anchor.value, Some(ok), got);
    return Some(Archive(body, content(body)));
  }

  /** The archive carries the rows and the anchor that were read and describes them truthfully. */
  ghost predicate IsExport(hash: HashFn, content: ContentHash, chain: string, scope: string, bound: Option<int>,
                           rows: seq<Row>, anchor: Option<Anchor>, doc: Archive)
  {
    var b := doc.body;
    doc.contentHash == content(b) && b.version == ARCHIVE_VERSION && b.chain == chain && b.scope == scope &&
    b.boundedAt == bound && b.anchor == anchor && b.rows == rows &&
    b.through == (if rows == [] then None else Some(Last(rows).seqNo)) &&
    b.startPrev == (if rows == [] then "" else rows[0].prevHash) &&
    b.endHash == (if rows == [] then "" else Last(rows).hash) &&
    (b.linksVerified == Some(true) || b.linksVerified == Some(false)) &&
    (b.linksVerified == Some(true) <==> SegmentOk(hash, scope, rows, b.startPrev))
  }

  // ---- Checking an archive with no database present ----

  /** An absent through_seq reads as 0. */
  function ThroughOf(b: Body): (n: int)
    ensures b.through == Some(n) || (b.through.None? && n == 0)
  {
    if b.through.Some? then b.through.value else 0
  }

  /** Each problem, and exactly when VerifyExport reports it. */
  ghost predicate Has(hash: HashFn, content: ContentHash, doc: Archive, p: Problem) {
    var b := doc.body;
    var links := SegmentOk(hash, b.scope, b.rows, b.startPrev);
    if b.version > ARCHIVE_VERSION then p == TooNew
    else
      match p
      case TooNew => false
      case NoContentHash => doc.contentHash == ""
      case Edited => doc.contentHash != "" && doc.contentHash != content(b)
      case Unlinked => !links
      case RepairedSince => b.linksVerified == Some(false) && links
      case AlteredSince => b.linksVerified == Some(true) && !links
      case NoAnchor => b.anchor.None?
      case AnchorBehind => b.anchor.Some? && b.rows != [] && b.anchor.value.seqNo < ThroughOf(b)
      case EntriesMissing => b.anchor.Some? && b.rows != [] && b.anchor.value.seqNo > ThroughOf(b) && b.boundedAt.None?
  }

  method VerifyExport(hash: HashFn, content: ContentHash, doc: Archive) returns (ok: bool, problems: seq<Problem>, checked: nat)
    ensures ok <==> problems == []
    ensures forall p :: p in problems <==> Has(hash, content, doc, p)
    ensures checked == if doc.body.version > ARCHIVE_VERSION then 0 else 4
  {
    hide SegmentOk;
    var b := doc.body;
    problems := [];
    if b.version > ARCHIVE_VERSION {
      return false, [TooNew], 0;
    }
    checked := 1;
    if doc.contentHash == "" {
      problems := problems + [NoContentHash];
    } else if doc.contentHash != content(b) {
      problems := problems + [Edited];
    }
    checked := checked + 1;
    var linksOk := VerifySegment(hash, b.scope, b.rows, b.startPrev);
    if !linksOk {
      problems := problems + [Unlinked];
    }
    checked := checked + 1;
    if b.linksVerified == Some(false) && linksOk {
      problems := problems + [RepairedSince];
    } else if b.linksVerified == Some(true) && !linksOk {
      problems := problems + [AlteredSince];
    }
    checked := checked + 1;
    if b.anchor.None? {
      problems := problems + [NoAnchor];
    } else if b.rows != [] {
      var through := ThroughOf(b);
      if b.anchor.value.seqNo < through {
        problems := problems + [AnchorBehind];
      } else if b.anchor.value.seqNo > through && b.boundedAt.None? {
        problems := problems + [EntriesMissing];
      }
    }
    ok := |problems| == 0;
  }

  ghost predicate Verifies(hash: HashFn, content: ContentHash, doc: Archive) {
    forall p :: !Has(hash, content, doc, p)
  }

  /** What "no problem" comes down to. */
  lemma VerifiesMeans(hash: HashFn, content: ContentHash, doc: Archive)
    ensures
      var b := doc.body;
      Verifies(hash, content, doc) <==>
      b.version <= ARCHIVE_VERSION && doc.contentHash != "" && doc.contentHash == content(b) &&
      SegmentOk(hash, b.scope, b.rows, b.startPrev) && b.linksVerified != Some(false) && b.anchor.Some? &&
      (b.rows != [] ==>
         ThroughOf(b) <= b.anchor.value.seqNo && (ThroughOf(b) < b.anchor.value.seqNo ==> b.boundedAt.Some?))
  {
    assert Verifies(hash, content, doc) ==>
      !Has(hash, content, doc, TooNew) && !Has(hash, content, doc, NoContentHash) && !Has(hash, content, doc, Edited) &&
      !Has(hash, content, doc, Unlinked) && !Has(hash, content, doc, RepairedSince) && !Has(hash, content, doc, NoAnchor) &&
      !Has(hash, content, doc, AnchorBehind) && !Has(hash, content, doc, EntriesMissing);
  }

  ghost predicate NeverEmpty(content: ContentHash) {
    forall b :: content(b) != ""
  }

  /** What the row query selects is a prefix of an honest chain. */
  lemma SelectedIsPrefix(hash: HashFn, scope: string, l: Ledger, bound: Option<int>)
    requires Intact(hash, scope, l)
    ensures Selected(l, bound) <= l.rows
    ensures forall r :: r in Selected(l, bound) <==> r in l.rows && (bound.Some? ==> r.seqNo <= bound.value)
  {
    if bound.Some? {
      forall r
        ensures r in Selected(l, bound) <==> r in l.rows && r.seqNo <= bound.value
      {
        SelectionsFind(l.rows, bound.value, r);
      }
    }
    if l.rows != [] && bound.Some? {
      var start := l.rows[0].seqNo;
      var k := if bound.value >= Last(l.rows).seqNo then |l.rows| else if bound.value < start then 0 else bound.value - start + 1;
      SelectionsSplit(l.rows, bound.value, k);
    }
  }

  /** Others may go on between the row query and the anchor query of an export, and the row
      query may break off after n rows. On an honest chain the archive verifies if and only
      if an anchor was found and, for an export without a bound that holds any rows, it
      holds all of them and nobody committed before the anchor was read. */
  lemma HonestExportIffUndisturbed(hash: HashFn, content: ContentHash, chain: string, scope: string, bound: Option<int>,
                                   w: World, between: seq<Step>, n: nat, doc: Archive)
    requires NeverEmpty(content) && Honest(hash, scope, w) && SafeRun(hash, scope, w, between)
    requires n <= |Selected(w.ledger, bound)|
    requires IsExport(hash, content, chain, scope, bound, Selected(w.ledger, bound)[..n], Run(hash, scope, w, between).ledger.head, doc)
    ensures
      var l, l2 := w.ledger, Run(hash, scope, w, between).ledger;
      Verifies(hash, content, doc) <==> l2.head.Some? && (n == 0 || bound.Some? || (n == |l.rows| && l2.head == l.head))
  {
    HonestRunVerifies(hash, scope, w, between);
    RunIsLater(hash, scope, w, between);
    SelectedIsPrefix(hash, scope, w.ledger, bound);
    assert Selected(w.ledger, bound)[..n] == w.ledger.rows[..n];
    MixedExport(hash, content, chain, scope, bound, w.ledger, Run(hash, scope, w, between).ledger, n, doc);
  }

  lemma MixedExport(hash: HashFn, content: ContentHash, chain: string, scope: string, bound: Option<int>,
                    l: Ledger, l2: Ledger, n: nat, doc: Archive)
    requires NeverEmpty(content) && Intact(hash, scope, l) && Intact(hash, scope, l2) && Later(l, l2) && n <= |l.rows|
    requires IsExport(hash, content, chain, scope, bound, l.rows[..n], l2.head, doc)
    ensures Verifies(hash, content, doc) <==> l2.head.Some? && (n == 0 || bound.Some? || (n == |l.rows| && l2.head == l.head))
  {
    VerifiesMeans(hash, content, doc);
    if l.rows != [] {
      PrefixIsSegment(hash, scope, l, n);
      assert n > 0 ==> Last(l.rows[..n]).seqNo == l.rows[0].seqNo + n - 1;
    }
  }

  lemma PrefixIsSegment(hash: HashFn, scope: string, l: Ledger, k: nat)
    requires Intact(hash, scope, l) && l.rows != [] && k <= |l.rows|
    ensures SegmentOk(hash, scope, l.rows[..k], l.rows[0].prevHash)
  {
    LinkedSplit(hash, scope, l.rows, l.rows[0].prevHash, k);
  }

  // ---- Removing exactly what an archive holds ----

  /** Everything TruncateChain checks, against the live rows and not the archive's claims. */
  ghost predicate MayTruncate(hash: HashFn, content: ContentHash, doc: Archive, l: Ledger) {
    var b, through := doc.body, ThroughOf(doc.body);
    Verifies(hash, content, doc) && b.chain in CHAINS && b.rows != [] &&
    CanCut(l, through) && l.rows[IndexOf(l.rows, through)].hash == b.endHash
  }

  /** What each reason to refuse says, of the archive and of the live rows. */
  ghost predicate Applies(why: Refusal, hash: HashFn, content: ContentHash, doc: Archive, l: Ledger) {
    match why
    case DoesNotVerify => !Verifies(hash, content, doc)
    case UnknownChain => doc.body.chain !in CHAINS
    case NoRows => doc.body.rows == []
    case _ => LiveReason(why, l, ThroughOf(doc.body), doc.body.endHash)
  }

  ghost predicate LiveReason(why: Refusal, l: Ledger, through: int, endHash: string) {
    match why
    case EndRowGone => !HasRow(l.rows, through)
    case EndRowChanged => exists r :: r in l.rows && r.seqNo == through && r.hash != endHash
    case NothingSurvives => HasRow(l.rows, through) && forall r :: r in l.rows ==> r.seqNo <= through
    case SeamBroken => exists r :: r in l.rows && FirstAfter(l.rows, through, r) && r.prevHash != endHash
    case AlreadyDeclared => exists x :: x in l.gaps && x.through == through
    case _ => false
  }

  ghost predicate FirstAfter(rows: seq<Row>, n: int, r: Row) {
    r.seqNo > n && forall x :: x in rows && x.seqNo > n ==> r.seqNo <= x.seqNo
  }

  method FindRow(rows: seq<Row>, n: int) returns (at: Option<nat>)
    requires Ascending(rows)
    ensures at.Some? <==> HasRow(rows, n)
    ensures at.Some? ==> at.value < |rows| && rows[at.value].seqNo == n && at.value == IndexOf(rows, n)
  {
    for i := 0 to |rows|
      invariant forall j :: 0 <= j < i ==> rows[j].seqNo != n
    {
      if rows[i].seqNo == n {
        assert HasRow(rows, n);
        return Some(i);
      }
    }
    return None;
  }

  lemma FirstOfLater(rows: seq<Row>, n: int, later: seq<Row>)
    requires later != [] && Ascending(later) && forall r :: r in later <==> r in rows && r.seqNo > n
    ensures later[0] in rows && FirstAfter(rows, n, later[0])
  {
    assert later[0] in later;
  }

  /** The checks against the live rows, and the rows that would survive. */
  method CheckLive(l: Ledger, through: int, endHash: string) returns (why: Option<Refusal>, later: seq<Row>)
    requires Ascending(l.rows)
    ensures why.None? <==> CanCut(l, through) && l.rows[IndexOf(l.rows, through)].hash == endHash
    ensures why.Some? ==> LiveReason(why.value, l, through, endHash) && why.value !in {DoesNotVerify, UnknownChain, NoRows}
    ensures why.None? ==> later == l.rows[IndexOf(l.rows, through) + 1..] && forall r :: r in later <==> r in l.rows && r.seqNo > through
  {
    hide RowsThrough, RowsAfter;
    later := [];
    var at := FindRow(l.rows, through);
    if at.None? {
      return Some(EndRowGone), later;
    }
    if l.rows[at.value].hash != endHash {
      return Some(EndRowChanged), later;
    }
    SelectionsSplit(l.rows, through, at.value + 1);
    later := RowsAfter(l.rows, through);
    forall r
      ensures r in later <==> r in l.rows && r.seqNo > through
    {
      SelectionsFind(l.rows, through, r);
    }
    if later == [] {
      return Some(NothingSurvives), later;
    }
    FirstOfLater(l.rows, through, later);
    if later[0].prevHash != endHash {
      return Some(SeamBroken), later;
    }
    if exists i :: 0 <= i < |l.gaps| && l.gaps[i].through == through {
      return Some(AlreadyDeclared), later;
    }
    return None, later;
  }

  method TruncateChain(hash: HashFn, content: ContentHash, db: Database, doc: Archive) returns (out: Outcome)
    requires db.Valid()
    modifies db
    ensures db.Valid()
    ensures out.Truncated? <==> MayTruncate(hash, content, doc, old(db.At(ChainKey(doc.body.chain, doc.body.scope))))
    ensures out.Refused? ==> db.ledgers == old(db.ledgers)
    ensures out.Refused? ==> Applies(out.why, hash, content, doc, old(db.At(ChainKey(doc.body.chain, doc.body.scope))))
    ensures forall k :: k != ChainKey(doc.body.chain, doc.body.scope) ==> db.At(k) == old(db.At(k))
    ensures out.Truncated? ==>
      var l, l' := old(db.At(ChainKey(doc.body.chain, doc.body.scope))), db.At(ChainKey(doc.body.chain, doc.body.scope));
      l' == CutLedger(l, ThroughOf(doc.body), doc.contentHash) &&
      (forall r :: r in l'.rows <==> r in l.rows && r.seqNo > ThroughOf(doc.body)) &&
      out == Truncated(ThroughOf(doc.body), l'.rows[0].seqNo, doc.body.endHash, |doc.body.rows|)
  {
    hide SegmentOk, LiveReason;
    var ok, problems, _ := VerifyExport(hash, content, doc);
    if !ok {
      assert problems[0] in problems;
      return Refused(DoesNotVerify);
    }
    var b := doc.body;
    if b.chain !in CHAINS {
      return Refused(UnknownChain);
    }
    if b.rows == [] {
      return Refused(NoRows);
    }
    var key, through := ChainKey(b.chain, b.scope), ThroughOf(b);
    var l := db.At(key);
    var why, later := CheckLive(l, through, b.endHash);
    if why.Some? {
      return Refused(why.value);
    }
    var gap := Gap(through, later[0].seqNo, later[0].prevHash, doc.contentHash);
    db.ledgers := db.ledgers[key := Ledger(later, l.head, l.gaps + [gap])];
    return Truncated(through, later[0].seqNo, later[0].prevHash, |b.rows|);
  }

  /** A truncation is the Cut step of AuditRuns. */
  lemma TruncationCuts(hash: HashFn, content: ContentHash, doc: Archive, w: World)
    requires MayTruncate(hash, content, doc, w.ledger)
    ensures Next(hash, doc.body.scope, w, Cut(ThroughOf(doc.body), doc.contentHash)).ledger ==
            CutLedger(w.ledger, ThroughOf(doc.body), doc.contentHash)
  {
  }

  /** On a chain that verifies, an accepted archive, forged or not, holds exactly the rows
      the truncation deletes, if and only if its first row is the chain's first and its
      end_hash is its own last row's. The code checks neither of the two. */
  lemma DeletesExactlyTheArchive(hash: HashFn, content: ContentHash, doc: Archive, l: Ledger)
    requires Injective(hash) && Intact(hash, doc.body.scope, l) && MayTruncate(hash, content, doc, l)
    ensures
      l.rows == doc.body.rows + CutLedger(l, ThroughOf(doc.body), doc.contentHash).rows <==>
      doc.body.rows[0].seqNo == l.rows[0].seqNo && Last(doc.body.rows).hash == doc.body.endHash
  {
    var b, through := doc.body, ThroughOf(doc.body);
    VerifiesMeans(hash, content, doc);
    CutAtIndex(l, through, doc.contentHash);
    ContiguousHas(l.rows, l.rows[0].seqNo, through);
    ArchiveIsPrefix(hash, b.scope, l, through - l.rows[0].seqNo + 1, b.rows, b.startPrev);
  }

  lemma ArchiveIsPrefix(hash: HashFn, scope: string, l: Ledger, k: nat, rows: seq<Row>, startPrev: string)
    requires Injective(hash) && Intact(hash, scope, l) && 0 < k < |l.rows|
    requires rows != [] && SegmentOk(hash, scope, rows, startPrev)
    ensures l.rows == rows + l.rows[k..] <==>
            rows[0].seqNo == l.rows[0].seqNo && Last(rows).hash == l.rows[k - 1].hash
  {
    if l.rows == rows + l.rows[k..] {
      assert |rows| == k;
      assert l.rows[0] == rows[0] && l.rows[k - 1] == Last(rows);
    }
    if rows[0].seqNo == l.rows[0].seqNo && Last(rows).hash == l.rows[k - 1].hash {
      PrefixIsSegment(hash, scope, l, k);
      EndHashFixesSegment(hash, scope, l.rows[..k], rows, l.rows[0].prevHash, startPrev);
      assert l.rows == l.rows[..k] + l.rows[k..];
    }
  }

  /** Appends, faults and restarts only ever add rows at the end. */
  lemma {:induction false} RunsOnlyExtend(hash: HashFn, scope: string, w: World, steps: seq<Step>)
    requires Honest(hash, scope, w) && CutFree(steps) && SafeRun(hash, scope, w, steps)
    ensures w.ledger.rows <= Run(hash, scope, w, steps).ledger.rows
    ensures w.ledger.gaps == Run(hash, scope, w, steps).ledger.gaps
    ensures Honest(hash, scope, Run(hash, scope, w, steps))
    decreases |steps|
  {
    if steps != [] {
      var s := steps[0];
      StepKeepsHonest(hash, scope, w, s);
      if s.Write? && s.g < |w.procs| && w.procs[s.g].Cached? && s.commits && !HasRow(w.ledger.rows, w.procs[s.g].h.next) {
        AppendKeepsIntact(hash, scope, w.ledger, w.procs[s.g].h, s.kind, s.payload);
      }
      RunsOnlyExtend(hash, scope, Next(hash, scope, w, s), steps[1..]);
    }
  }

  /** Export, keep working, truncate, with others at work during the export as well: the
      truncation goes through if and only if the archive holds a row, a row survives it and,
      without a bound, nobody disturbed the export. Then archive followed by survivors is
      the chain as it was. */
  lemma ExportThenTruncate(hash: HashFn, content: ContentHash, chain: string, scope: string, bound: Option<int>,
                           w: World, between: seq<Step>, after: seq<Step>, n: nat, doc: Archive)
    requires Honest(hash, scope, w) && NeverEmpty(content) && chain in CHAINS
    requires CutFree(between) && SafeRun(hash, scope, w, between)
    requires CutFree(after) && SafeRun(hash, scope, Run(hash, scope, w, between), after)
    requires n <= |Selected(w.ledger, bound)|
    requires IsExport(hash, content, chain, scope, bound, Selected(w.ledger, bound)[..n], Run(hash, scope, w, between).ledger.head, doc)
    ensures
      var w2 := Run(hash, scope, w, between);
      var l := Run(hash, scope, w2, after).ledger;
      (MayTruncate(hash, content, doc, l) <==>
         0 < n < |l.rows| && (bound.Some? || (n == |w.ledger.rows| && w2.ledger.head == w.ledger.head))) &&
      (MayTruncate(hash, content, doc, l) ==>
         doc.body.rows + CutLedger(l, ThroughOf(doc.body), doc.contentHash).rows == l.rows)
  {
    var w2 := Run(hash, scope, w, between);
    HonestExportIffUndisturbed(hash, content, chain, scope, bound, w, between, n, doc);
    RunsOnlyExtend(hash, scope, w, between);
    RunsOnlyExtend(hash, scope, w2, after);
    SelectedIsPrefix(hash, scope, w.ledger, bound);
    if n > 0 {
      PrefixTruncates(hash, content, chain, scope, w.ledger, w2.ledger, Run(hash, scope, w2, after).ledger, n, doc);
    }
  }

  /** The rows of an archive that are a prefix of the chain can be cut exactly if the archive
      verifies and a row survives. */
  lemma PrefixTruncates(hash: HashFn, content: ContentHash, chain: string, scope: string, l0: Ledger, l2: Ledger, l: Ledger, n: nat, doc: Archive)
    requires Intact(hash, scope, l) && Intact(hash, scope, l2) && l0.rows <= l2.rows <= l.rows && 0 < n <= |l0.rows| && chain in CHAINS
    requires doc.body.chain == chain && doc.body.rows == l0.rows[..n]
    requires ThroughOf(doc.body) == Last(doc.body.rows).seqNo && doc.body.endHash == Last(doc.body.rows).hash
    ensures l2.head.Some?
    ensures MayTruncate(hash, content, doc, l) <==> Verifies(hash, content, doc) && n < |l.rows|
    ensures MayTruncate(hash, content, doc, l) ==>
              doc.body.rows + CutLedger(l, ThroughOf(doc.body), doc.contentHash).rows == l.rows
  {
    PrefixEnds(l0.rows, l.rows, doc.body.rows, n);
    PrefixMayBeCut(hash, scope, l, n, doc.contentHash);
    if Verifies(hash, content, doc) {
      VerifiedPrefix(hash, content, doc, l, n);
    }
  }

  lemma VerifiedPrefix(hash: HashFn, content: ContentHash, doc: Archive, l: Ledger, k: nat)
    requires Verifies(hash, content, doc) && doc.body.chain in CHAINS && 0 < k <= |l.rows| && doc.body.rows == l.rows[..k]
    requires ThroughOf(doc.body) == l.rows[k - 1].seqNo && doc.body.endHash == l.rows[k - 1].hash
    requires HasRow(l.rows, l.rows[k - 1].seqNo) && IndexOf(l.rows, l.rows[k - 1].seqNo) == k - 1
    ensures MayTruncate(hash, content, doc, l) <==> CanCut(l, ThroughOf(doc.body))
  {
  }

  lemma PrefixEnds(all: seq<Row>, later: seq<Row>, rows: seq<Row>, k: nat)
    requires all <= later && k <= |all| && rows == all[..k] && rows != []
    ensures k == |rows| && rows == later[..k] && Last(rows) == later[k - 1]
  {
  }

  lemma PrefixMayBeCut(hash: HashFn, scope: string, l: Ledger, k: nat, archiveHash: string)
    requires Intact(hash, scope, l) && 0 < k <= |l.rows|
    ensures
      var through := l.rows[k - 1].seqNo;
      HasRow(l.rows, through) && IndexOf(l.rows, through) == k - 1 &&
      (CanCut(l, through) <==> k < |l.rows|) &&
      (CanCut(l, through) ==> l.rows[..k] + CutLedger(l, through, archiveHash).rows == l.rows)
  {
    ContiguousHas(l.rows, l.rows[0].seqNo, l.rows[k - 1].seqNo);
    if k < |l.rows| {
      assert LinkedAt(hash, scope, l.rows, l.rows[0].prevHash, k);
    }
  }
}
