/** The audit half of memory.Guard (internal/memory/security.go): appending to the chain
    through the in-process cache, and the tamper verdict. */
module AuditGuard {
  import opened Options
  import opened ChainRecords

  const MEMORY_AUDIT := "memory_audit"

  /** The cached next seq and last hash. */
  datatype ChainHead = ChainHead(next: int, last: string)

  /** What goes wrong during one Audit call, if anything. */
  datatype Fault = NoFault | RowsUnreadable | AnchorUnreadable | WriteFails

  /** What one of Verify's queries answers. A row query that breaks off midway answers with
      the rows it got: the loop over them never asks for the error. */
  datatype Answer<+T> = Failed | Got(value: T)

  datatype Verdict = Verdict(valid: bool, verified: bool)

  // ---- What one call does to the ledger and to the caller's cache ----

  /** The first query of state() on a cache miss: the newest row. */
  function RowHead(l: Ledger): ChainHead {
    if l.rows == [] then ChainHead(0, "") else ChainHead(Last(l.rows).seqNo + 1, Last(l.rows).hash)
  }

  /** The second: an anchor ahead of the row that was read moves the next seq past it. */
  function PastAnchor(l: Ledger, h: ChainHead, readable: bool): ChainHead {
    if readable && l.head.Some? && l.head.value.seqNo + 1 > h.next then h.(next := l.head.value.seqNo + 1) else h
  }

  /** Both, if nobody commits in between. */
  function Resume(l: Ledger, anchorReadable: bool): ChainHead {
    PastAnchor(l, RowHead(l), anchorReadable)
  }

  function NewRow(hash: HashFn, scope: string, h: ChainHead, kind: string, payload: Payload): Row {
    Row(h.next, kind, payload, h.last, hash(h.last, scope, h.next, kind, payload))
  }

  /** The transaction: the row and the anchor that describes it, or nothing at all. */
  function Commit(l: Ledger, r: Row): Ledger {
    Ledger(InsertRow(l.rows, r), Some(Anchor(r.seqNo, r.hash)), l.gaps)
  }

  /** The ledger and the cache after one Audit call. */
  function Audited(hash: HashFn, scope: string, l: Ledger, cache: Option<ChainHead>,
                   kind: string, payload: Payload, fault: Fault): (Ledger, Option<ChainHead>)
  {
    if cache.None? && fault.RowsUnreadable? then (l, None)
    else
      var h := if cache.Some? then cache.value else Resume(l, !fault.AnchorUnreadable?);
      if fault.WriteFails? || HasRow(l.rows, h.next) then (l, None)
      else
        var r := NewRow(hash, scope, h, kind, payload);
        (Commit(l, r), Some(ChainHead(h.next + 1, r.hash)))
  }

  /** A table with one row more than before, which is r: it holds the event and the hash of
      the event in its place. */
  ghost predicate Records(hash: HashFn, scope: string, before: seq<Row>, after: seq<Row>, r: Row, kind: string, payload: Payload) {
    |after| == |before| + 1 && Ascending(after) && r !in before && (forall x :: x in after <==> x in before || x == r) &&
    r.kind == kind && r.payload == payload && r.hash == hash(r.prevHash, scope, r.seqNo, kind, payload)
  }

  /** The point one call would append at: the cached one, or the one its queries find. */
  function PointOf(l: Ledger, cache: Option<ChainHead>, fault: Fault): ChainHead {
    if cache.Some? then cache.value else Resume(l, !fault.AnchorUnreadable?)
  }

  /** A cache miss goes on behind the newest row, at the least seq that no row and no readable
      anchor has reached: of an empty chain the first. */
  lemma ResumesPastBoth(l: Ledger, readable: bool)
    requires Ascending(l.rows)
    ensures
      var point, anchored := Resume(l, readable), readable && l.head.Some?;
      point.last == (if l.rows == [] then "" else l.rows[|l.rows| - 1].hash) &&
      (forall r :: r in l.rows ==> r.seqNo < point.next) && (anchored ==> l.head.value.seqNo < point.next) &&
      ((l.rows == [] && point.next == 0) || (anchored && l.head.value.seqNo == point.next - 1) ||
       exists r :: r in l.rows && r.seqNo == point.next - 1)
  {
    if l.rows != [] {
      assert Last(l.rows) in l.rows;
    }
  }

  /** A call that commits adds one row with its own event, behind the hash and at the seq of
      its point, and leaves anchor and cache at that row; any other changes no table. */
  lemma AuditRecords(hash: HashFn, scope: string, l: Ledger, cache: Option<ChainHead>,
                     kind: string, payload: Payload, fault: Fault) returns (r: Row)
    requires Ascending(l.rows)
    ensures
      var (l2, c) := Audited(hash, scope, l, cache, kind, payload, fault);
      var point := PointOf(l, cache, fault);
      (c.Some? <==> (cache.Some? || !fault.RowsUnreadable?) && !fault.WriteFails? && !HasRow(l.rows, point.next)) &&
      (c.None? ==> l2 == l) &&
      (c.Some? ==>
         Records(hash, scope, l.rows, l2.rows, r, kind, payload) && r.seqNo == point.next && r.prevHash == point.last &&
         l2.head == Some(Anchor(r.seqNo, r.hash)) && l2.gaps == l.gaps && c.value == ChainHead(r.seqNo + 1, r.hash))
  {
    r := NewRow(hash, scope, PointOf(l, cache, fault), kind, payload);
    if !HasRow(l.rows, r.seqNo) {
      InsertRowKeepsOrder(l.rows, r);
      assert r in l.rows ==> HasRow(l.rows, r.seqNo);
    }
  }

  // ---- What a verdict of "valid" means ----

  /** The rows start at the origin, or exactly where the newest declared gap says. */
  ghost predicate StartsWhereDeclared(l: Ledger) {
    l.rows == [] ||
    (l.rows[0].seqNo == 0 && l.rows[0].prevHash == "") ||
    (l.rows[0].seqNo != 0 && Newest(l.gaps).Some? &&
     Newest(l.gaps).value.resumeSeq == l.rows[0].seqNo && Newest(l.gaps).value.resumePrev == l.rows[0].prevHash)
  }

  /** No anchor, an anchor the chain is already past, or an anchor that is the last row. */
  ghost predicate ReachesAnchor(rows: seq<Row>, head: Option<Anchor>) {
    head.Some? ==>
      rows != [] && head.value.seqNo <= Last(rows).seqNo &&
      (head.value.seqNo == Last(rows).seqNo ==> head.value.hash == Last(rows).hash)
  }

  ghost predicate Accepts(hash: HashFn, scope: string, l: Ledger) {
    StartsWhereDeclared(l) && ReachesAnchor(l.rows, l.head) &&
    (l.rows != [] ==> Contiguous(l.rows, l.rows[0].seqNo) && Linked(hash, scope, l.rows, l.rows[0].prevHash))
  }

  // ---- The shared tables and the guard ----

  datatype ChainKey = ChainKey(chain: string, scope: string)

  class Database {
    var ledgers: map<ChainKey, Ledger>

    constructor ()
      ensures ledgers == map[] && Valid()
    {
      ledgers := map[];
    }

    function At(k: ChainKey): Ledger
      reads this
    {
      if k in ledgers then ledgers[k] else EMPTY_LEDGER
    }

    /** Tables are read ORDER BY seq, and (scope, seq) is UNIQUE. */
    ghost predicate Valid()
      reads this
    {
      forall k :: k in ledgers ==> Ascending(ledgers[k].rows)
    }
  }

  class Guard {
    const db: Database
    const hash: HashFn
    var chains: map<string, ChainHead>

    constructor (db: Database, hash: HashFn)
      ensures this.db == db && this.hash == hash && chains == map[]
    {
      this.db := db;
      this.hash := hash;
      chains := map[];
    }

    function Cached(scope: string): Option<ChainHead>
      reads this
    {
      if scope in chains then Some(chains[scope]) else None
    }

    method Audit(scope: string, kind: string, payload: Payload, fault: Fault)
      requires db.Valid()
      modifies this`chains, db`ledgers
      ensures db.Valid()
      ensures scope == "" ==> chains == old(chains) && db.ledgers == old(db.ledgers)
      ensures scope != "" ==>
        (db.At(ChainKey(MEMORY_AUDIT, scope)), Cached(scope)) ==
        Audited(hash, scope, old(db.At(ChainKey(MEMORY_AUDIT, scope))), old(Cached(scope)), kind, payload, fault)
      ensures scope != "" && Cached(scope).None? ==> db.ledgers == old(db.ledgers)
      ensures scope != "" && Cached(scope).Some? ==>
        exists r :: Records(hash, scope, old(db.At(ChainKey(MEMORY_AUDIT, scope))).rows,
                            db.At(ChainKey(MEMORY_AUDIT, scope)).rows, r, kind, payload)
      ensures forall s :: s != scope ==> Cached(s) == old(Cached(s))
      ensures forall k :: k != ChainKey(MEMORY_AUDIT, scope) ==> db.At(k) == old(db.At(k))
    {
      if scope == "" {
        return;
      }
      var key := ChainKey(MEMORY_AUDIT, scope);
      var head := State(scope, fault);
      ghost var added := AuditRecords(hash, scope, db.At(key), old(Cached(scope)), kind, payload, fault);
      if head.None? {
        chains := chains - {scope};
        return;
      }
      var r := NewRow(hash, scope, head.value, kind, payload);
      var l := db.At(key);
      if fault.WriteFails? || HasRow(l.rows, r.seqNo) {
        chains := chains - {scope};
        return;
      }
      InsertRowKeepsOrder(l.rows, r);
      db.ledgers := db.ledgers[key := Commit(l, r)];
      chains := chains[scope := ChainHead(head.value.next + 1, r.hash)];
    }

    method State(scope: string, fault: Fault) returns (h: Option<ChainHead>)
      modifies this`chains
      ensures h == if old(Cached(scope)).Some? then old(Cached(scope))
                   else if fault.RowsUnreadable? then None
                   else Some(Resume(db.At(ChainKey(MEMORY_AUDIT, scope)), !fault.AnchorUnreadable?))
      ensures Cached(scope) == h
      ensures forall s :: s != scope ==> Cached(s) == old(Cached(s))
    {
      if scope in chains {
        return Some(chains[scope]);
      }
      if fault.RowsUnreadable? {
        return None;
      }
      var l := db.At(ChainKey(MEMORY_AUDIT, scope));
      var next, last := 0, "";
      if l.rows != [] {
        next, last := Last(l.rows).seqNo + 1, Last(l.rows).hash;
      }
      if !fault.AnchorUnreadable? && l.head.Some? && l.head.value.seqNo + 1 > next {
        next := l.head.value.seqNo + 1;
      }
      chains := chains[scope := ChainHead(next, last)];
      return Some(ChainHead(next, last));
    }

    /** The verdict on what the three queries answer. A query that fails is never reported as
        tampering, and nothing else is left unverified. */
    method Verify(scope: string, rows: Answer<seq<Row>>, gaps: Answer<seq<Gap>>, anchor: Answer<Option<Anchor>>) returns (v: Verdict)
      ensures v.verified ==>
        rows.Got? &&
        var read := Ledger(rows.value, if anchor.Got? then anchor.value else None, if gaps.Got? then gaps.value else []);
        (v.valid <==> Accepts(hash, scope, read))
      ensures !v.verified ==> v.valid && (rows.Failed? || gaps.Failed? || anchor.Failed?)
      ensures gaps.Failed? && rows.Got? && rows.value != [] && rows.value[0].seqNo != 0 ==> !v.verified
      ensures v.verified && v.valid ==> anchor.Got?
    {
      if rows.Failed? {
        return Verdict(true, false);
      }
      var chain := rows.value;
      var startSeq, startPrev := 0, "";
      if chain != [] && chain[0].seqNo != 0 {
        if gaps.Failed? {
          return Verdict(true, false);
        }
        var d := Newest(gaps.value);
        if d.None? {
          return Verdict(false, true);
        }
        if d.value.resumeSeq != chain[0].seqNo || d.value.resumePrev != chain[0].prevHash {
          return Verdict(false, true);
        }
        startSeq, startPrev := d.value.resumeSeq, d.value.resumePrev;
      }
      var ok := VerifyChain(hash, scope, chain, startSeq, startPrev);
      if chain != [] {
        assert LinkedAt(hash, scope, chain, startPrev, 0) ==> chain[0].prevHash == startPrev;
      }
      if !ok {
        return Verdict(false, true);
      }
      v := HeadVerdict(chain, anchor);
    }

    method HeadVerdict(chain: seq<Row>, anchor: Answer<Option<Anchor>>) returns (v: Verdict)
      ensures v.verified <==> anchor.Got?
      ensures v.verified ==> (v.valid <==> ReachesAnchor(chain, anchor.value))
      ensures !v.verified ==> v.valid
    {
      if anchor.Failed? {
        return Verdict(true, false);
      }
      if anchor.value.None? {
        return Verdict(true, true);
      }
      if chain == [] {
        return Verdict(false, true);
      }
      var last, head := Last(chain), anchor.value.value;
      if last.seqNo < head.seqNo {
        return Verdict(false, true);
      } else if last.seqNo > head.seqNo {
        return Verdict(true, true);
      }
      return Verdict(last.hash == head.hash, true);
    }
  }
}
