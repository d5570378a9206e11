/** The hash-chained ledger tables and the whole-chain verifier (internal/recorder).
    A `Ledger` is what the tables hold for one chain and one scope. */
module ChainRecords {
  import opened Options

  type Payload = string

  /** ComputeHash, as prev, scope, seq, kind, payload. Left a parameter: nothing but
      the archive theorems needs it to be injective. */
  type HashFn = (string, string, int, string, Payload) -> string

  datatype Row = Row(seqNo: int, kind: string, payload: Payload, prevHash: string, hash: string)

  datatype Anchor = Anchor(seqNo: int, hash: string)

  /** One chain_truncation record. */
  datatype Gap = Gap(through: int, resumeSeq: int, resumePrev: string, archiveHash: string)

  /** rows is the table ORDER BY seq; (scope, seq) is UNIQUE, (scope, through) is a key. */
  datatype Ledger = Ledger(rows: seq<Row>, head: Option<Anchor>, gaps: seq<Gap>)

  const EMPTY_LEDGER := Ledger([], None, [])

  ghost predicate Injective(hash: HashFn) {
    forall p, s, n, k, d, p', s', n', k', d' ::
      hash(p, s, n, k, d) == hash(p', s', n', k', d') ==> p == p' && s == s' && n == n' && k == k' && d == d'
  }

  ghost predicate NeverBlank(hash: HashFn) {
    forall p, s, n, k, d :: hash(p, s, n, k, d) != ""
  }

  function Last<T>(s: seq<T>): T
    requires s != []
  {
    s[|s| - 1]
  }

  function HashOf(hash: HashFn, scope: string, r: Row): string {
    hash(r.prevHash, scope, r.seqNo, r.kind, r.payload)
  }

  /** The hash the i-th row must point back to, in a chain that starts from prev. */
  function PrevOf(rows: seq<Row>, i: nat, prev: string): string
    requires i <= |rows|
  {
    if i == 0 then prev else rows[i - 1].hash
  }

  /** The i-th row points at its predecessor and carries the hash of its own content. */
  ghost predicate LinkedAt(hash: HashFn, scope: string, rows: seq<Row>, prev: string, i: nat)
    requires i < |rows|
  {
    rows[i].prevHash == PrevOf(rows, i, prev) && rows[i].hash == HashOf(hash, scope, rows[i])
  }

  ghost predicate Linked(hash: HashFn, scope: string, rows: seq<Row>, prev: string) {
    forall i :: 0 <= i < |rows| ==> LinkedAt(hash, scope, rows, prev, i)
  }

  ghost predicate Contiguous(rows: seq<Row>, start: int) {
    forall i :: 0 <= i < |rows| ==> rows[i].seqNo == start + i
  }

  ghost predicate Ascending(rows: seq<Row>) {
    forall i, j :: 0 <= i < j < |rows| ==> rows[i].seqNo < rows[j].seqNo
  }

  lemma LinkedAppend(hash: HashFn, scope: string, rows: seq<Row>, prev: string, r: Row)
    ensures Linked(hash, scope, rows + [r], prev) <==>
            Linked(hash, scope, rows, prev) && r.prevHash == PrevOf(rows, |rows|, prev) && r.hash == HashOf(hash, scope, r)
  {
    var all := rows + [r];
    forall i | 0 <= i < |rows|
      ensures LinkedAt(hash, scope, all, prev, i) == LinkedAt(hash, scope, rows, prev, i)
    {
      assert all[i] == rows[i];
      if i > 0 { assert all[i - 1] == rows[i - 1]; }
    }
    assert LinkedAt(hash, scope, all, prev, |rows|) <==> r.prevHash == PrevOf(rows, |rows|, prev) && r.hash == HashOf(hash, scope, r) by {
      if rows != [] { assert all[|rows| - 1] == rows[|rows| - 1]; }
    }
  }

  /** Cutting a linked chain in two leaves two linked chains. */
  lemma LinkedSplit(hash: HashFn, scope: string, rows: seq<Row>, prev: string, k: nat)
    requires Linked(hash, scope, rows, prev) && k <= |rows|
    ensures Linked(hash, scope, rows[..k], prev)
    ensures Linked(hash, scope, rows[k..], PrevOf(rows, k, prev))
  {
    forall i | 0 <= i < k
      ensures LinkedAt(hash, scope, rows[..k], prev, i)
    {
      assert LinkedAt(hash, scope, rows, prev, i);
    }
    forall i | 0 <= i < |rows| - k
      ensures LinkedAt(hash, scope, rows[k..], PrevOf(rows, k, prev), i)
    {
      assert LinkedAt(hash, scope, rows, prev, k + i);
      assert i > 0 ==> rows[k..][i - 1] == rows[k + i - 1];
    }
  }

  method VerifyChain(hash: HashFn, scope: string, rows: seq<Row>, startSeq: int, startPrev: string) returns (ok: bool)
    ensures ok <==> Contiguous(rows, startSeq) && Linked(hash, scope, rows, startPrev)
  {
    var prev, want := startPrev, startSeq;
    for i := 0 to |rows|
      invariant prev == PrevOf(rows, i, startPrev) && want == startSeq + i
      invariant forall k :: 0 <= k < i ==> rows[k].seqNo == startSeq + k
      invariant forall k :: 0 <= k < i ==> LinkedAt(hash, scope, rows, startPrev, k)
    {
      var r := rows[i];
      assert LinkedAt(hash, scope, rows, startPrev, i) <==> r.prevHash == prev && hash(prev, scope, r.seqNo, r.kind, r.payload) == r.hash;
      if r.seqNo != want || r.prevHash != prev {
        return false;
      }
      if hash(prev, scope, r.seqNo, r.kind, r.payload) != r.hash {
        return false;
      }
      prev, want := r.hash, want + 1;
    }
    return true;
  }

  /** The truncation record a verifier consults: the one with the greatest through. */
  function Newest(gaps: seq<Gap>): (g: Option<Gap>)
    ensures g.None? <==> gaps == []
    ensures g.Some? ==> g.value in gaps && forall x :: x in gaps ==> x.through <= g.value.through
  {
    if gaps == [] then None
    else
      var rest := Newest(gaps[..|gaps| - 1]);
      if rest.Some? && rest.value.through >= Last(gaps).through then rest else Some(Last(gaps))
  }

  predicate HasRow(rows: seq<Row>, n: int) {
    exists i :: 0 <= i < |rows| && rows[i].seqNo == n
  }

  /** INSERT into the table, seen in seq order. */
  function InsertRow(rows: seq<Row>, r: Row): (out: seq<Row>)
    ensures |out| == |rows| + 1
  {
    if rows == [] || Last(rows).seqNo < r.seqNo then rows + [r]
    else InsertRow(rows[..|rows| - 1], r) + [Last(rows)]
  }

  lemma {:induction false} InsertRowKeepsOrder(rows: seq<Row>, r: Row)
    requires Ascending(rows) && !HasRow(rows, r.seqNo)
    ensures Ascending(InsertRow(rows, r))
    ensures forall x :: x in InsertRow(rows, r) <==> x in rows || x == r
  {
    if rows == [] || Last(rows).seqNo < r.seqNo {
    } else {
      var front := rows[..|rows| - 1];
      assert rows == front + [Last(rows)];
      assert forall i :: 0 <= i < |front| ==> front[i] == rows[i];
      InsertRowKeepsOrder(front, r);
      assert r.seqNo < Last(rows).seqNo;
      var out := InsertRow(rows, r);
      forall i, j | 0 <= i < j < |out|
        ensures out[i].seqNo < out[j].seqNo
      {
        if j == |out| - 1 {
          assert out[i] == InsertRow(front, r)[i];
          assert out[i] in InsertRow(front, r);
        }
      }
    }
  }
}
