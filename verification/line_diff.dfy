/** Line diff by longest common subsequence (diffOps in internal/aci/fix.go). */
module LineDiff {
  import opened Options

  datatype Kind = Keep | Add | Drop

  datatype Op = Op(kind: Kind, text: string)

  function OldLine(o: Op): seq<string> {
    if o.kind == Add then [] else [o.text]
  }

  function NewLine(o: Op): seq<string> {
    if o.kind == Drop then [] else [o.text]
  }

  /** What a script reads: its operations without the additions. */
  function OldSide(ops: seq<Op>): seq<string> {
    if ops == [] then [] else OldLine(ops[0]) + OldSide(ops[1..])
  }

  /** What a script writes: its operations without the removals. */
  function NewSide(ops: seq<Op>): seq<string> {
    if ops == [] then [] else NewLine(ops[0]) + NewSide(ops[1..])
  }

  ghost predicate Edits(ops: seq<Op>, a: seq<string>, b: seq<string>) {
    OldSide(ops) == a && NewSide(ops) == b
  }

  function Kept(ops: seq<Op>): nat {
    if ops == [] then 0 else (if ops[0].kind == Keep then 1 else 0) + Kept(ops[1..])
  }

  /** Insertions plus deletions. */
  function Changes(ops: seq<Op>): nat {
    if ops == [] then 0 else (if ops[0].kind == Keep then 0 else 1) + Changes(ops[1..])
  }

  function Max(x: nat, y: nat): nat { if x >= y then x else y }

  function Lcs(a: seq<string>, b: seq<string>): nat
    decreases |a| + |b|
  {
    if a == [] || b == [] then 0
    else if a[0] == b[0] then 1 + Lcs(a[1..], b[1..])
    else Max(Lcs(a[1..], b), Lcs(a, b[1..]))
  }

  /** The script the code settles on: of the shortest ones, the one that drops first. */
  function Script(a: seq<string>, b: seq<string>): seq<Op>
    decreases |a| + |b|
  {
    if a == [] && b == [] then []
    else if b == [] then [Op(Drop, a[0])] + Script(a[1..], b)
    else if a == [] then [Op(Add, b[0])] + Script(a, b[1..])
    else if a[0] == b[0] then [Op(Keep, a[0])] + Script(a[1..], b[1..])
    else if Lcs(a[1..], b) >= Lcs(a, b[1..]) then [Op(Drop, a[0])] + Script(a[1..], b)
    else [Op(Add, b[0])] + Script(a, b[1..])
  }

  // ---- Lcs is the length of a longest common subsequence ----

  ghost predicate Subsequence(s: seq<string>, t: seq<string>) {
    s == [] || (t != [] && ((s[0] == t[0] && Subsequence(s[1..], t[1..])) || Subsequence(s, t[1..])))
  }

  lemma {:induction false} SubsequenceTails(s: seq<string>, t: seq<string>)
    requires s != [] && Subsequence(s, t)
    ensures t != [] && Subsequence(s[1..], t[1..]) && (s[0] != t[0] ==> Subsequence(s, t[1..]))
  {
    if !(s[0] == t[0] && Subsequence(s[1..], t[1..])) {
      SubsequenceTails(s, t[1..]);
      SubsequenceGrows(s[1..], t[1..]);
    }
  }

  lemma SubsequenceGrows(s: seq<string>, t: seq<string>)
    requires t != [] && Subsequence(s, t[1..])
    ensures Subsequence(s, t)
  {
  }

  lemma {:induction false} NoLongerCommonSubsequence(s: seq<string>, a: seq<string>, b: seq<string>)
    requires Subsequence(s, a) && Subsequence(s, b)
    ensures |s| <= Lcs(a, b)
    decreases |a| + |b|
  {
    if s != [] {
      SubsequenceTails(s, a);
      SubsequenceTails(s, b);
      if a[0] == b[0] {
        NoLongerCommonSubsequence(s[1..], a[1..], b[1..]);
      } else if s[0] != a[0] {
        NoLongerCommonSubsequence(s, a[1..], b);
      } else {
        NoLongerCommonSubsequence(s, a, b[1..]);
      }
    }
  }

  function KeptLines(ops: seq<Op>): (s: seq<string>)
    ensures |s| == Kept(ops)
  {
    if ops == [] then [] else (if ops[0].kind == Keep then [ops[0].text] else []) + KeptLines(ops[1..])
  }

  lemma {:induction false} KeptLinesAreCommon(ops: seq<Op>)
    ensures Subsequence(KeptLines(ops), OldSide(ops)) && Subsequence(KeptLines(ops), NewSide(ops))
  {
    if ops != [] {
      KeptLinesAreCommon(ops[1..]);
      var s := KeptLines(ops);
      if ops[0].kind == Keep {
        assert s[1..] == KeptLines(ops[1..]);
        assert OldSide(ops)[1..] == OldSide(ops[1..]) && NewSide(ops)[1..] == NewSide(ops[1..]);
      } else if ops[0].kind == Drop {
        assert s == KeptLines(ops[1..]) && OldSide(ops)[1..] == OldSide(ops[1..]) && NewSide(ops) == NewSide(ops[1..]);
        SubsequenceGrows(s, OldSide(ops));
      } else {
        assert s == KeptLines(ops[1..]) && NewSide(ops)[1..] == NewSide(ops[1..]) && OldSide(ops) == OldSide(ops[1..]);
        SubsequenceGrows(s, NewSide(ops));
      }
    }
  }

  /** Lcs(a, b) is attained by a common subsequence and exceeded by none. */
  lemma LcsIsLongest(a: seq<string>, b: seq<string>)
    ensures exists s :: Subsequence(s, a) && Subsequence(s, b) && |s| == Lcs(a, b)
    ensures forall s :: Subsequence(s, a) && Subsequence(s, b) ==> |s| <= Lcs(a, b)
  {
    ScriptEdits(a, b);
    KeptLinesAreCommon(Script(a, b));
    forall s | Subsequence(s, a) && Subsequence(s, b)
      ensures |s| <= Lcs(a, b)
    {
      NoLongerCommonSubsequence(s, a, b);
    }
  }

  // ---- Script is a shortest edit script ----

  lemma {:induction false} ScriptEdits(a: seq<string>, b: seq<string>)
    ensures Edits(Script(a, b), a, b) && Kept(Script(a, b)) == Lcs(a, b)
    decreases |a| + |b|
  {
    if a == [] && b == [] {
    } else if b == [] {
      ScriptEdits(a[1..], b);
    } else if a == [] {
      ScriptEdits(a, b[1..]);
    } else if a[0] == b[0] {
      ScriptEdits(a[1..], b[1..]);
    } else if Lcs(a[1..], b) >= Lcs(a, b[1..]) {
      ScriptEdits(a[1..], b);
    } else {
      ScriptEdits(a, b[1..]);
    }
  }

  lemma {:induction false} ChangesAndKept(ops: seq<Op>)
    ensures Changes(ops) + 2 * Kept(ops) == |OldSide(ops)| + |NewSide(ops)|
  {
    if ops != [] {
      ChangesAndKept(ops[1..]);
    }
  }

  /** No script that turns a into b has fewer insertions plus deletions. */
  lemma ScriptIsMinimal(a: seq<string>, b: seq<string>, other: seq<Op>)
    requires Edits(other, a, b)
    ensures Edits(Script(a, b), a, b) && Changes(Script(a, b)) <= Changes(other)
  {
    ScriptEdits(a, b);
    KeptLinesAreCommon(other);
    NoLongerCommonSubsequence(KeptLines(other), a, b);
    ChangesAndKept(other);
    ChangesAndKept(Script(a, b));
  }

  // ---- The table and the walk ----

  /** The same length for the suffixes from i and from j, without building them. */
  function LcsAt(a: seq<string>, b: seq<string>, i: nat, j: nat): nat
    requires i <= |a| && j <= |b|
    decreases |a| - i + |b| - j
  {
    if i == |a| || j == |b| then 0
    else if a[i] == b[j] then 1 + LcsAt(a, b, i + 1, j + 1)
    else Max(LcsAt(a, b, i + 1, j), LcsAt(a, b, i, j + 1))
  }

  lemma {:induction false} LcsOfSuffixes(a: seq<string>, b: seq<string>, i: nat, j: nat)
    requires i <= |a| && j <= |b|
    ensures LcsAt(a, b, i, j) == Lcs(a[i..], b[j..])
    decreases |a| - i + |b| - j
  {
    if i < |a| && j < |b| {
      assert a[i..][1..] == a[i + 1..] && b[j..][1..] == b[j + 1..];
      LcsOfSuffixes(a, b, i + 1, j + 1);
      LcsOfSuffixes(a, b, i + 1, j);
      LcsOfSuffixes(a, b, i, j + 1);
    }
  }

  ghost predicate RowFilled(dp: array2<nat>, a: seq<string>, b: seq<string>, p: nat)
    requires p <= |a| && dp.Length0 == |a| + 1 && dp.Length1 == |b| + 1
    reads dp
  {
    forall q :: 0 <= q <= |b| ==> dp[p, q] == LcsAt(a, b, p, q)
  }

  /** dp holds the longest-common-subsequence length of every pair of suffixes. */
  ghost predicate IsTable(dp: array2<nat>, a: seq<string>, b: seq<string>)
    reads dp
  {
    dp.Length0 == |a| + 1 && dp.Length1 == |b| + 1 && forall p :: 0 <= p <= |a| ==> RowFilled(dp, a, b, p)
  }

  method FillTable(a: seq<string>, b: seq<string>) returns (dp: array2<nat>)
    ensures fresh(dp) && IsTable(dp, a, b)
  {
    dp := new nat[|a| + 1, |b| + 1]((_, _) => 0);
    var i := |a| - 1;
    while i >= 0
      invariant -1 <= i < |a|
      invariant forall p :: i < p <= |a| ==> RowFilled(dp, a, b, p)
      invariant forall p :: 0 <= p <= i ==> dp[p, |b|] == 0
    {
      label Before:
      FillRow(dp, a, b, i);
      forall p | i <= p <= |a|
        ensures RowFilled(dp, a, b, p)
      {
        assert p > i ==> old@Before(RowFilled(dp, a, b, p));
      }
      i := i - 1;
    }
  }

  method FillRow(dp: array2<nat>, a: seq<string>, b: seq<string>, i: nat)
    requires i < |a| && dp.Length0 == |a| + 1 && dp.Length1 == |b| + 1
    requires RowFilled(dp, a, b, i + 1) && dp[i, |b|] == 0
    modifies dp
    ensures RowFilled(dp, a, b, i)
    ensures forall p, q :: 0 <= p <= |a| && 0 <= q <= |b| && p != i ==> dp[p, q] == old(dp[p, q])
  {
    var j := |b| - 1;
    while j >= 0
      invariant -1 <= j < |b|
      invariant forall q :: j < q <= |b| ==> dp[i, q] == LcsAt(a, b, i, q)
      invariant forall p, q :: 0 <= p <= |a| && 0 <= q <= |b| && p != i ==> dp[p, q] == old(dp[p, q])
    {
      if a[i] == b[j] {
        dp[i, j] := dp[i + 1, j + 1] + 1;
      } else if dp[i + 1, j] >= dp[i, j + 1] {
        dp[i, j] := dp[i + 1, j];
      } else {
        dp[i, j] := dp[i, j + 1];
      }
      j := j - 1;
    }
  }

  /** ops is what Script(a, b) does before the walk stands at (i, j). */
  ghost predicate WalkedTo(a: seq<string>, b: seq<string>, ops: seq<Op>, i: nat, j: nat) {
    i <= |a| && j <= |b| && Script(a, b) == ops + Script(a[i..], b[j..])
  }

  /** What the script does at (i, j), and where that leaves the walk. */
  function Move(a: seq<string>, b: seq<string>, i: nat, j: nat): (Op, nat, nat)
    requires i <= |a| && j <= |b| && (i < |a| || j < |b|)
  {
    if j == |b| then (Op(Drop, a[i]), i + 1, j)
    else if i == |a| then (Op(Add, b[j]), i, j + 1)
    else if a[i] == b[j] then (Op(Keep, a[i]), i + 1, j + 1)
    else if LcsAt(a, b, i + 1, j) >= LcsAt(a, b, i, j + 1) then (Op(Drop, a[i]), i + 1, j)
    else (Op(Add, b[j]), i, j + 1)
  }

  lemma ScriptMoves(a: seq<string>, b: seq<string>, i: nat, j: nat)
    requires i <= |a| && j <= |b| && (i < |a| || j < |b|)
    ensures var (o, i', j') := Move(a, b, i, j); Script(a[i..], b[j..]) == [o] + Script(a[i'..], b[j'..])
  {
    var s, t := a[i..], b[j..];
    if i < |a| {
      assert s[0] == a[i] && s[1..] == a[i + 1..];
    }
    if j < |b| {
      assert t[0] == b[j] && t[1..] == b[j + 1..];
    }
    if i < |a| && j < |b| {
      LcsOfSuffixes(a, b, i + 1, j);
      LcsOfSuffixes(a, b, i, j + 1);
    }
  }

  lemma WalkStep(a: seq<string>, b: seq<string>, ops: seq<Op>, i: nat, j: nat)
    requires WalkedTo(a, b, ops, i, j) && (i < |a| || j < |b|)
    ensures var (o, i', j') := Move(a, b, i, j); WalkedTo(a, b, ops + [o], i', j')
  {
    hide LcsAt;
    var (o, i', j') := Move(a, b, i, j);
    ScriptMoves(a, b, i, j);
    Regroup(ops, [o], Script(a[i'..], b[j'..]));
  }

  method DiffOps(a: seq<string>, b: seq<string>) returns (ops: seq<Op>)
    ensures ops == Script(a, b)
  {
    hide LcsAt, Lcs;
    var dp := FillTable(a, b);
    ops := [];
    var i, j := 0, 0;
    while i < |a| && j < |b|
      invariant IsTable(dp, a, b) && WalkedTo(a, b, ops, i, j)
      decreases |a| - i + |b| - j
    {
      WalkStep(a, b, ops, i, j);
      assert RowFilled(dp, a, b, i) && RowFilled(dp, a, b, i + 1);
      if a[i] == b[j] {
        ops := ops + [Op(Keep, a[i])];
        i, j := i + 1, j + 1;
      } else if dp[i + 1, j] >= dp[i, j + 1] {
        ops := ops + [Op(Drop, a[i])];
        i := i + 1;
      } else {
        ops := ops + [Op(Add, b[j])];
        j := j + 1;
      }
    }
    while i < |a|
      invariant WalkedTo(a, b, ops, i, j) && (i < |a| ==> j == |b|)
    {
      WalkStep(a, b, ops, i, j);
      ops := ops + [Op(Drop, a[i])];
      i := i + 1;
    }
    while j < |b|
      invariant WalkedTo(a, b, ops, i, j) && i == |a|
    {
      WalkStep(a, b, ops, i, j);
      ops := ops + [Op(Add, b[j])];
      j := j + 1;
    }
  }
}
