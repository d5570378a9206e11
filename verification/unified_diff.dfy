/** The git-style printer (UnifiedDiff in internal/aci/fix.go) and, to say what its output
    means, a strict reader that applies a printed patch from its header ranges alone. */
module UnifiedDiffs {
  import opened Options
  import opened TextLines
  import opened LineDiff

  const CONTEXT := 3

  // ---- Normalised text ----

  /** unicode.IsSpace. */
  predicate IsSpace(c: char) {
    c in "\t\n\r " || c as int in {0x0B, 0x0C, 0x85, 0xA0, 0x1680, 0x2028, 0x2029, 0x202F, 0x205F, 0x3000} ||
    0x2000 <= c as int <= 0x200A
  }

  predicate Blank(text: string) {
    forall i :: 0 <= i < |text| ==> IsSpace(text[i])
  }

  /** Exactly one trailing newline, or empty if there is no content. */
  function Normalised(text: string): (s: string)
    ensures Terminated(s)
  {
    if Blank(text) then "" else TrimNewlines(text) + "\n"
  }

  function Newlines(n: nat): (s: string)
    ensures |s| == n && forall i :: 0 <= i < n ==> s[i] == '\n'
  {
    seq(n, i => '\n')
  }

  lemma {:induction false} TrimNewlinesCuts(s: string) returns (n: nat)
    ensures s == TrimNewlines(s) + Newlines(n)
  {
    n := 0;
    if s != "" && s[|s| - 1] == '\n' {
      var m := TrimNewlinesCuts(s[..|s| - 1]);
      n := m + 1;
    }
  }

  /** A blank text is normalised to nothing, and no text with a visible character is. Any
      other text keeps all but its trailing newlines and ends in one. */
  lemma NormalisedKeepsContent(text: string) returns (t: string, n: nat)
    ensures Normalised(text) == "" <==> Blank(text)
    ensures (exists i :: 0 <= i < |text| && '!' <= text[i] <= '~') ==> Normalised(text) != ""
    ensures text == t + Newlines(n) && (t == "" || t[|t| - 1] != '\n')
    ensures !Blank(text) ==> Normalised(text) == t + "\n"
  {
    t := TrimNewlines(text);
    n := TrimNewlinesCuts(text);
  }

  lemma SameContent(t: string, m: nat, u: string, n: nat)
    requires t + Newlines(m) == u + Newlines(n)
    requires (t == "" || t[|t| - 1] != '\n') && (u == "" || u[|u| - 1] != '\n')
    ensures t == u
  {
    var x, y := t + Newlines(m), u + Newlines(n);
    assert u != "" ==> y[|u| - 1] != '\n';
    assert t != "" ==> x[|t| - 1] != '\n';
    assert t == x[..|t|] && u == y[..|u|];
  }

  /** The texts that count as unchanged: both blank, or with content and apart by no more
      than trailing newlines. */
  ghost predicate SameManifest(x: string, y: string) {
    if Blank(x) then Blank(y) else exists m, n :: x + Newlines(m) == y + Newlines(n)
  }

  lemma NormalisedAlike(x: string, y: string)
    ensures Normalised(x) == Normalised(y) <==> SameManifest(x, y)
  {
    hide Normalised;
    var t, m := NormalisedKeepsContent(x);
    var u, n := NormalisedKeepsContent(y);
    if !Blank(x) && Normalised(x) == Normalised(y) {
      assert t == (t + "\n")[..|t|] && u == (u + "\n")[..|u|];
      assert x + Newlines(n) == y + Newlines(m);
    }
    if !Blank(x) && SameManifest(x, y) {
      var i, j :| x + Newlines(i) == y + Newlines(j);
      assert t + Newlines(m + i) == x + Newlines(i) && u + Newlines(n + j) == y + Newlines(j);
      SameContent(t, m + i, u, n + j);
      var k :| 0 <= k < |x| && !IsSpace(x[k]);
      assert (x + Newlines(i))[k] == (y + Newlines(j))[k];
    }
  }

  function LinesOf(text: string): seq<string> {
    Lines(Normalised(text))
  }

  lemma SameLinesSameText(x: string, y: string)
    ensures LinesOf(x) == LinesOf(y) <==> Normalised(x) == Normalised(y)
    ensures NoNewlines(LinesOf(x))
  {
    LinesOfTerminated(Normalised(x));
    LinesOfTerminated(Normalised(y));
  }

  // ---- Sides of a stretch of operations ----

  lemma {:induction false} OldSideAppend(x: seq<Op>, y: seq<Op>)
    ensures OldSide(x + y) == OldSide(x) + OldSide(y)
  {
    if x == [] {
      assert x + y == y;
    } else {
      OldSideAppend(x[1..], y);
      assert (x + y)[0] == x[0] && (x + y)[1..] == x[1..] + y;
      Regroup(OldLine(x[0]), OldSide(x[1..]), OldSide(y));
    }
  }

  lemma {:induction false} NewSideAppend(x: seq<Op>, y: seq<Op>)
    ensures NewSide(x + y) == NewSide(x) + NewSide(y)
  {
    if x == [] {
      assert x + y == y;
    } else {
      NewSideAppend(x[1..], y);
      assert (x + y)[0] == x[0] && (x + y)[1..] == x[1..] + y;
      Regroup(NewLine(x[0]), NewSide(x[1..]), NewSide(y));
    }
  }

  lemma SidesCut(ops: seq<Op>, k: nat)
    requires k <= |ops|
    ensures OldSide(ops) == OldSide(ops[..k]) + OldSide(ops[k..]) && NewSide(ops) == NewSide(ops[..k]) + NewSide(ops[k..])
  {
    hide OldSide, NewSide;
    OldSideAppend(ops[..k], ops[k..]);
    NewSideAppend(ops[..k], ops[k..]);
    assert ops == ops[..k] + ops[k..];
  }

  lemma SidesSplit(ops: seq<Op>, i: nat, j: nat)
    requires i <= j <= |ops|
    ensures OldSide(ops[..j]) == OldSide(ops[..i]) + OldSide(ops[i..j])
    ensures NewSide(ops[..j]) == NewSide(ops[..i]) + NewSide(ops[i..j])
    ensures OldSide(ops) == OldSide(ops[..j]) + OldSide(ops[j..])
    ensures NewSide(ops) == NewSide(ops[..j]) + NewSide(ops[j..])
  {
    hide OldSide, NewSide;
    SidesCut(ops, j);
    SidesCut(ops[..j], i);
    assert ops[..j][..i] == ops[..i] && ops[..j][i..] == ops[i..j];
  }

  ghost predicate AllKept(ops: seq<Op>) {
    forall i :: 0 <= i < |ops| ==> ops[i].kind == Keep
  }

  lemma {:induction false} KeptSidesAgree(ops: seq<Op>)
    requires AllKept(ops)
    ensures OldSide(ops) == NewSide(ops) && Changes(ops) == 0
  {
    if ops != [] {
      KeptSidesAgree(ops[1..]);
    }
  }

  lemma {:induction false} NoChangesMeansKept(ops: seq<Op>)
    requires Changes(ops) == 0
    ensures AllKept(ops)
  {
    if ops != [] {
      NoChangesMeansKept(ops[1..]);
    }
  }

  /** The script that keeps every line. */
  function Identity(a: seq<string>): (ops: seq<Op>)
    ensures Edits(ops, a, a) && Changes(ops) == 0
  {
    if a == [] then [] else [Op(Keep, a[0])] + Identity(a[1..])
  }

  lemma UnchangedIffEqual(a: seq<string>, b: seq<string>)
    ensures AllKept(Script(a, b)) <==> a == b
  {
    ScriptEdits(a, b);
    if AllKept(Script(a, b)) {
      KeptSidesAgree(Script(a, b));
    }
    if a == b {
      ScriptIsMinimal(a, b, Identity(a));
      NoChangesMeansKept(Script(a, b));
    }
  }

  // ---- Printing ----

  function Mark(k: Kind): char {
    match k case Keep => ' ' case Add => '+' case Drop => '-'
  }

  /** rng: where a side of a hunk starts and how many lines it has. */
  function Rng(start: nat, length: nat): string
    requires start > 0
  {
    if length == 0 then Decimal(start - 1) + ",0"
    else if length == 1 then Decimal(start)
    else Decimal(start) + "," + Decimal(length)
  }

  function OpLines(ops: seq<Op>): seq<string> {
    if ops == [] then [] else [[Mark(ops[0].kind)] + ops[0].text] + OpLines(ops[1..])
  }

  function HeaderLine(aStart: nat, aLen: nat, bStart: nat, bLen: nat): string
    requires aStart > 0 && bStart > 0
  {
    "@@ -" + Rng(aStart, aLen) + " +" + Rng(bStart, bLen) + " @@"
  }

  /** A stretch of operations that is printed as one hunk. */
  datatype Cut = Cut(from: nat, to: nat)

  ghost predicate InRange(ops: seq<Op>, c: Cut) {
    c.from < c.to <= |ops|
  }

  ghost predicate AllInRange(ops: seq<Op>, cuts: seq<Cut>) {
    forall c :: c in cuts ==> InRange(ops, c)
  }

  /** How many lines lie before a range, and how many are in it. */
  datatype Range = Range(before: nat, len: nat)

  datatype Hunk = Hunk(old_: Range, new_: Range, body: seq<Op>)

  ghost predicate Counted(h: Hunk) {
    h.body != [] && h.old_.len == |OldSide(h.body)| && h.new_.len == |NewSide(h.body)|
  }

  function HunkOf(ops: seq<Op>, c: Cut): Hunk
    requires c.from <= c.to <= |ops|
  {
    var body := ops[c.from..c.to];
    Hunk(Range(|OldSide(ops[..c.from])|, |OldSide(body)|), Range(|NewSide(ops[..c.from])|, |NewSide(body)|), body)
  }

  function HunkLines(h: Hunk): seq<string> {
    [HeaderLine(h.old_.before + 1, h.old_.len, h.new_.before + 1, h.new_.len)] + OpLines(h.body)
  }

  function HunksOf(ops: seq<Op>, cuts: seq<Cut>): (hunks: seq<Hunk>)
    requires forall c :: c in cuts ==> c.from <= c.to <= |ops|
    ensures |hunks| == |cuts|
  {
    if cuts == [] then [] else
      assert cuts[0] in cuts;
      [HunkOf(ops, cuts[0])] + HunksOf(ops, cuts[1..])
  }

  function FileLines(path: string): seq<string> {
    ["--- a/" + path, "+++ b/" + path]
  }

  // ---- Where the hunks are cut ----

  predicate ChangedAt(ops: seq<Op>, i: int) {
    0 <= i < |ops| && ops[i].kind != Keep
  }

  /** A hunk runs from three lines before its first change to three lines after its last
      one, as far as there are lines, and never bridges seven unchanged lines. */
  ghost predicate CutAround(ops: seq<Op>, c: Cut, first: nat, last: nat) {
    first <= last && ChangedAt(ops, first) && ChangedAt(ops, last) &&
    c.from == (if first < CONTEXT then 0 else first - CONTEXT) &&
    c.to == (if last + CONTEXT + 1 > |ops| then |ops| else last + CONTEXT + 1) &&
    (forall i :: c.from <= i < first || last < i < c.to ==> !ChangedAt(ops, i)) &&
    forall i :: first <= i < last ==> ChangeSoonAfter(ops, i)
  }

  ghost predicate ChangeSoonAfter(ops: seq<Op>, i: nat) {
    exists j :: i < j <= i + 2 * CONTEXT + 1 && ChangedAt(ops, j)
  }

  ghost predicate Covered(cuts: seq<Cut>, i: int) {
    exists k :: 0 <= k < |cuts| && cuts[k].from <= i < cuts[k].to
  }

  /** The hunks are in order and apart, each is cut as above, and every change before
      `upTo` is in one of them. */
  ghost predicate WellCut(ops: seq<Op>, cuts: seq<Cut>, upTo: nat) {
    AllInRange(ops, cuts) &&
    (forall c :: c in cuts ==> exists first, last :: CutAround(ops, c, first, last)) &&
    (forall k :: 0 < k < |cuts| ==> cuts[k - 1].to < cuts[k].from) &&
    (forall i :: 0 <= i < upTo && ChangedAt(ops, i) ==> Covered(cuts, i))
  }

  // ---- Reading a patch ----

  function ReadRange(s: string): (Option<Range>, string) {
    if s == "" || !IsDigit(s[0]) then (None, s)
    else
      var (start, rest) := ReadNat(s, 0);
      var (len, rest') := if rest != "" && rest[0] == ',' then ReadNat(rest[1..], 0) else (1, rest);
      if len == 0 then (Some(Range(start, 0)), rest')
      else if start == 0 then (None, rest')
      else (Some(Range(start - 1, len)), rest')
  }

  function ReadHeader(line: string): Option<(Range, Range)> {
    if !("@@ -" <= line) then None
    else
      var (old_, rest) := ReadRange(line[4..]);
      if old_.None? || !(" +" <= rest) then None
      else
        var (new_, rest') := ReadRange(rest[2..]);
        if new_.None? || rest' != " @@" then None else Some((old_.value, new_.value))
  }

  /** Body lines until both counts are used up. */
  function ReadBody(lines: seq<string>, oldLeft: nat, newLeft: nat): Option<(seq<Op>, seq<string>)>
    decreases |lines|
  {
    if oldLeft == 0 && newLeft == 0 then Some(([], lines))
    else if lines == [] || lines[0] == "" then None
    else
      var c, text := lines[0][0], lines[0][1..];
      if c == ' ' && oldLeft > 0 && newLeft > 0 then Prepend(Op(Keep, text), ReadBody(lines[1..], oldLeft - 1, newLeft - 1))
      else if c == '-' && oldLeft > 0 then Prepend(Op(Drop, text), ReadBody(lines[1..], oldLeft - 1, newLeft))
      else if c == '+' && newLeft > 0 then Prepend(Op(Add, text), ReadBody(lines[1..], oldLeft, newLeft - 1))
      else None
  }

  function Prepend(o: Op, r: Option<(seq<Op>, seq<string>)>): Option<(seq<Op>, seq<string>)> {
    if r.None? then None else Some(([o] + r.value.0, r.value.1))
  }

  /** The hunk at the front, and the lines after it. */
  function ReadHunk(lines: seq<string>): Option<(Hunk, seq<string>)>
    requires lines != []
  {
    var header := ReadHeader(lines[0]);
    if header.None? then None
    else
      var (old_, new_) := header.value;
      var body := ReadBody(lines[1..], old_.len, new_.len);
      if body.None? then None else Some((Hunk(old_, new_, body.value.0), body.value.1))
  }

  function ReadHunks(lines: seq<string>): Option<seq<Hunk>>
    decreases |lines|
  {
    if lines == [] then Some([])
    else
      var first := ReadHunk(lines);
      if first.None? || |first.value.1| >= |lines| then None
      else
        var later := ReadHunks(first.value.1);
        if later.None? then None else Some([first.value.0] + later.value)
  }

  /** Apply hunk after hunk to a. `cur` lines of a are consumed and `out` is written. Both
      ranges of a header must be where the hunk really is, and the lines must match. */
  function ApplyHunks(a: seq<string>, hunks: seq<Hunk>, cur: nat, out: seq<string>): Option<seq<string>>
    requires cur <= |a|
  {
    if hunks == [] then Some(out + a[cur..])
    else
      var h := hunks[0];
      var at, end := h.old_.before, h.old_.before + h.old_.len;
      if at < cur || end > |a| || |out| + (at - cur) != h.new_.before || a[at..end] != OldSide(h.body) then None
      else ApplyHunks(a, hunks[1..], end, out + a[cur..at] + NewSide(h.body))
  }

  function Patch(a: seq<string>, text: string): Option<seq<string>> {
    if text == "" then Some(a)
    else
      var lines := Lines(text);
      if |lines| < 2 || !("--- " <= lines[0]) || !("+++ " <= lines[1]) then None
      else
        var hunks := ReadHunks(lines[2..]);
        if hunks.None? then None else ApplyHunks(a, hunks.value, 0, [])
  }

  // ---- Reading back what was printed ----

  lemma RngReads(start: nat, length: nat, rest: string)
    requires start > 0 && (rest == "" || (!IsDigit(rest[0]) && rest[0] != ','))
    ensures ReadRange(Rng(start, length) + rest) == (Some(Range(start - 1, length)), rest)
  {
    var n := if length == 0 then start - 1 else start;
    if length == 1 {
      RangeWithoutCount(n, rest);
    } else {
      assert length == 0 ==> Decimal(0) == "0";
      assert Rng(start, length) + rest == Decimal(n) + ("," + (Decimal(length) + rest));
      RangeWithCount(n, length, rest);
    }
  }

  lemma RangeWithoutCount(n: nat, rest: string)
    requires n > 0 && (rest == "" || (!IsDigit(rest[0]) && rest[0] != ','))
    ensures ReadRange(Decimal(n) + rest) == (Some(Range(n - 1, 1)), rest)
  {
    hide ReadNat, Decimal;
    assert (Decimal(n) + rest)[0] == Decimal(n)[0];
    DecimalReads(n, rest);
  }

  lemma RangeWithCount(n: nat, length: nat, rest: string)
    requires (rest == "" || !IsDigit(rest[0])) && (length > 0 ==> n > 0)
    ensures ReadRange(Decimal(n) + ("," + (Decimal(length) + rest))) == (Some(Range(if length == 0 then n else n - 1, length)), rest)
  {
    hide ReadNat, Decimal;
    var tail := "," + (Decimal(length) + rest);
    assert (Decimal(n) + tail)[0] == Decimal(n)[0];
    DecimalReads(n, tail);
    DecimalReads(length, rest);
    assert tail[1..] == Decimal(length) + rest;
  }

  lemma HeaderReads(aStart: nat, aLen: nat, bStart: nat, bLen: nat)
    requires aStart > 0 && bStart > 0
    ensures ReadHeader(HeaderLine(aStart, aLen, bStart, bLen)) == Some((Range(aStart - 1, aLen), Range(bStart - 1, bLen)))
  {
    var r, q := Rng(aStart, aLen), Rng(bStart, bLen);
    var tail := " +" + q + " @@";
    assert HeaderLine(aStart, aLen, bStart, bLen) == "@@ -" + (r + tail);
    AfterPrefix("@@ -", r + tail);
    RngReads(aStart, aLen, tail);
    assert tail == " +" + (q + " @@");
    AfterPrefix(" +", q + " @@");
    RngReads(bStart, bLen, " @@");
  }

  lemma AfterPrefix(p: string, s: string)
    ensures p <= p + s && (p + s)[|p|..] == s
  {
  }

  lemma OpLineReads(o: Op, lines: seq<string>, oldLeft: nat, newLeft: nat)
    requires oldLeft >= |OldLine(o)| && newLeft >= |NewLine(o)|
    ensures ReadBody([[Mark(o.kind)] + o.text] + lines, oldLeft, newLeft) ==
            Prepend(o, ReadBody(lines, oldLeft - |OldLine(o)|, newLeft - |NewLine(o)|))
  {
    var line := [Mark(o.kind)] + o.text;
    assert line[0] == Mark(o.kind) && line[1..] == o.text;
    var all := [line] + lines;
    assert all[0] == line && all[1..] == lines;
  }

  lemma {:induction false} BodyReads(ops: seq<Op>, rest: seq<string>)
    ensures ReadBody(OpLines(ops) + rest, |OldSide(ops)|, |NewSide(ops)|) == Some((ops, rest))
    ensures |OpLines(ops)| == |ops|
  {
    if ops == [] {
      assert OpLines(ops) + rest == rest;
    } else {
      BodyReads(ops[1..], rest);
      OpLineReads(ops[0], OpLines(ops[1..]) + rest, |OldSide(ops)|, |NewSide(ops)|);
      Regroup([[Mark(ops[0].kind)] + ops[0].text], OpLines(ops[1..]), rest);
      assert [ops[0]] + ops[1..] == ops;
    }
  }

  lemma HunkReads(h: Hunk, rest: seq<string>)
    requires Counted(h)
    ensures ReadHunk(HunkLines(h) + rest) == Some((h, rest)) && |HunkLines(h)| > 0
  {
    var header := HeaderLine(h.old_.before + 1, h.old_.len, h.new_.before + 1, h.new_.len);
    HeaderReads(h.old_.before + 1, h.old_.len, h.new_.before + 1, h.new_.len);
    BodyReads(h.body, rest);
    Regroup([header], OpLines(h.body), rest);
    PartsMakeHunk(header, OpLines(h.body) + rest, h, rest);
  }

  lemma PartsMakeHunk(header: string, lines: seq<string>, h: Hunk, rest: seq<string>)
    requires ReadHeader(header) == Some((h.old_, h.new_)) && ReadBody(lines, h.old_.len, h.new_.len) == Some((h.body, rest))
    ensures ReadHunk([header] + lines) == Some((h, rest))
  {
    assert ([header] + lines)[0] == header && ([header] + lines)[1..] == lines;
  }

  ghost function AllHunkLines(hunks: seq<Hunk>): seq<string> {
    if hunks == [] then [] else HunkLines(hunks[0]) + AllHunkLines(hunks[1..])
  }

  lemma {:induction false} HunksRead(hunks: seq<Hunk>)
    requires forall h :: h in hunks ==> Counted(h)
    ensures ReadHunks(AllHunkLines(hunks)) == Some(hunks)
  {
    if hunks != [] {
      HunksRead(hunks[1..]);
      var rest := AllHunkLines(hunks[1..]);
      assert hunks[0] in hunks;
      HunkReads(hunks[0], rest);
      assert [hunks[0]] + hunks[1..] == hunks;
    }
  }

  /** From operation e on, the cuts take up everything but unchanged lines, in order. */
  ghost predicate CutsFrom(ops: seq<Op>, cuts: seq<Cut>, e: nat) {
    if cuts == [] then e <= |ops| && AllKept(ops[e..])
    else e <= cuts[0].from && InRange(ops, cuts[0]) && AllKept(ops[e..cuts[0].from]) && CutsFrom(ops, cuts[1..], cuts[0].to)
  }

  lemma {:induction false} WellCutFrom(ops: seq<Op>, cuts: seq<Cut>, k: nat)
    requires WellCut(ops, cuts, |ops|) && k <= |cuts|
    ensures CutsFrom(ops, cuts[k..], EndOf(cuts, k))
    decreases |cuts| - k
  {
    hide ChangedAt, AllKept, OldSide, NewSide;
    assert k > 0 ==> cuts[k - 1] in cuts;
    CutsAreOrdered(ops, cuts, k);
    if k < |cuts| {
      WellCutFrom(ops, cuts, k + 1);
      CutsAreOrdered(ops, cuts, k + 1);
      assert cuts[k] in cuts;
      GapIsKept(ops, cuts, EndOf(cuts, k), cuts[k].from);
      CutsFromCons(ops, cuts[k..], EndOf(cuts, k));
      assert cuts[k..][1..] == cuts[k + 1..];
    } else {
      GapIsKept(ops, cuts, EndOf(cuts, k), |ops|);
      assert ops[EndOf(cuts, k)..] == ops[EndOf(cuts, k)..|ops|];
    }
  }

  /** Where the first k hunks end. */
  function EndOf(cuts: seq<Cut>, k: nat): nat
    requires k <= |cuts|
  {
    if k == 0 then 0 else cuts[k - 1].to
  }

  lemma CutsFromCons(ops: seq<Op>, cuts: seq<Cut>, e: nat)
    requires cuts != [] && e <= cuts[0].from && InRange(ops, cuts[0]) && AllKept(ops[e..cuts[0].from])
    ensures CutsFrom(ops, cuts[1..], cuts[0].to) ==> CutsFrom(ops, cuts, e)
  {
  }

  lemma {:induction false} CutsAreOrdered(ops: seq<Op>, cuts: seq<Cut>, k: nat)
    requires WellCut(ops, cuts, |ops|) && k <= |cuts|
    ensures forall m :: 0 <= m < k ==> cuts[m].to <= EndOf(cuts, k)
    ensures forall m :: k <= m < |cuts| ==> EndOf(cuts, k) <= cuts[m].from
    ensures forall m :: k <= m < |cuts| ==> cuts[k].from <= cuts[m].from
  {
    if k > 0 {
      CutsAreOrdered(ops, cuts, k - 1);
      assert cuts[k - 1] in cuts;
    }
    for m := k to |cuts|
      invariant forall n :: k <= n < m ==> EndOf(cuts, k) <= cuts[n].from && cuts[k].from <= cuts[n].from
    {
      if m > k {
        assert cuts[m - 1] in cuts;
      }
    }
  }

  lemma GapIsKept(ops: seq<Op>, cuts: seq<Cut>, e: nat, to: nat)
    requires WellCut(ops, cuts, |ops|) && e <= to <= |ops|
    requires forall m :: 0 <= m < |cuts| ==> cuts[m].to <= e || to <= cuts[m].from
    ensures AllKept(ops[e..to])
  {
    forall i | e <= i < to
      ensures ops[i].kind == Keep
    {
      assert ChangedAt(ops, i) ==> Covered(cuts, i);
    }
  }

  /** Applying the hunks of a well-cut script, from the end of the previous hunk on. */
  lemma {:induction false} HunksApply(a: seq<string>, b: seq<string>, ops: seq<Op>, cuts: seq<Cut>, e: nat)
    requires Edits(ops, a, b) && AllInRange(ops, cuts) && CutsFrom(ops, cuts, e) && e <= |ops|
    ensures |OldSide(ops[..e])| <= |a|
    ensures ApplyHunks(a, HunksOf(ops, cuts), |OldSide(ops[..e])|, NewSide(ops[..e])) == Some(b)
    decreases |cuts|
  {
    hide OldSide, NewSide, Edits;
    if cuts == [] {
      NothingLeft(a, b, ops, e);
    } else {
      HunksApply(a, b, ops, cuts[1..], cuts[0].to);
      HunkSides(a, b, ops, cuts[0], e);
      ApplyStep(a, HunksOf(ops, cuts), |OldSide(ops[..e])|, NewSide(ops[..e]));
      assert HunksOf(ops, cuts)[1..] == HunksOf(ops, cuts[1..]);
    }
  }

  lemma NothingLeft(a: seq<string>, b: seq<string>, ops: seq<Op>, e: nat)
    requires Edits(ops, a, b) && e <= |ops| && AllKept(ops[e..])
    ensures |OldSide(ops[..e])| <= |a| && NewSide(ops[..e]) + a[|OldSide(ops[..e])|..] == b
  {
    SidesSplit(ops, e, e);
    KeptSidesAgree(ops[e..]);
    assert a[|OldSide(ops[..e])|..] == OldSide(ops[e..]);
  }

  lemma ApplyStep(a: seq<string>, hunks: seq<Hunk>, cur: nat, out: seq<string>)
    requires hunks != [] && cur <= hunks[0].old_.before && hunks[0].old_.before + hunks[0].old_.len <= |a|
    requires a[hunks[0].old_.before..hunks[0].old_.before + hunks[0].old_.len] == OldSide(hunks[0].body)
    requires |out| + (hunks[0].old_.before - cur) == hunks[0].new_.before
    ensures ApplyHunks(a, hunks, cur, out) ==
            ApplyHunks(a, hunks[1..], hunks[0].old_.before + hunks[0].old_.len,
                       out + a[cur..hunks[0].old_.before] + NewSide(hunks[0].body))
  {
  }

  lemma HunkSides(a: seq<string>, b: seq<string>, ops: seq<Op>, c: Cut, e: nat)
    requires Edits(ops, a, b) && InRange(ops, c) && e <= c.from
    requires AllKept(ops[e..c.from])
    ensures
      var body := ops[c.from..c.to];
      var cur, at, end := |OldSide(ops[..e])|, |OldSide(ops[..c.from])|, |OldSide(ops[..c.to])|;
      cur <= at <= end <= |a| && end == at + |OldSide(body)| && a[at..end] == OldSide(body) &&
      |NewSide(ops[..c.from])| == |NewSide(ops[..e])| + (at - cur) &&
      NewSide(ops[..c.to]) == NewSide(ops[..e]) + a[cur..at] + NewSide(body)
  {
    SidesSplit(ops, e, c.from);
    SidesSplit(ops, c.from, c.to);
    KeptSidesAgree(ops[e..c.from]);
    assert a[|OldSide(ops[..e])|..|OldSide(ops[..c.from])|] == OldSide(ops[e..c.from]);
  }

  // ---- The printer ----

  /** Nothing changed in the last three operations before i. */
  ghost predicate Quiet(ops: seq<Op>, i: nat) {
    forall j :: i - CONTEXT <= j < i ==> !ChangedAt(ops, j)
  }

  /** The next hunk at or after operation i, if any change is left. */
  method NextCut(ops: seq<Op>, i: nat) returns (c: Option<Cut>, ghost first: nat, ghost last: nat)
    requires i <= |ops| && Quiet(ops, i)
    ensures c.None? ==> forall j :: i <= j ==> !ChangedAt(ops, j)
    ensures c.Some? ==> InRange(ops, c.value) && CutAround(ops, c.value, first, last) && i <= first
    ensures c.Some? ==> forall j :: i <= j < first ==> !ChangedAt(ops, j)
    ensures c.Some? ==> forall j :: c.value.to <= j <= c.value.to + CONTEXT ==> !ChangedAt(ops, j)
    ensures c.Some? && c.value.to < |ops| ==> Quiet(ops, c.value.to)
  {
    var at := i;
    first, last := 0, 0;
    while at < |ops| && ops[at].kind == Keep
      invariant i <= at <= |ops| && forall j :: i <= j < at ==> !ChangedAt(ops, j)
    {
      at := at + 1;
    }
    if at >= |ops| {
      return None, first, last;
    }
    var from := if at < CONTEXT then 0 else at - CONTEXT;
    var end, latest := at, at;
    while end < |ops|
      invariant at <= latest <= end <= |ops| && end - latest <= 2 * CONTEXT + 1 && ChangedAt(ops, latest)
      invariant forall j :: latest < j < end ==> !ChangedAt(ops, j)
      invariant forall j :: at <= j < latest ==> ChangeSoonAfter(ops, j)
    {
      if ops[end].kind != Keep {
        assert ChangedAt(ops, end);
        latest := end;
      }
      if end - latest > 2 * CONTEXT {
        break;
      }
      end := end + 1;
    }
    end := latest + CONTEXT + 1;
    if end > |ops| {
      end := |ops|;
    }
    return Some(Cut(from, end)), at, latest;
  }

  method CountSides(ops: seq<Op>, from: nat, to: nat) returns (old_: nat, new_: nat)
    requires from <= to <= |ops|
    ensures old_ == |OldSide(ops[from..to])| && new_ == |NewSide(ops[from..to])|
  {
    old_, new_ := 0, 0;
    assert ops[from..from] == [];
    for k := from to to
      invariant old_ == |OldSide(ops[from..k])| && new_ == |NewSide(ops[from..k])|
    {
      assert ops[from..k + 1] == ops[from..k] + [ops[k]];
      OldSideAppend(ops[from..k], [ops[k]]);
      NewSideAppend(ops[from..k], [ops[k]]);
      if ops[k].kind != Add {
        old_ := old_ + 1;
      }
      if ops[k].kind != Drop {
        new_ := new_ + 1;
      }
    }
  }

  method PrintOps(ops: seq<Op>, from: nat, to: nat) returns (text: string)
    requires from <= to <= |ops|
    ensures text == Unlines(OpLines(ops[from..to]))
  {
    text := "";
    assert ops[from..from] == [];
    for k := from to to
      invariant text == Unlines(OpLines(ops[from..k]))
    {
      var line := [Mark(ops[k].kind)] + ops[k].text;
      assert ops[from..k + 1] == ops[from..k] + [ops[k]];
      OpLinesAppend(ops[from..k], ops[k]);
      UnlinesSnoc(OpLines(ops[from..k]), line);
      text := text + line + "\n";
    }
  }

  lemma {:induction false} OpLinesAppend(x: seq<Op>, o: Op)
    ensures OpLines(x + [o]) == OpLines(x) + [[Mark(o.kind)] + o.text]
  {
    if x != [] {
      OpLinesAppend(x[1..], o);
      assert (x + [o])[1..] == x[1..] + [o];
    }
  }

  lemma UnlinesSnoc(lines: seq<string>, line: string)
    ensures Unlines(lines + [line]) == Unlines(lines) + line + "\n"
  {
    UnlinesAppend(lines, [line]);
    assert Unlines([line]) == line + "\n";
  }

  lemma {:induction false} AllHunkLinesAppend(hunks: seq<Hunk>, h: Hunk)
    ensures AllHunkLines(hunks + [h]) == AllHunkLines(hunks) + HunkLines(h)
  {
    if hunks == [] {
      assert hunks + [h] == [h] && [h][1..] == [];
    } else {
      AllHunkLinesAppend(hunks[1..], h);
      assert (hunks + [h])[1..] == hunks[1..] + [h];
      Regroup(HunkLines(hunks[0]), AllHunkLines(hunks[1..]), HunkLines(h));
    }
  }

  lemma {:induction false} HunksOfAppend(ops: seq<Op>, cuts: seq<Cut>, c: Cut)
    requires AllInRange(ops, cuts) && InRange(ops, c)
    ensures AllInRange(ops, cuts + [c])
    ensures HunksOf(ops, cuts + [c]) == HunksOf(ops, cuts) + [HunkOf(ops, c)]
  {
    assert forall x :: x in cuts + [c] ==> x in cuts || x == c;
    if cuts == [] {
      assert cuts + [c] == [c] && [c][1..] == [];
    } else {
      assert cuts[0] in cuts;
      HunksOfAppend(ops, cuts[1..], c);
      assert (cuts + [c])[1..] == cuts[1..] + [c];
    }
  }

  /** The lines of a text, as the loop that strips each piece of its newline leaves them. */
  method StripLines(text: string) returns (a: seq<string>)
    ensures a == Lines(text)
  {
    a := SplitKeep(text);
    for i := 0 to |a|
      invariant |a| == |SplitKeep(text)|
      invariant forall k :: 0 <= k < i ==> a[k] == Lines(text)[k]
      invariant forall k :: i <= k < |a| ==> a[k] == SplitKeep(text)[k]
    {
      a := a[i := TrimNewline(a[i])];
    }
  }

  method UnifiedDiff(path: string, original: string, fixed: string) returns (text: string, ghost cuts: seq<Cut>)
    ensures text == "" <==> SameManifest(original, fixed)
    ensures WellCut(Script(LinesOf(original), LinesOf(fixed)), cuts, |Script(LinesOf(original), LinesOf(fixed))|)
    ensures Printed(text, path, Script(LinesOf(original), LinesOf(fixed)), cuts)
    ensures text != "" ==> "--- a/" + path + "\n+++ b/" + path + "\n" <= text
    ensures '\n' !in path ==> Patch(LinesOf(original), text) == Some(LinesOf(fixed))
  {
    var a := StripLines(Normalised(original));
    var b := StripLines(Normalised(fixed));
    var ops := DiffOps(a, b);
    SameLinesSameText(original, fixed);
    SameLinesSameText(fixed, original);
    NormalisedAlike(original, fixed);
    UnchangedIffEqual(a, b);
    var changed := AnyChange(ops);
    if !changed {
      return "", [];
    }
    text, cuts := PrintHunks(path, ops);
    PrintedNamesThePath(text, path, ops, cuts);
    if '\n' !in path {
      PrintedPatchApplies(path, a, b, ops, cuts);
    }
  }

  method AnyChange(ops: seq<Op>) returns (changed: bool)
    ensures changed <==> !AllKept(ops)
    ensures !changed ==> forall j :: !ChangedAt(ops, j)
  {
    changed := false;
    for k := 0 to |ops|
      invariant changed <==> exists j :: 0 <= j < k && ops[j].kind != Keep
    {
      changed := changed || ops[k].kind != Keep;
    }
  }

  /** text is the two file lines and then the hunks, or nothing if there are none. */
  ghost predicate Printed(text: string, path: string, ops: seq<Op>, cuts: seq<Cut>) {
    AllInRange(ops, cuts) &&
    text == if cuts == [] then "" else Unlines(FileLines(path) + AllHunkLines(HunksOf(ops, cuts)))
  }

  lemma PrintedNamesThePath(text: string, path: string, ops: seq<Op>, cuts: seq<Cut>)
    requires Printed(text, path, ops, cuts) && cuts != []
    ensures "--- a/" + path + "\n+++ b/" + path + "\n" <= text
  {
    UnlinesAppend(FileLines(path), AllHunkLines(HunksOf(ops, cuts)));
    FileLinesPrint(path, "--- a/" + path + "\n+++ b/" + path + "\n");
  }

  method PrintHunks(path: string, ops: seq<Op>) returns (text: string, ghost cuts: seq<Cut>)
    requires !AllKept(ops)
    ensures WellCut(ops, cuts, |ops|) && cuts != [] && Printed(text, path, ops, cuts) && text != ""
  {
    var head := "--- a/" + path + "\n+++ b/" + path + "\n";
    FileLinesPrint(path, head);
    text, cuts := head, [];
    var i := 0;
    while i < |ops|
      invariant i <= |ops| && WellCut(ops, cuts, i)
      invariant cuts == [] || cuts[|cuts| - 1].to == i
      invariant cuts != [] ==> forall j :: i <= j <= i + CONTEXT ==> !ChangedAt(ops, j)
      invariant i < |ops| ==> Quiet(ops, i)
      invariant text == Unlines(FileLines(path) + AllHunkLines(HunksOf(ops, cuts)))
    {
      var next, first, last := NextCut(ops, i);
      if next.None? {
        break;
      }
      var c := next.value;
      var hunk := PrintHunk(ops, c);
      HunkPrints(FileLines(path), ops, cuts, c);
      text := text + hunk;
      CutsGrow(ops, cuts, i, c, first, last);
      cuts := cuts + [c];
      i := c.to;
    }
    var j :| 0 <= j < |ops| && ops[j].kind != Keep;
    assert ChangedAt(ops, j);
    assert Covered(cuts, j);
  }

  method PrintHunk(ops: seq<Op>, c: Cut) returns (text: string)
    requires InRange(ops, c)
    ensures text == Unlines(HunkLines(HunkOf(ops, c)))
  {
    var oldBefore, newBefore := CountSides(ops, 0, c.from);
    var oldLen, newLen := CountSides(ops, c.from, c.to);
    var header := HeaderLine(oldBefore + 1, oldLen, newBefore + 1, newLen);
    var body := PrintOps(ops, c.from, c.to);
    text := header + "\n" + body;
    assert ops[0..c.from] == ops[..c.from];
    UnlinesCons(header, OpLines(ops[c.from..c.to]));
  }

  lemma FileLinesPrint(path: string, head: string)
    requires head == "--- a/" + path + "\n+++ b/" + path + "\n"
    ensures head == Unlines(FileLines(path) + AllHunkLines([]))
  {
    var x, y := "--- a/" + path, "+++ b/" + path;
    UnlinesCons(x, [y]);
    UnlinesCons(y, []);
    assert [x] + [y] == FileLines(path) + [];
    assert head == (x + "\n") + (y + "\n");
  }

  lemma HunkPrints(files: seq<string>, ops: seq<Op>, cuts: seq<Cut>, c: Cut)
    requires AllInRange(ops, cuts) && InRange(ops, c)
    ensures AllInRange(ops, cuts + [c])
    ensures Unlines(files + AllHunkLines(HunksOf(ops, cuts + [c]))) == Unlines(files + AllHunkLines(HunksOf(ops, cuts))) + Unlines(HunkLines(HunkOf(ops, c)))
  {
    HunksOfAppend(ops, cuts, c);
    AllHunkLinesAppend(HunksOf(ops, cuts), HunkOf(ops, c));
    UnlinesAppendThird(files, AllHunkLines(HunksOf(ops, cuts)), HunkLines(HunkOf(ops, c)));
  }

  lemma UnlinesAppendThird(x: seq<string>, y: seq<string>, z: seq<string>)
    ensures Unlines(x + (y + z)) == Unlines(x + y) + Unlines(z)
  {
    UnlinesAppend(x + y, z);
    assert x + (y + z) == (x + y) + z;
  }

  lemma CutsGrow(ops: seq<Op>, cuts: seq<Cut>, i: nat, c: Cut, first: nat, last: nat)
    requires WellCut(ops, cuts, i) && InRange(ops, c) && CutAround(ops, c, first, last) && i <= first
    requires forall j :: i <= j < first ==> !ChangedAt(ops, j)
    requires cuts == [] || cuts[|cuts| - 1].to == i
    requires cuts != [] ==> forall j :: i <= j <= i + CONTEXT ==> !ChangedAt(ops, j)
    ensures WellCut(ops, cuts + [c], c.to)
  {
    var all := cuts + [c];
    if cuts != [] {
      assert first > i + CONTEXT;
    }
    forall j | 0 <= j < c.to && ChangedAt(ops, j)
      ensures Covered(all, j)
    {
      if j < i {
        assert Covered(cuts, j);
        var k :| 0 <= k < |cuts| && cuts[k].from <= j < cuts[k].to;
        assert all[k] == cuts[k];
      } else {
        assert all[|cuts|] == c;
      }
    }
  }

  lemma {:induction false} HunkLinesAreLines(hunks: seq<Hunk>)
    requires forall h, o :: h in hunks && o in h.body ==> '\n' !in o.text
    ensures NoNewlines(AllHunkLines(hunks))
  {
    if hunks != [] {
      var h := hunks[0];
      HunkLinesAreLines(hunks[1..]);
      OpLinesAreLines(h.body);
      HeaderIsALine(h.old_.before + 1, h.old_.len, h.new_.before + 1, h.new_.len);
    }
  }

  lemma {:induction false} HunksAreCounted(ops: seq<Op>, cuts: seq<Cut>)
    requires AllInRange(ops, cuts)
    ensures forall h :: h in HunksOf(ops, cuts) ==> Counted(h) && forall o :: o in h.body ==> o in ops
  {
    if cuts != [] {
      assert cuts[0] in cuts;
      HunksAreCounted(ops, cuts[1..]);
    }
  }

  lemma HeaderIsALine(aStart: nat, aLen: nat, bStart: nat, bLen: nat)
    requires aStart > 0 && bStart > 0
    ensures '\n' !in HeaderLine(aStart, aLen, bStart, bLen)
  {
    hide ReadNat, Decimal;
    assert '\n' !in Rng(aStart, aLen) && '\n' !in Rng(bStart, bLen);
  }

  lemma {:induction false} OpLinesAreLines(ops: seq<Op>)
    requires forall o :: o in ops ==> '\n' !in o.text
    ensures NoNewlines(OpLines(ops))
  {
    if ops != [] {
      assert ops[0] in ops;
      OpLinesAreLines(ops[1..]);
    }
  }

  lemma {:induction false} ScriptTextsAreLines(a: seq<string>, b: seq<string>)
    requires NoNewlines(a) && NoNewlines(b)
    ensures forall o :: o in Script(a, b) ==> '\n' !in o.text
    decreases |a| + |b|
  {
    if a == [] && b == [] {
    } else if a != [] && b != [] {
      ScriptTextsAreLines(a[1..], b[1..]);
      ScriptTextsAreLines(a[1..], b);
      ScriptTextsAreLines(a, b[1..]);
    } else if a != [] {
      ScriptTextsAreLines(a[1..], b);
    } else {
      ScriptTextsAreLines(a, b[1..]);
    }
  }

  lemma FileLinesRead(path: string, hunks: seq<string>)
    requires '\n' !in path && NoNewlines(hunks)
    ensures
      var text := Unlines(FileLines(path) + hunks);
      text != "" && Lines(text) == FileLines(path) + hunks && Lines(text)[2..] == hunks &&
      "--- " <= Lines(text)[0] && "+++ " <= Lines(text)[1]
  {
    var lines := FileLines(path) + hunks;
    assert lines[2..] == hunks;
    LinesOfUnlines(lines);
  }

  /** The printed text, split into lines again and applied to a by its headers, gives b. */
  lemma PrintedPatchApplies(path: string, a: seq<string>, b: seq<string>, ops: seq<Op>, cuts: seq<Cut>)
    requires NoNewlines(a) && NoNewlines(b) && ops == Script(a, b) && '\n' !in path
    requires WellCut(ops, cuts, |ops|) && cuts != []
    ensures Patch(a, Unlines(FileLines(path) + AllHunkLines(HunksOf(ops, cuts)))) == Some(b)
  {
    ScriptEdits(a, b);
    ScriptTextsAreLines(a, b);
    HunksAreCounted(ops, cuts);
    HunkLinesAreLines(HunksOf(ops, cuts));
    HunksRead(HunksOf(ops, cuts));
    FileLinesRead(path, AllHunkLines(HunksOf(ops, cuts)));
    WellCutFrom(ops, cuts, 0);
    assert ops[..0] == [] && cuts[0..] == cuts;
    HunksApply(a, b, ops, cuts, 0);
  }
}
