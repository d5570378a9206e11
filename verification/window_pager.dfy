/** The pager over a command's output (Window in internal/aci/read.go). A character stands for
    a byte. */
module WindowPager {
  import opened Options
  import TextLines

  // ---- Lines ----

  /** strings.Split(s, "\n"). */
  function Split(s: string): (out: seq<string>)
    ensures out != []
  {
    if s == "" then [""]
    else
      var rest := Split(s[1..]);
      if s[0] == '\n' then [""] + rest else [[s[0]] + rest[0]] + rest[1..]
  }

  /** strings.Join(lines, "\n"). */
  function Join(lines: seq<string>): string {
    if lines == [] then "" else if |lines| == 1 then lines[0] else lines[0] + "\n" + Join(lines[1..])
  }

  predicate IsBlank(s: string) {
    forall i :: 0 <= i < |s| ==> s[i] == ' ' || '\t' <= s[i] <= '\r'
  }

  function LinesOf(body: string): seq<string> {
    if IsBlank(body) then [] else Split(TextLines.TrimNewlines(body))
  }

  lemma {:induction false} SplitJoins(s: string)
    ensures Join(Split(s)) == s
  {
    if s != "" {
      var rest := Split(s[1..]);
      SplitJoins(s[1..]);
      assert [s[0]] + s[1..] == s;
      if s[0] == '\n' {
        JoinConcat([""], rest);
        assert "" + "\n" + s[1..] == s;
      } else {
        JoinFront(s[0], rest);
      }
    }
  }

  lemma JoinFront(c: char, lines: seq<string>)
    requires lines != []
    ensures Join([[c] + lines[0]] + lines[1..]) == [c] + Join(lines)
  {
    if |lines| > 1 {
      JoinConcat([[c] + lines[0]], lines[1..]);
      JoinConcat([lines[0]], lines[1..]);
      assert [lines[0]] + lines[1..] == lines;
      assert [c] + lines[0] + "\n" + Join(lines[1..]) == [c] + (lines[0] + "\n" + Join(lines[1..]));
    }
  }

  lemma {:induction false} JoinConcat(a: seq<string>, b: seq<string>)
    requires a != [] && b != []
    ensures Join(a + b) == Join(a) + "\n" + Join(b)
    decreases |a|
  {
    if |a| == 1 {
      assert (a + b)[1..] == b;
    } else {
      assert (a + b)[1..] == a[1..] + b;
      JoinConcat(a[1..], b);
      assert a[0] + "\n" + (Join(a[1..]) + "\n" + Join(b)) == a[0] + "\n" + Join(a[1..]) + "\n" + Join(b);
    }
  }

  lemma {:induction false} JoinGrows(lines: seq<string>, n: nat)
    requires n <= |lines|
    ensures |Join(lines[..n])| <= |Join(lines)|
  {
    if n == 0 {
    } else if n == |lines| {
      assert lines[..n] == lines;
    } else {
      JoinConcat(lines[..n], lines[n..]);
      assert lines[..n] + lines[n..] == lines;
    }
  }

  // ---- One page ----

  datatype Page = Page(text: string, total: nat, shown: nat, next: Option<nat>)

  /** Without the last lines that do not fit. */
  function Fitting(take: seq<string>, maxChars: nat): (kept: seq<string>)
    ensures kept <= take
  {
    if take != [] && |Join(take)| > maxChars then Fitting(take[..|take| - 1], maxChars) else take
  }

  function Least(a: int, b: int): int { if a <= b then a else b }

  /** The page of some lines that starts at an offset within them. */
  function PageAt(lines: seq<string>, maxLines: nat, maxChars: nat, offset: nat): Page
    requires offset <= |lines|
  {
    var end := Least(offset + maxLines, |lines|);
    var kept := Fitting(lines[offset..end], maxChars);
    var more := offset + |kept| < |lines|;
    if more && kept == [] then Page(lines[offset][..Least(|lines[offset]|, maxChars)], |lines|, 1, None)
    else Page(Join(kept), |lines|, |kept|, if more then Some(offset + |kept|) else None)
  }

  /** An offset past the end is the end. */
  function WindowOf(body: string, maxLines: nat, maxChars: nat, offset: nat): Page {
    PageAt(LinesOf(body), maxLines, maxChars, Least(offset, |LinesOf(body)|))
  }

  method Window(body: string, maxLines: nat, maxChars: nat, offset0: nat) returns (p: Page)
    ensures p == WindowOf(body, maxLines, maxChars, offset0)
  {
    hide Split;
    var lines := Split(TextLines.TrimNewlines(body));
    if IsBlank(body) {
      lines := [];
    }
    var total, offset := |lines|, offset0;
    if offset > total {
      offset := total;
    }
    var end := offset + maxLines;
    if end > total {
      end := total;
    }
    var take := lines[offset..end];
    var truncated := end < total;
    if |Join(take)| > maxChars {
      ShrinkingDrops(take, maxChars);
      take := Shrink(take, maxChars);
      truncated := true;
    }
    assert take == Fitting(lines[offset..end], maxChars) && (truncated <==> offset + |take| < total);
    hide Fitting, Join;
    p := Finish(lines, offset, take, truncated, maxChars);
    assert p == PageAt(lines, maxLines, maxChars, offset);
  }

  /** The page of the lines that were kept. */
  method Finish(lines: seq<string>, offset: nat, take: seq<string>, truncated: bool, maxChars: nat) returns (p: Page)
    requires offset + |take| <= |lines| && (truncated <==> offset + |take| < |lines|)
    ensures p == if truncated && take == [] then Page(lines[offset][..Least(|lines[offset]|, maxChars)], |lines|, 1, None)
                 else Page(Join(take), |lines|, |take|, if truncated then Some(offset + |take|) else None)
  {
    var shown, text := |take|, Join(take);
    var next: Option<nat> := None;
    if truncated && shown > 0 {
      next := Some(offset + shown);
    }
    if truncated && shown == 0 && offset < |lines| {
      var first := lines[offset];
      if |first| > maxChars {
        first := first[..maxChars];
      }
      assert lines[offset][..|lines[offset]|] == lines[offset];
      return Page(first, |lines|, 1, None);
    }
    return Page(text, |lines|, shown, next);
  }

  method Shrink(take0: seq<string>, maxChars: nat) returns (take: seq<string>)
    ensures take == Fitting(take0, maxChars)
  {
    take := take0;
    while |take| > 0 && |Join(take)| > maxChars
      invariant Fitting(take, maxChars) == Fitting(take0, maxChars)
      decreases |take|
    {
      take := take[..|take| - 1];
    }
  }

  lemma {:induction false} ShrinkingDrops(take: seq<string>, maxChars: nat)
    requires take != [] && |Join(take)| > maxChars
    ensures |Fitting(take, maxChars)| < |take|
  {
  }

  /** What is kept fits, and one more line would not. */
  lemma {:induction false} FittingIsLongest(take: seq<string>, maxChars: nat)
    ensures var n := |Fitting(take, maxChars)|;
            |Join(take[..n])| <= maxChars && Fitting(take, maxChars) == take[..n] && (n < |take| ==> |Join(take[..n + 1])| > maxChars)
  {
    if take != [] && |Join(take)| > maxChars {
      var front := take[..|take| - 1];
      FittingIsLongest(front, maxChars);
      var n := |Fitting(front, maxChars)|;
      assert front[..n] == take[..n];
      if n < |front| {
        assert front[..n + 1] == take[..n + 1];
      } else {
        assert take[..n + 1] == take;
      }
    } else {
      assert take[..|take|] == take;
    }
  }

  /** A page has at most maxLines lines, or the one it cuts, and at most maxChars characters;
      unless it cuts a line it is the longest such run of whole lines from the offset. */
  lemma PageIsLongest(lines: seq<string>, maxLines: nat, maxChars: nat, offset: nat)
    requires offset < |lines|
    ensures var p := PageAt(lines, maxLines, maxChars, offset);
            |p.text| <= maxChars && 1 <= p.shown <= (if maxLines > 1 then maxLines else 1) && offset + p.shown <= |lines| &&
            (maxLines > 0 && |lines[offset]| <= maxChars ==>
               p.text == Join(lines[offset..offset + p.shown]) &&
               (p.shown < maxLines && offset + p.shown < |lines| ==> |Join(lines[offset..offset + p.shown + 1])| > maxChars))
  {
    var end := Least(offset + maxLines, |lines|);
    var take := lines[offset..end];
    FittingIsLongest(take, maxChars);
    var n := |Fitting(take, maxChars)|;
    SliceOfSlice(lines, offset, end, n);
    if n < |take| {
      SliceOfSlice(lines, offset, end, n + 1);
    }
    if maxLines > 0 {
      FirstLine(take, lines[offset]);
    }
  }

  lemma SliceOfSlice(lines: seq<string>, i: nat, j: nat, n: nat)
    requires i + n <= j <= |lines|
    ensures lines[i..j][..n] == lines[i..i + n]
  {
  }

  lemma FirstLine(take: seq<string>, line: string)
    requires take != [] && take[0] == line
    ensures Join(take[..1]) == line
  {
    assert take[..1] == [line];
  }

  /** The cursor is given exactly if lines are left and the page did not cut the first of
      its lines; it is then where the page ends, further on. */
  lemma CursorMovesOn(lines: seq<string>, maxLines: nat, maxChars: nat, offset: nat)
    requires offset < |lines|
    ensures var p := PageAt(lines, maxLines, maxChars, offset);
            (p.next != None <==> maxLines > 0 && |lines[offset]| <= maxChars && offset + p.shown < |lines|) &&
            (p.next != None ==> p.next.value == offset + p.shown && offset < p.next.value < |lines|)
  {
    var end := Least(offset + maxLines, |lines|);
    var take := lines[offset..end];
    FittingIsLongest(take, maxChars);
    if maxLines > 0 {
      var n := |Fitting(take, maxChars)|;
      if n == 0 {
        assert take[..1] == [lines[offset]];
      } else {
        assert take[..n][..1] == [lines[offset]];
        JoinGrows(take[..n], 1);
      }
    }
  }

  // ---- All pages ----

  /** What following the cursor gives: the texts of all pages, a newline between them, the
      number of lines they show, and the last of them. */
  datatype Reading = Reading(text: string, shown: nat, last: string)

  function Then(p: Page, r: Reading): Reading {
    Reading(p.text + "\n" + r.text, p.shown + r.shown, r.last)
  }

  type Pager = nat -> Page

  /** The pages of one output, by their offset. */
  function PagerOf(lines: seq<string>, maxLines: nat, maxChars: nat): Pager {
    (offset: nat) => PageAt(lines, maxLines, maxChars, Least(offset, |lines|))
  }

  /** A client that asks for the cursor it was given, as long as that moves on. */
  function Follow(page: Pager, total: nat, offset: nat): Reading
    decreases total - offset
  {
    var p := page(offset);
    if p.next != None && offset < p.next.value < total then Then(p, Follow(page, total, p.next.value)) else Reading(p.text, p.shown, p.text)
  }

  ghost predicate AllFit(lines: seq<string>, offset: nat, maxChars: nat) {
    forall i :: offset <= i < |lines| ==> |lines[i]| <= maxChars
  }

  /** What a page and its cursor come to. */
  ghost predicate Starts(lines: seq<string>, maxChars: nat, offset: nat, p: Page)
    requires offset < |lines|
  {
    p.shown >= 1 && offset + p.shown <= |lines| && |p.text| <= maxChars && (p.next != None ==> p.next == Some(offset + p.shown) && offset + p.shown < |lines|) &&
    if |lines[offset]| <= maxChars
    then p.text == Join(lines[offset..offset + p.shown]) && (p.next == None ==> offset + p.shown == |lines|)
    else p == Page(lines[offset][..maxChars], |lines|, 1, None)
  }

  ghost predicate Serves(page: Pager, lines: seq<string>, maxChars: nat) {
    forall offset: nat :: offset < |lines| ==> Starts(lines, maxChars, offset, page(offset))
  }

  lemma PagerServes(lines: seq<string>, maxLines: nat, maxChars: nat)
    requires maxLines > 0
    ensures Serves(PagerOf(lines, maxLines, maxChars), lines, maxChars)
  {
    forall offset: nat | offset < |lines|
      ensures Starts(lines, maxChars, offset, PagerOf(lines, maxLines, maxChars)(offset))
    {
      CursorMovesOn(lines, maxLines, maxChars, offset);
      PageIsLongest(lines, maxLines, maxChars, offset);
      if |lines[offset]| > maxChars {
        CutPage(lines, maxLines, maxChars, offset);
      }
    }
  }

  lemma JoinAt(lines: seq<string>, i: nat, n: nat)
    requires i < n < |lines|
    ensures Join(lines[i..]) == Join(lines[i..n]) + "\n" + Join(lines[n..])
  {
    JoinConcat(lines[i..n], lines[n..]);
    assert lines[i..n] + lines[n..] == lines[i..];
  }

  /** Line i is the first from the offset on that does not fit. */
  ghost predicate LongAt(lines: seq<string>, offset: nat, i: nat, maxChars: nat) {
    offset <= i < |lines| && |lines[i]| > maxChars && ShortTo(lines, offset, i, maxChars)
  }

  ghost predicate ShortTo(lines: seq<string>, offset: nat, i: nat, maxChars: nat)
    requires i <= |lines|
  {
    forall j :: offset <= j < i ==> |lines[j]| <= maxChars
  }

  lemma ReadOn(lines: seq<string>, maxChars: nat, offset: nat, p: Page, rest: Reading)
    requires offset < |lines| && Starts(lines, maxChars, offset, p) && p.next != None
    ensures var n := offset + p.shown;
            (rest.text == Join(lines[n..]) ==> Then(p, rest).text == Join(lines[offset..])) &&
            (|rest.text| < |Join(lines[n..])| ==> |Then(p, rest).text| < |Join(lines[offset..])|)
  {
    JoinAt(lines, offset, offset + p.shown);
  }

  /** With lines that fit, the pages are all lines, once each and in order. */
  lemma {:induction false} PagesAreAllLines(page: Pager, lines: seq<string>, maxChars: nat, offset: nat)
    requires offset < |lines| && Serves(page, lines, maxChars) && AllFit(lines, offset, maxChars)
    ensures var r := Follow(page, |lines|, offset); r.text == Join(lines[offset..]) && r.shown == |lines| - offset
    decreases |lines| - offset
  {
    hide Join;
    var p := page(offset);
    var n := offset + p.shown;
    if p.next == None {
      assert lines[offset..n] == lines[offset..];
    } else {
      PagesAreAllLines(page, lines, maxChars, n);
      ReadOn(lines, maxChars, offset, p, Follow(page, |lines|, n));
    }
  }

  /** The reading ends at line i, which it cuts. */
  ghost predicate EndsAt(r: Reading, lines: seq<string>, offset: nat, i: nat, maxChars: nat)
    requires offset <= i < |lines| && |lines[i]| > maxChars
  {
    r.shown == i - offset + 1 && r.last == lines[i][..maxChars] && |r.text| < |Join(lines[offset..])|
  }

  /** A line that does not fit is cut, and ends the pages: nothing after it is ever shown, and
      their text is shorter than that of the lines. */
  lemma {:induction false} LongLineEndsPages(page: Pager, lines: seq<string>, maxChars: nat, offset: nat, i: nat)
    requires Serves(page, lines, maxChars) && LongAt(lines, offset, i, maxChars)
    ensures EndsAt(Follow(page, |lines|, offset), lines, offset, i, maxChars)
    decreases |lines| - offset
  {
    var p := page(offset);
    if offset == i {
      JoinHolds(lines[i..], 0);
      assert lines[i..][0] == lines[i];
    } else {
      PageStopsBefore(lines, maxChars, offset, i, p);
      var n := offset + p.shown;
      LongLineEndsPages(page, lines, maxChars, n, i);
      ReadOn(lines, maxChars, offset, p, Follow(page, |lines|, n));
    }
  }

  lemma {:induction false} LongFirstFitsNothing(take: seq<string>, maxChars: nat)
    requires take != [] ==> |take[0]| > maxChars
    ensures Fitting(take, maxChars) == []
  {
    if take != [] {
      JoinHolds(take, 0);
      LongFirstFitsNothing(take[..|take| - 1], maxChars);
    }
  }

  lemma CutPage(lines: seq<string>, maxLines: nat, maxChars: nat, offset: nat)
    requires offset < |lines| && |lines[offset]| > maxChars
    ensures PageAt(lines, maxLines, maxChars, offset) == Page(lines[offset][..maxChars], |lines|, 1, None)
  {
    LongFirstFitsNothing(lines[offset..Least(offset + maxLines, |lines|)], maxChars);
  }

  lemma PageStopsBefore(lines: seq<string>, maxChars: nat, offset: nat, i: nat, p: Page)
    requires offset < i < |lines| && |lines[i]| > maxChars && |lines[offset]| <= maxChars
    requires Starts(lines, maxChars, offset, p)
    ensures offset + p.shown <= i && p.next == Some(offset + p.shown)
  {
    var n := offset + p.shown;
    if n > i {
      JoinHolds(lines[offset..n], i - offset);
    }
  }

  lemma {:induction false} JoinHolds(lines: seq<string>, i: nat)
    requires i < |lines|
    ensures |Join(lines)| >= |lines[i]|
  {
    if |lines| > 1 && i > 0 {
      JoinHolds(lines[1..], i - 1);
    }
  }

  /** The pages of an output show all of it, whole, if and only if each of its lines fits. */
  lemma PagesShowAll(body: string, maxLines: nat, maxChars: nat)
    requires !IsBlank(body) && maxLines > 0
    ensures var lines := LinesOf(body); var r := Follow(PagerOf(lines, maxLines, maxChars), |lines|, 0);
            r.text == TextLines.TrimNewlines(body) && r.shown == |lines| <==> AllFit(lines, 0, maxChars)
  {
    var lines := LinesOf(body);
    var page := PagerOf(lines, maxLines, maxChars);
    PagerServes(lines, maxLines, maxChars);
    SplitJoins(TextLines.TrimNewlines(body));
    assert lines[0..] == lines;
    if AllFit(lines, 0, maxChars) {
      PagesAreAllLines(page, lines, maxChars, 0);
    } else {
      var i := FirstLong(lines, maxChars, 0);
      LongLineEndsPages(page, lines, maxChars, 0, i);
    }
  }

  lemma FirstLong(lines: seq<string>, maxChars: nat, from: nat) returns (i: nat)
    requires from <= |lines| && !AllFit(lines, from, maxChars)
    ensures LongAt(lines, from, i, maxChars)
    decreases |lines| - from
  {
    if |lines[from]| > maxChars {
      i := from;
    } else {
      i := FirstLong(lines, maxChars, from + 1);
    }
  }
}
