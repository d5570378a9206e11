/** When a pattern fires: the engine looks for a match anywhere in the observed value
    (MatchString in internal/detect/models.go), with zero-width assertions at their places. */
module PatternFiring {
  import opened Options
  import opened RegexSamples

  predicate IsWord(s: string, i: int) {
    0 <= i < |s| && ('0' <= s[i] <= '9' || 'A' <= s[i] <= 'Z' || 'a' <= s[i] <= 'z' || s[i] == '_')
  }

  predicate Holds(at: Place, s: string, i: nat)
    requires i <= |s|
  {
    match at
    case Anywhere => true
    case BeginText => i == 0
    case EndText => i == |s|
    case BeginLine => i == 0 || s[i - 1] == '\n'
    case EndLine => i == |s| || s[i] == '\n'
    case WordBoundary => IsWord(s, i - 1) != IsWord(s, i)
    case NoWordBoundary => IsWord(s, i - 1) == IsWord(s, i)
  }

  /** The node matches s from i to j. */
  ghost predicate MatchAt(n: Regex, s: string, i: nat, j: nat)
    requires i <= j <= |s|
    decreases n, 2, 0
  {
    match n
    case Anchor(at) => i == j && Holds(at, s, i)
    case Literal(runes) => s[i..j] == runes
    case AnyChar(newline) => j == i + 1 && (newline || s[i] != '\n')
    case CharClass(ranges) => j == i + 1 && exists r :: 0 <= r < |ranges| && ranges[r].0 <= s[i] <= ranges[r].1
    case Capture(sub) => MatchAt(sub, s, i, j)
    case Alternate(subs) => exists r :: 0 <= r < |subs| && MatchAt(subs[r], s, i, j)
    case Concat(subs) => MatchConcat(subs, s, i, j)
    case NoMatch => false
    case _ => exists k: nat :: Within(n, k) && MatchPower(n.sub, k, s, i, j)
  }

  ghost predicate MatchPower(n: Regex, k: nat, s: string, i: nat, j: nat)
    requires i <= j <= |s|
    decreases n, 3, k
  {
    if k == 0 then i == j else exists m: nat :: i <= m <= j && MatchAt(n, s, i, m) && MatchPower(n, k - 1, s, m, j)
  }

  ghost predicate MatchConcat(subs: seq<Regex>, s: string, i: nat, j: nat)
    requires i <= j <= |s|
    decreases subs, 1, 0
  {
    if subs == [] then i == j else exists m: nat :: i <= m <= j && MatchAt(subs[0], s, i, m) && MatchConcat(subs[1..], s, m, j)
  }

  ghost predicate Fires(n: Regex, value: string) {
    exists i: nat, j: nat :: i <= j <= |value| && MatchAt(n, value, i, j)
  }

  /** Nothing is asserted of any place. */
  ghost predicate Unanchored(n: Regex)
    decreases n
  {
    match n
    case Anchor(at) => at == Anywhere
    case Capture(sub) => Unanchored(sub)
    case Alternate(subs) => forall s :: s in subs ==> Unanchored(s)
    case Concat(subs) => forall s :: s in subs ==> Unanchored(s)
    case Star(sub) => Unanchored(sub)
    case Plus(sub) => Unanchored(sub)
    case Quest(sub) => Unanchored(sub)
    case Repeat(sub, _, _) => Unanchored(sub)
    case _ => true
  }

  // ---- Matches and words ----

  /** What a node matches is a word of it. */
  lemma {:induction false} MatchIsWord(n: Regex, s: string, i: nat, j: nat)
    requires i <= j <= |s| && MatchAt(n, s, i, j)
    ensures InLang(n, s[i..j])
    decreases n, 2, 0
  {
    match n
    case Anchor(_) =>
    case Literal(_) =>
    case AnyChar(_) =>
    case CharClass(_) =>
    case Capture(sub) => MatchIsWord(sub, s, i, j);
    case Alternate(subs) =>
      var r :| 0 <= r < |subs| && MatchAt(subs[r], s, i, j);
      MatchIsWord(subs[r], s, i, j);
    case Concat(subs) => ConcatIsWord(subs, s, i, j);
    case NoMatch =>
    case _ =>
      var k: nat :| Within(n, k) && MatchPower(n.sub, k, s, i, j);
      PowerIsWord(n.sub, k, s, i, j);
  }

  lemma {:induction false} PowerIsWord(n: Regex, k: nat, s: string, i: nat, j: nat)
    requires i <= j <= |s| && MatchPower(n, k, s, i, j)
    ensures InPower(n, k, s[i..j])
    decreases n, 3, k
  {
    if k > 0 {
      var m: nat :| i <= m <= j && MatchAt(n, s, i, m) && MatchPower(n, k - 1, s, m, j);
      MatchIsWord(n, s, i, m);
      PowerIsWord(n, k - 1, s, m, j);
      CutsApart(s, i, m, j);
    }
  }

  lemma {:induction false} ConcatIsWord(subs: seq<Regex>, s: string, i: nat, j: nat)
    requires i <= j <= |s| && MatchConcat(subs, s, i, j)
    ensures InConcat(subs, s[i..j])
    decreases subs, 1, 0
  {
    if subs != [] {
      var m: nat :| i <= m <= j && MatchAt(subs[0], s, i, m) && MatchConcat(subs[1..], s, m, j);
      MatchIsWord(subs[0], s, i, m);
      ConcatIsWord(subs[1..], s, m, j);
      CutsApart(s, i, m, j);
    }
  }

  lemma CutsApart(s: string, i: nat, m: nat, j: nat)
    requires i <= m <= j <= |s|
    ensures s[i..j][..m - i] == s[i..m] && s[i..j][m - i..] == s[m..j]
  {
  }

  /** Without anchors, a word is matched wherever it stands. */
  lemma {:induction false} WordIsMatched(n: Regex, s: string, i: nat, j: nat)
    requires i <= j <= |s| && Unanchored(n) && InLang(n, s[i..j])
    ensures MatchAt(n, s, i, j)
    decreases n, 2, 0
  {
    match n
    case Anchor(_) =>
    case Literal(_) =>
    case AnyChar(_) =>
    case CharClass(_) =>
    case Capture(sub) => WordIsMatched(sub, s, i, j);
    case Alternate(subs) =>
      var r :| 0 <= r < |subs| && InLang(subs[r], s[i..j]);
      WordIsMatched(subs[r], s, i, j);
    case Concat(subs) => ConcatIsMatched(subs, s, i, j);
    case NoMatch =>
    case _ =>
      var k: nat :| Within(n, k) && InPower(n.sub, k, s[i..j]);
      PowerIsMatched(n.sub, k, s, i, j);
  }

  lemma {:induction false} PowerIsMatched(n: Regex, k: nat, s: string, i: nat, j: nat)
    requires i <= j <= |s| && Unanchored(n) && InPower(n, k, s[i..j])
    ensures MatchPower(n, k, s, i, j)
    decreases n, 3, k
  {
    if k > 0 {
      var c :| 0 <= c <= j - i && InLang(n, s[i..j][..c]) && InPower(n, k - 1, s[i..j][c..]);
      CutsApart(s, i, i + c, j);
      WordIsMatched(n, s, i, i + c);
      PowerIsMatched(n, k - 1, s, i + c, j);
    }
  }

  lemma {:induction false} ConcatIsMatched(subs: seq<Regex>, s: string, i: nat, j: nat)
    requires i <= j <= |s| && (forall n :: n in subs ==> Unanchored(n)) && InConcat(subs, s[i..j])
    ensures MatchConcat(subs, s, i, j)
    decreases subs, 1, 0
  {
    if subs != [] {
      var c :| 0 <= c <= j - i && InLang(subs[0], s[i..j][..c]) && InConcat(subs[1..], s[i..j][c..]);
      CutsApart(s, i, i + c, j);
      WordIsMatched(subs[0], s, i, i + c);
      ConcatIsMatched(subs[1..], s, i + c, j);
    }
  }

  // ---- What the liveness check should ask ----

  /** Some legal value makes the pattern fire. */
  ghost predicate CanFire(f: Field, n: Regex) {
    exists value :: Legal(f, value) && Fires(n, value)
  }

  /** A word that a legal value can contain. */
  predicate Fitting(f: Field, w: string) { w == "" || Legal(f, w) }

  lemma PartsOfLegalFit(f: Field, value: string, i: nat, j: nat)
    requires Legal(f, value) && i <= j <= |value|
    ensures Fitting(f, value[i..j])
  {
    forall k | 0 <= k < j - i
      ensures LegalChar(f, value[i..j][k])
    {
      assert value[i..j][k] == value[i + k];
    }
  }

  /** A pattern that can fire has a fitting word; and if it has no anchors, one that has a
      fitting word can fire. */
  lemma FiringIsFitting(f: Field, n: Regex)
    ensures CanFire(f, n) ==> exists w :: InLang(n, w) && Fitting(f, w)
    ensures Unanchored(n) && (exists w :: InLang(n, w) && Fitting(f, w)) ==> CanFire(f, n)
  {
    hide InLang, MatchAt;
    if value, i: nat, j: nat :| Legal(f, value) && i <= j <= |value| && MatchAt(n, value, i, j) {
      MatchIsWord(n, value, i, j);
      PartsOfLegalFit(f, value, i, j);
    }
    if w :| Unanchored(n) && InLang(n, w) && Fitting(f, w) {
      var value := if w == "" then "x" else w;
      assert value[0..|w|] == w;
      WordIsMatched(n, value, 0, |w|);
      assert Legal(f, value) && Fires(n, value);
    }
  }

  /** The check's message, that the pattern can never fire, is right of a finite pattern
      without anchors if and only if all of its samples are illegal and none is empty. The
      check is content with one illegal sample. */
  lemma MessageIsRightIff(f: Field, n: Regex)
    requires Finite(n) && Parsed(n) && Expand(n).Some? && Unanchored(n)
    ensures !CanFire(f, n) <==> forall w :: w in Expand(n).value ==> !Fitting(f, w)
  {
    FiringIsFitting(f, n);
    FiniteExpandsExactly(n);
    forall w | w in Expand(n).value && Fitting(f, w)
      ensures CanFire(f, n)
    {
      assert InLang(n, w);
    }
    if CanFire(f, n) {
      var w :| InLang(n, w) && Fitting(f, w);
      assert w in Expand(n).value;
    }
  }

  /** Between anchors at both ends, the pattern has to match the whole value, and the message
      is right if and only if all of its samples are illegal. */
  lemma AnchoredMessageIsRightIff(f: Field, n: Regex)
    requires Finite(n) && Parsed(n) && Expand(n).Some? && Unanchored(n)
    ensures !CanFire(f, Concat([Anchor(BeginText), n, Anchor(EndText)])) <==> forall w :: w in Expand(n).value ==> !Legal(f, w)
  {
    FiniteExpandsExactly(n);
    forall value
      ensures Fires(Concat([Anchor(BeginText), n, Anchor(EndText)]), value) <==> InLang(n, value)
    {
      WholeMatch(n, value);
    }
  }

  /** An anchor at the start alone, or at the end alone, changes nothing: the message is right
      if and only if all samples are illegal and none is empty. */
  lemma OneAnchorMessageIsRightIff(f: Field, n: Regex)
    requires Finite(n) && Parsed(n) && Expand(n).Some? && Unanchored(n)
    ensures !CanFire(f, Concat([Anchor(BeginText), n])) <==> forall w :: w in Expand(n).value ==> !Fitting(f, w)
    ensures !CanFire(f, Concat([n, Anchor(EndText)])) <==> forall w :: w in Expand(n).value ==> !Fitting(f, w)
  {
    hide CanFire, InLang, Fitting;
    FiniteExpandsExactly(n);
    assert HasFitting(f, n) <==> exists w :: w in Expand(n).value && Fitting(f, w) by {
      if w :| w in Expand(n).value && Fitting(f, w) {
        assert InLang(n, w);
      }
    }
    FromStartFits(f, n);
    ToEndFits(f, n);
  }

  /** Some word of the pattern fits. */
  ghost predicate HasFitting(f: Field, n: Regex) {
    exists w :: InLang(n, w) && Fitting(f, w)
  }

  lemma FromStartFits(f: Field, n: Regex)
    requires Unanchored(n)
    ensures CanFire(f, Concat([Anchor(BeginText), n])) <==> HasFitting(f, n)
  {
    hide InLang;
    var all := Concat([Anchor(BeginText), n]);
    if value, i: nat, j: nat :| Legal(f, value) && i <= j <= |value| && MatchAt(all, value, i, j) {
      StartThenNode(n, value, i, j);
      MatchIsWord(n, value, i, j);
      PartsOfLegalFit(f, value, i, j);
    }
    if w :| InLang(n, w) && Fitting(f, w) {
      var value := if w == "" then "x" else w;
      assert value[0..|w|] == w;
      WordIsMatched(n, value, 0, |w|);
      StartThenNode(n, value, 0, |w|);
      assert Legal(f, value) && Fires(all, value);
    }
  }

  /** Where the first part of a concatenation ends. */
  lemma FirstEnds(subs: seq<Regex>, s: string, i: nat, j: nat) returns (m: nat)
    requires i <= j <= |s| && subs != [] && MatchConcat(subs, s, i, j)
    ensures i <= m <= j && MatchAt(subs[0], s, i, m) && MatchConcat(subs[1..], s, m, j)
  {
    m :| i <= m <= j && MatchAt(subs[0], s, i, m) && MatchConcat(subs[1..], s, m, j);
  }

  lemma StartThenNode(n: Regex, value: string, i: nat, j: nat)
    requires i <= j <= |value|
    ensures MatchAt(Concat([Anchor(BeginText), n]), value, i, j) <==> i == 0 && MatchAt(n, value, i, j)
  {
    var a := Anchor(BeginText);
    var subs := [a, n];
    assert subs[0] == a && subs[1..] == [n];
    NodeAlone(n, value, i, j);
    if MatchConcat(subs, value, i, j) {
      var m := FirstEnds(subs, value, i, j);
    }
    if i == 0 && MatchAt(n, value, i, j) {
      assert MatchAt(subs[0], value, i, i) && MatchConcat(subs[1..], value, i, j);
    }
  }

  lemma NodeAlone(n: Regex, value: string, i: nat, j: nat)
    requires i <= j <= |value|
    ensures MatchConcat([n], value, i, j) <==> MatchAt(n, value, i, j)
  {
    var subs := [n];
    assert subs[0] == n && subs[1..] == [];
    if MatchConcat(subs, value, i, j) {
      var m := FirstEnds(subs, value, i, j);
    }
    if MatchAt(n, value, i, j) {
      assert MatchConcat(subs[1..], value, j, j);
    }
  }

  lemma ToEndFits(f: Field, n: Regex)
    requires Unanchored(n)
    ensures CanFire(f, Concat([n, Anchor(EndText)])) <==> HasFitting(f, n)
  {
    hide InLang;
    var all := Concat([n, Anchor(EndText)]);
    if value, i: nat, j: nat :| Legal(f, value) && i <= j <= |value| && MatchAt(all, value, i, j) {
      NodeThenEnd(n, value, i, j);
      MatchIsWord(n, value, i, j);
      PartsOfLegalFit(f, value, i, j);
    }
    if w :| InLang(n, w) && Fitting(f, w) {
      var value := if w == "" then "x" else w;
      var i := |value| - |w|;
      assert value[i..|value|] == w;
      WordIsMatched(n, value, i, |value|);
      NodeThenEnd(n, value, i, |value|);
      assert MatchAt(all, value, i, |value|);
      assert Legal(f, value) && Fires(all, value);
    }
  }

  lemma WholeMatch(n: Regex, value: string)
    requires Unanchored(n)
    ensures Fires(Concat([Anchor(BeginText), n, Anchor(EndText)]), value) <==> InLang(n, value)
  {
    hide InLang;
    var a, b := Anchor(BeginText), Anchor(EndText);
    var all := Concat([a, n, b]);
    assert value[0..|value|] == value;
    assert [a, n, b][1..] == [n, b];
    if i: nat, j: nat :| i <= j <= |value| && MatchAt(all, value, i, j) {
      assert MatchConcat([a, n, b], value, i, j);
      var m: nat :| i <= m <= j && MatchAt(a, value, i, m) && MatchConcat([a, n, b][1..], value, m, j);
      NodeThenEnd(n, value, m, j);
      MatchIsWord(n, value, m, j);
    }
    if InLang(n, value) {
      WordIsMatched(n, value, 0, |value|);
      NodeThenEnd(n, value, 0, |value|);
      assert MatchAt(a, value, 0, 0) && MatchConcat([a, n, b][1..], value, 0, |value|);
      assert MatchConcat([a, n, b], value, 0, |value|);
      assert MatchAt(all, value, 0, |value|);
    }
  }

  lemma NodeThenEnd(n: Regex, value: string, i: nat, j: nat)
    requires i <= j <= |value|
    ensures MatchConcat([n, Anchor(EndText)], value, i, j) <==> MatchAt(n, value, i, j) && j == |value|
  {
    var b := Anchor(EndText);
    assert [n, b][1..] == [b] && [b][1..] == [];
    if m: nat :| i <= m <= j && MatchAt(n, value, i, m) && MatchConcat([b], value, m, j) {
      AtTheEnd(value, m, j);
    }
    if MatchAt(n, value, i, j) && j == |value| {
      AtTheEnd(value, j, j);
    }
  }

  lemma AtTheEnd(value: string, m: nat, j: nat)
    requires m <= j <= |value|
    ensures MatchConcat([Anchor(EndText)], value, m, j) <==> m == j == |value|
  {
    var b := Anchor(EndText);
    var none: seq<Regex> := [];
    assert [b][1..] == none;
    if m == j == |value| {
      assert MatchAt(b, value, j, j) && MatchConcat(none, value, j, j);
    }
  }

  /** Whatever its anchors, a pattern with only illegal, non-empty samples cannot fire. */
  lemma AllIllegalIsDead(f: Field, n: Regex)
    requires Finite(n) && Parsed(n) && Expand(n).Some? && forall w :: w in Expand(n).value ==> !Fitting(f, w)
    ensures !CanFire(f, n)
  {
    FiringIsFitting(f, n);
    FiniteExpandsExactly(n);
  }

  /** An operand that may be left out always brings the empty sample, which is not legal. So
      every such pattern that expands is called dead, although it matches at every place of
      every value. */
  lemma OptionalIsFlaggedAndFires(f: Field, n: Regex, value: string)
    requires Repeats(n) && Lo(n) == 0 && Expand(n).Some?
    ensures Flagged(f, Some(n)) && Fires(n, value)
  {
    assert Expand(n).value[0] == "" && !Legal(f, "");
    assert Within(n, 0) && MatchPower(n.sub, 0, value, 0, 0);
    assert MatchAt(n, value, 0, 0);
  }

  /** Of an infinite pattern the samples do not decide: the two ends of a class may both be
      illegal with a legal character between them. */
  lemma ClassEndsMayMislead(f: Field, lo: char, hi: char, c: char)
    requires lo <= c <= hi && LegalChar(f, c) && !LegalChar(f, lo) && !LegalChar(f, hi)
    ensures var n := CharClass([(lo, hi)]);
            Parsed(n) && Expand(n).Some? && (forall w :: w in Expand(n).value ==> !Fitting(f, w)) && Fires(n, [c]) && Legal(f, [c])
  {
    var ranges := [(lo, hi)];
    var n := CharClass(ranges);
    assert ranges[1..] == [];
    assert ClassSamples(ranges) == [[lo], [hi]] + [];
    assert [lo][0] == lo && [hi][0] == hi;
    assert ranges[0].0 <= [c][0] <= ranges[0].1;
    assert MatchAt(n, [c], 0, 1);
  }
}
