/** Expanding a regular expression into samples (EnumerateSamples and its liveness check in
    internal/detect/shape.go), from the syntax tree on. */
module RegexSamples {
  import opened Options

  const SAMPLE_CAP := 500

  /** What a zero-width node asserts of its place. */
  datatype Place = Anywhere | BeginText | EndText | BeginLine | EndLine | WordBoundary | NoWordBoundary

  /** The syntax tree. Anchor is the empty match and every zero-width assertion. */
  datatype Regex =
    | Anchor(at: Place)
    | Literal(runes: string)
    | AnyChar(newline: bool)
    | CharClass(ranges: seq<(char, char)>)
    | Capture(sub: Regex)
    | Alternate(subs: seq<Regex>)
    | Star(sub: Regex)
    | Plus(sub: Regex)
    | Quest(sub: Regex)
    | Repeat(sub: Regex, min: nat, max: int)
    | Concat(subs: seq<Regex>)
    | NoMatch

  predicate Repeats(n: Regex) { n.Star? || n.Plus? || n.Quest? || n.Repeat? }

  /** How often a repeating node takes its operand, at least. */
  function Lo(n: Regex): nat
    requires Repeats(n)
  {
    match n case Plus(_) => 1 case Repeat(_, min, _) => min case _ => 0
  }

  /** ... and at most; negative is no bound. */
  function Hi(n: Regex): int
    requires Repeats(n)
  {
    match n case Quest(_) => 1 case Repeat(_, _, max) => max case _ => -1
  }

  predicate Within(n: Regex, k: nat)
    requires Repeats(n)
  {
    var hi := Hi(n);
    Lo(n) <= k && (hi < 0 || k <= hi)
  }

  // ---- The language, with zero-width assertions erased ----

  ghost predicate InLang(n: Regex, w: string)
    decreases n, 2, 0
  {
    match n
    case Anchor(_) => w == ""
    case Literal(runes) => w == runes
    case AnyChar(newline) => |w| == 1 && (newline || w[0] != '\n')
    case CharClass(ranges) => |w| == 1 && exists i :: 0 <= i < |ranges| && ranges[i].0 <= w[0] <= ranges[i].1
    case Capture(sub) => InLang(sub, w)
    case Alternate(subs) => exists i :: 0 <= i < |subs| && InLang(subs[i], w)
    case Concat(subs) => InConcat(subs, w)
    case NoMatch => false
    case _ => exists k: nat :: Within(n, k) && InPower(n.sub, k, w)
  }

  /** k words of n, one after the other. */
  ghost predicate InPower(n: Regex, k: nat, w: string)
    decreases n, 3, k
  {
    if k == 0 then w == "" else exists i :: 0 <= i <= |w| && InLang(n, w[..i]) && InPower(n, k - 1, w[i..])
  }

  ghost predicate InConcat(subs: seq<Regex>, w: string)
    decreases subs, 1, 0
  {
    if subs == [] then w == "" else exists i :: 0 <= i <= |w| && InLang(subs[0], w[..i]) && InConcat(subs[1..], w[i..])
  }

  // ---- The expansion ----

  /** The ends of each range stand for it. */
  function ClassSamples(ranges: seq<(char, char)>): seq<string> {
    if ranges == [] then []
    else
      var (lo, hi) := ranges[0];
      (if lo == hi then [[lo]] else [[lo], [hi]]) + ClassSamples(ranges[1..])
  }

  /** strings.Repeat. */
  function Times(s: string, k: nat): string {
    if k == 0 then "" else s + Times(s, k - 1)
  }

  function TimesEach(samples: seq<string>, k: nat): (out: seq<string>)
    ensures |out| == |samples|
  {
    seq(|samples|, i requires 0 <= i < |samples| => Times(samples[i], k))
  }

  function RepeatSamples(samples: seq<string>, lo: nat): seq<string> {
    var once := TimesEach(samples, AtLeastOne(lo));
    if lo == 0 then [""] + once else once
  }

  /** One prefix followed by every sample of a part. */
  function Extend(prefix: string, part: seq<string>): (out: seq<string>)
    ensures |out| == |part|
  {
    seq(|part|, i requires 0 <= i < |part| => prefix + part[i])
  }

  function Cross(prefixes: seq<string>, part: seq<string>): seq<string> {
    if prefixes == [] then [] else Extend(prefixes[0], part) + Cross(prefixes[1..], part)
  }

  function CrossAll(prefixes: seq<string>, parts: seq<seq<string>>): seq<string>
    decreases |parts|
  {
    if parts == [] then prefixes else CrossAll(Cross(prefixes, parts[0]), parts[1..])
  }

  /** A part's factor in the product: an empty part counts as one. */
  function Factor(part: seq<string>): (k: nat)
    ensures k >= 1
  {
    if |part| < 1 then 1 else |part|
  }

  function Product(parts: seq<seq<string>>): nat {
    if parts == [] then 1 else Factor(parts[0]) * Product(parts[1..])
  }

  /** What is done already, in front of the rest if there is one. */
  function Join<T>(done: seq<T>, rest: Option<seq<T>>): Option<seq<T>> {
    if rest.None? then None else Some(done + rest.value)
  }

  lemma JoinLaws<T>(done: seq<T>, part: seq<T>, rest: Option<seq<T>>)
    ensures Join([], rest) == rest && Join(done, Some([])) == Some(done)
    ensures Join(done, Join(part, rest)) == Join(done + part, rest)
  {
    assert rest.Some? ==> [] + rest.value == rest.value && done + (part + rest.value) == (done + part) + rest.value;
    assert done + [] == done;
  }

  function Expand(n: Regex): Option<seq<string>>
    decreases n, 1
  {
    match n
    case Anchor(_) => Some([""])
    case Literal(runes) => Some([runes])
    case AnyChar(_) => Some(["x"])
    case CharClass(ranges) => if ClassSamples(ranges) == [] then None else Some(ClassSamples(ranges))
    case Capture(sub) => Expand(sub)
    case Alternate(subs) => ExpandEither(subs)
    case Concat(subs) =>
      var parts := ExpandParts(subs, 1);
      if parts.None? then None else Some(CrossAll([""], parts.value))
    case NoMatch => None
    case _ =>
      var sub := Expand(n.sub);
      if sub.None? then None else Some(RepeatSamples(sub.value, Lo(n)))
  }

  function ExpandEither(subs: seq<Regex>): Option<seq<string>>
    decreases subs, 0
  {
    if subs == [] then Some([])
    else
      var first := Expand(subs[0]);
      if first.None? then None else Join(first.value, ExpandEither(subs[1..]))
  }

  /** The samples of each operand, given up as soon as there are too many combinations.
      `size` is the product for the operands before. */
  function ExpandParts(subs: seq<Regex>, size: nat): Option<seq<seq<string>>>
    decreases subs, 0
  {
    if subs == [] then Some([])
    else
      var first := Expand(subs[0]);
      if first.None? || size * Factor(first.value) > SAMPLE_CAP then None
      else Join([first.value], ExpandParts(subs[1..], size * Factor(first.value)))
  }

  // ---- What the parser guarantees, and the exclusion ----

  /** Alternations have alternatives, class ranges are in order, repeat bounds are too. */
  ghost predicate Parsed(n: Regex)
    decreases n
  {
    match n
    case CharClass(ranges) => forall i :: 0 <= i < |ranges| ==> ranges[i].0 <= ranges[i].1
    case Capture(sub) => Parsed(sub)
    case Alternate(subs) => subs != [] && forall s :: s in subs ==> Parsed(s)
    case Concat(subs) => forall s :: s in subs ==> Parsed(s)
    case Star(sub) => Parsed(sub)
    case Plus(sub) => Parsed(sub)
    case Quest(sub) => Parsed(sub)
    case Repeat(sub, min, max) => Parsed(sub) && (max >= 0 ==> min <= max)
    case _ => true
  }

  /** No operand is repeated at most zero times. */
  ghost predicate NoZeroRepeat(n: Regex)
    decreases n
  {
    match n
    case Capture(sub) => NoZeroRepeat(sub)
    case Alternate(subs) => forall s :: s in subs ==> NoZeroRepeat(s)
    case Concat(subs) => forall s :: s in subs ==> NoZeroRepeat(s)
    case Star(sub) => NoZeroRepeat(sub)
    case Plus(sub) => NoZeroRepeat(sub)
    case Quest(sub) => NoZeroRepeat(sub)
    case Repeat(sub, _, max) => NoZeroRepeat(sub) && max != 0
    case _ => true
  }

  // ---- Products of parts ----

  /** w is made of one sample of each part, in order. */
  ghost predicate InProduct(parts: seq<seq<string>>, w: string)
    decreases |parts|
  {
    if parts == [] then w == "" else exists i :: 0 <= i <= |w| && w[..i] in parts[0] && InProduct(parts[1..], w[i..])
  }

  lemma {:induction false} CrossMembers(prefixes: seq<string>, part: seq<string>, w: string)
    ensures w in Cross(prefixes, part) <==> exists i :: 0 <= i <= |w| && w[..i] in prefixes && w[i..] in part
  {
    if prefixes != [] {
      CrossMembers(prefixes[1..], part, w);
      ExtendMembers(prefixes[0], part, w);
      assert forall x :: x in prefixes <==> x == prefixes[0] || x in prefixes[1..];
    }
  }

  lemma {:induction false} CrossSize(prefixes: seq<string>, part: seq<string>)
    ensures |Cross(prefixes, part)| == |prefixes| * |part|
  {
    if prefixes != [] {
      CrossSize(prefixes[1..], part);
    }
  }

  lemma ExtendMembers(p: string, part: seq<string>, w: string)
    ensures w in Extend(p, part) <==> |p| <= |w| && w[..|p|] == p && w[|p|..] in part
  {
    if w in Extend(p, part) {
      var k :| 0 <= k < |part| && Extend(p, part)[k] == w;
      assert w == p + part[k] && w[|p|..] == part[k];
    }
    if |p| <= |w| && w[..|p|] == p && w[|p|..] in part {
      var k :| 0 <= k < |part| && part[k] == w[|p|..];
      assert Extend(p, part)[k] == p + part[k] == w;
    }
  }

  /** w is a prefix followed by one sample of each part. */
  ghost predicate SplitsAs(prefixes: seq<string>, parts: seq<seq<string>>, w: string, i: nat) {
    i <= |w| && w[..i] in prefixes && InProduct(parts, w[i..])
  }

  lemma {:induction false} CrossAllMembers(prefixes: seq<string>, parts: seq<seq<string>>, w: string)
    ensures w in CrossAll(prefixes, parts) <==> exists i: nat :: SplitsAs(prefixes, parts, w, i)
    decreases |parts|
  {
    if parts == [] {
      assert w[..|w|] == w && w[|w|..] == "";
      assert SplitsAs(prefixes, parts, w, |w|) <==> w in prefixes;
      assert forall i: nat :: SplitsAs(prefixes, parts, w, i) ==> i == |w|;
    } else {
      CrossAllMembers(Cross(prefixes, parts[0]), parts[1..], w);
      if j: nat :| SplitsAs(Cross(prefixes, parts[0]), parts[1..], w, j) {
        SplitEarlier(prefixes, parts, w, j);
      }
      if i: nat :| SplitsAs(prefixes, parts, w, i) {
        SplitLater(prefixes, parts, w, i);
      }
    }
  }

  lemma SplitEarlier(prefixes: seq<string>, parts: seq<seq<string>>, w: string, j: nat)
    requires parts != [] && SplitsAs(Cross(prefixes, parts[0]), parts[1..], w, j)
    ensures exists i: nat :: SplitsAs(prefixes, parts, w, i)
  {
    CrossMembers(prefixes, parts[0], w[..j]);
    var i :| 0 <= i <= j && w[..j][..i] in prefixes && w[..j][i..] in parts[0];
    assert w[..j][..i] == w[..i];
    var t := w[i..];
    assert t[..j - i] == w[..j][i..] && t[j - i..] == w[j..];
    assert SplitsAs(prefixes, parts, w, i);
  }

  lemma SplitLater(prefixes: seq<string>, parts: seq<seq<string>>, w: string, i: nat)
    requires parts != [] && SplitsAs(prefixes, parts, w, i)
    ensures exists j: nat :: SplitsAs(Cross(prefixes, parts[0]), parts[1..], w, j)
  {
    var t := w[i..];
    var k :| 0 <= k <= |t| && t[..k] in parts[0] && InProduct(parts[1..], t[k..]);
    var j := i + k;
    CrossMembers(prefixes, parts[0], w[..j]);
    assert w[..j][..i] == w[..i] && w[..j][i..] == t[..k] && w[j..] == t[k..];
    assert SplitsAs(Cross(prefixes, parts[0]), parts[1..], w, j);
  }

  lemma CombineMembers(parts: seq<seq<string>>, w: string)
    ensures w in CrossAll([""], parts) <==> InProduct(parts, w)
  {
    CrossAllMembers([""], parts, w);
    assert w[0..] == w && w[..0] == "";
    assert SplitsAs([""], parts, w, 0) <==> InProduct(parts, w);
    assert forall i: nat :: SplitsAs([""], parts, w, i) ==> i == 0;
  }

  /** parts[i] is what subs[i] expands to. */
  ghost predicate PartsOf(subs: seq<Regex>, parts: seq<seq<string>>) {
    |subs| == |parts| && forall i :: 0 <= i < |subs| ==> Expand(subs[i]) == Some(parts[i])
  }

  lemma {:induction false} ExpandPartsFinds(subs: seq<Regex>, size: nat)
    requires ExpandParts(subs, size).Some? && size <= SAMPLE_CAP
    ensures PartsOf(subs, ExpandParts(subs, size).value)
    ensures size * Product(ExpandParts(subs, size).value) <= SAMPLE_CAP
    decreases |subs|
  {
    if subs != [] {
      var first := Expand(subs[0]).value;
      ExpandPartsFinds(subs[1..], size * Factor(first));
      var all := ExpandParts(subs, size).value;
      assert all[0] == first && all[1..] == ExpandParts(subs[1..], size * Factor(first)).value;
      MulAssoc(size, Factor(first), Product(all[1..]));
    }
  }

  lemma MulAssoc(a: nat, b: nat, c: nat)
    ensures (a * b) * c == a * (b * c)
  {
  }

  // ---- Every sample is a word ----

  lemma {:induction false} ClassSamplesBelong(ranges: seq<(char, char)>, w: string)
    requires w in ClassSamples(ranges) && forall i :: 0 <= i < |ranges| ==> ranges[i].0 <= ranges[i].1
    ensures |w| == 1 && exists i :: 0 <= i < |ranges| && ranges[i].0 <= w[0] <= ranges[i].1
  {
    var (lo, hi) := ranges[0];
    if w == [lo] || w == [hi] {
      assert ranges[0].0 <= w[0] <= ranges[0].1;
    } else {
      ClassSamplesBelong(ranges[1..], w);
      var i :| 0 <= i < |ranges[1..]| && ranges[1..][i].0 <= w[0] <= ranges[1..][i].1;
      assert ranges[i + 1] == ranges[1..][i];
    }
  }

  lemma {:induction false} TimesIsPower(n: Regex, s: string, k: nat)
    requires InLang(n, s)
    ensures InPower(n, k, Times(s, k))
  {
    if k > 0 {
      TimesIsPower(n, s, k - 1);
      var w := Times(s, k);
      assert w[..|s|] == s && w[|s|..] == Times(s, k - 1);
    }
  }

  lemma {:induction false} SamplesAreWords(n: Regex, w: string)
    requires Parsed(n) && NoZeroRepeat(n) && Expand(n).Some? && w in Expand(n).value
    ensures InLang(n, w)
    decreases n, 1
  {
    match n
    case Anchor(_) =>
    case Literal(_) =>
    case AnyChar(_) =>
    case CharClass(ranges) => ClassSamplesBelong(ranges, w);
    case Capture(sub) => SamplesAreWords(sub, w);
    case Alternate(subs) => EitherSamplesAreWords(subs, w);
    case Concat(subs) =>
      ExpandPartsFinds(subs, 1);
      var parts := ExpandParts(subs, 1).value;
      CombineMembers(parts, w);
      ConcatSamplesAreWords(subs, parts, w);
    case NoMatch =>
    case _ =>
      var i := RepeatSampleIsPower(n, w);
      if i < |Expand(n.sub).value| {
        SamplesAreWords(n.sub, Expand(n.sub).value[i]);
        TimesIsPower(n.sub, Expand(n.sub).value[i], AtLeastOne(Lo(n)));
      }
  }

  function AtLeastOne(lo: nat): nat { if lo < 1 then 1 else lo }

  /** A sample of a repetition is empty, if that is allowed, or some sample repeated. */
  lemma RepeatSampleIsPower(n: Regex, w: string) returns (i: nat)
    requires Repeats(n) && Expand(n).Some? && w in Expand(n).value
    ensures i < |Expand(n.sub).value| ==> w == Times(Expand(n.sub).value[i], AtLeastOne(Lo(n)))
    ensures i >= |Expand(n.sub).value| ==> Lo(n) == 0 && w == "" && InPower(n.sub, 0, w)
  {
    var samples := Expand(n.sub).value;
    var once := TimesEach(samples, AtLeastOne(Lo(n)));
    if w in once {
      i :| 0 <= i < |once| && once[i] == w;
    } else {
      i := |samples|;
    }
  }

  lemma {:induction false} EitherSamplesAreWords(subs: seq<Regex>, w: string)
    requires (forall s :: s in subs ==> Parsed(s) && NoZeroRepeat(s)) && ExpandEither(subs).Some? && w in ExpandEither(subs).value
    ensures exists i :: 0 <= i < |subs| && InLang(subs[i], w)
    decreases subs, 0
  {
    if w in Expand(subs[0]).value {
      SamplesAreWords(subs[0], w);
    } else {
      EitherSamplesAreWords(subs[1..], w);
      var i :| 0 <= i < |subs[1..]| && InLang(subs[1..][i], w);
      assert subs[i + 1] == subs[1..][i];
    }
  }

  lemma {:induction false} ConcatSamplesAreWords(subs: seq<Regex>, parts: seq<seq<string>>, w: string)
    requires (forall s :: s in subs ==> Parsed(s) && NoZeroRepeat(s)) && PartsOf(subs, parts) && InProduct(parts, w)
    ensures InConcat(subs, w)
    decreases subs, 0
  {
    if subs != [] {
      var i :| 0 <= i <= |w| && w[..i] in parts[0] && InProduct(parts[1..], w[i..]);
      SamplesAreWords(subs[0], w[..i]);
      ConcatSamplesAreWords(subs[1..], parts[1..], w[i..]);
    }
  }

  /** A repeat of at most zero times is why the exclusion is there: it expands as if its
      operand could occur, so its samples are words only if they are all empty. */
  lemma ZeroRepeatSamples(sub: Regex)
    requires Expand(sub).Some?
    ensures var n := Repeat(sub, 0, 0);
            (forall w :: w in Expand(n).value ==> InLang(n, w)) <==> (forall w :: w in Expand(sub).value ==> w == "")
  {
    var n, samples := Repeat(sub, 0, 0), Expand(sub).value;
    var once := TimesEach(samples, 1);
    forall i | 0 <= i < |samples| ensures once[i] == samples[i] {
      assert Times(samples[i], 1) == samples[i] + Times(samples[i], 0);
    }
    assert Expand(n).value == [""] + samples;
    forall w
      ensures InLang(n, w) <==> w == ""
    {
      if w == "" {
        assert Within(n, 0) && InPower(sub, 0, w);
      }
    }
    assert forall w :: w in Expand(n).value <==> w == "" || w in samples;
  }

  // ---- Finite expressions: every word is a sample ----

  /** Only literals, alternation, concatenation, option and capture. */
  ghost predicate Finite(n: Regex)
    decreases n
  {
    match n
    case Anchor(_) => true
    case Literal(_) => true
    case Capture(sub) => Finite(sub)
    case Alternate(subs) => forall s :: s in subs ==> Finite(s)
    case Concat(subs) => forall s :: s in subs ==> Finite(s)
    case Quest(sub) => Finite(sub)
    case _ => false
  }

  lemma {:induction false} WordsAreSamples(n: Regex, w: string)
    requires Finite(n) && Expand(n).Some? && InLang(n, w)
    ensures w in Expand(n).value
    decreases n, 1
  {
    match n
    case Anchor(_) =>
    case Literal(_) =>
    case Capture(sub) => WordsAreSamples(sub, w);
    case Alternate(subs) =>
      var i :| 0 <= i < |subs| && InLang(subs[i], w);
      EitherWordsAreSamples(subs, w, i);
    case Concat(subs) =>
      ExpandPartsFinds(subs, 1);
      var parts := ExpandParts(subs, 1).value;
      ConcatWordsAreSamples(subs, parts, w);
      CombineMembers(parts, w);
    case Quest(sub) =>
      var samples := Expand(sub).value;
      if w != "" {
        assert InPower(sub, 1, w);
        var i :| 0 <= i <= |w| && InLang(sub, w[..i]) && InPower(sub, 0, w[i..]);
        assert w[..i] == w;
        WordsAreSamples(sub, w);
        var j :| 0 <= j < |samples| && samples[j] == w;
        assert Times(w, 1) == w + Times(w, 0);
        assert TimesEach(samples, 1)[j] == w;
      }
  }

  lemma {:induction false} EitherWordsAreSamples(subs: seq<Regex>, w: string, i: nat)
    requires (forall s :: s in subs ==> Finite(s)) && ExpandEither(subs).Some? && i < |subs| && InLang(subs[i], w)
    ensures w in ExpandEither(subs).value
    decreases subs, 0
  {
    if i == 0 {
      WordsAreSamples(subs[0], w);
    } else {
      EitherWordsAreSamples(subs[1..], w, i - 1);
    }
  }

  lemma {:induction false} ConcatWordsAreSamples(subs: seq<Regex>, parts: seq<seq<string>>, w: string)
    requires (forall s :: s in subs ==> Finite(s)) && PartsOf(subs, parts) && InConcat(subs, w)
    ensures InProduct(parts, w)
    decreases subs, 0
  {
    if subs != [] {
      var i :| 0 <= i <= |w| && InLang(subs[0], w[..i]) && InConcat(subs[1..], w[i..]);
      WordsAreSamples(subs[0], w[..i]);
      ConcatWordsAreSamples(subs[1..], parts[1..], w[i..]);
    }
  }

  lemma {:induction false} FiniteIsPlain(n: Regex)
    requires Finite(n)
    ensures NoZeroRepeat(n)
    decreases n
  {
    match n
    case Capture(sub) => FiniteIsPlain(sub);
    case Quest(sub) => FiniteIsPlain(sub);
    case Alternate(subs) => forall s | s in subs ensures NoZeroRepeat(s) { FiniteIsPlain(s); }
    case Concat(subs) => forall s | s in subs ensures NoZeroRepeat(s) { FiniteIsPlain(s); }
    case _ =>
  }

  /** A finite expression expands to exactly its language. */
  lemma FiniteExpandsExactly(n: Regex)
    requires Finite(n) && Parsed(n) && Expand(n).Some?
    ensures forall w :: w in Expand(n).value <==> InLang(n, w)
  {
    FiniteIsPlain(n);
    forall w
      ensures w in Expand(n).value <==> InLang(n, w)
    {
      if InLang(n, w) {
        WordsAreSamples(n, w);
      } else if w in Expand(n).value {
        SamplesAreWords(n, w);
      }
    }
  }

  // ---- Sizes ----

  lemma {:induction false} CrossAllSize(prefixes: seq<string>, parts: seq<seq<string>>)
    requires forall i :: 0 <= i < |parts| ==> parts[i] != []
    ensures |CrossAll(prefixes, parts)| == |prefixes| * Product(parts)
    decreases |parts|
  {
    if parts != [] {
      CrossSize(prefixes, parts[0]);
      CrossAllSize(Cross(prefixes, parts[0]), parts[1..]);
      MulAssoc(|prefixes|, |parts[0]|, Product(parts[1..]));
    }
  }

  lemma {:induction false} ProductPositive(parts: seq<seq<string>>)
    ensures Product(parts) >= 1
  {
    if parts != [] {
      ProductPositive(parts[1..]);
      MulPositive(Factor(parts[0]), Product(parts[1..]));
    }
  }

  lemma MulPositive(a: nat, b: nat)
    requires a >= 1 && b >= 1
    ensures a * b >= a && a * b >= b
  {
  }

  /** No successful expansion is empty, and a concatenation never yields more than 500. */
  lemma {:induction false} ExpansionSize(n: Regex)
    requires Parsed(n) && Expand(n).Some?
    ensures Expand(n).value != []
    ensures n.Concat? ==> |Expand(n).value| <= SAMPLE_CAP
    decreases n
  {
    match n
    case Capture(sub) => ExpansionSize(sub);
    case Alternate(subs) =>
      assert subs[0] in subs;
      ExpansionSize(subs[0]);
    case Concat(subs) =>
      ExpandPartsFinds(subs, 1);
      var parts := ExpandParts(subs, 1).value;
      forall i | 0 <= i < |parts| ensures parts[i] != [] {
        assert subs[i] in subs;
        ExpansionSize(subs[i]);
      }
      CrossAllSize([""], parts);
      ProductPositive(parts);
    case Star(sub) => ExpansionSize(sub);
    case Plus(sub) => ExpansionSize(sub);
    case Quest(sub) => ExpansionSize(sub);
    case Repeat(sub, _, _) => ExpansionSize(sub);
    case _ =>
  }

  // ---- The loops ----

  const MANY := 0x10_0000

  /** The product, or some number above 2^20 once it passes that. */
  method ProductSize(parts: seq<seq<string>>) returns (total: nat)
    ensures total <= MANY ==> total == Product(parts)
    ensures total > MANY ==> Product(parts) > MANY
  {
    total := 1;
    for i := 0 to |parts|
      invariant 1 <= total <= MANY && total * Product(parts[i..]) == Product(parts)
    {
      var n := |parts[i]|;
      if n < 1 {
        n := 1;
      }
      assert parts[i..][1..] == parts[i + 1..];
      MulAssoc(total, n, Product(parts[i + 1..]));
      ProductPositive(parts[i + 1..]);
      MulPositive(total, n);
      total := total * n;
      MulPositive(total, Product(parts[i + 1..]));
      if total > MANY {
        return;
      }
    }
  }

  method ExpandTree(n: Regex) returns (r: Option<seq<string>>)
    ensures r == Expand(n)
    decreases n, 1
  {
    match n
    case Anchor(_) => r := Some([""]);
    case Literal(runes) => r := Some([runes]);
    case AnyChar(_) => r := Some(["x"]);
    case CharClass(ranges) =>
      var out := ExpandClass(ranges);
      r := if |out| == 0 then None else Some(out);
    case Capture(sub) => r := ExpandTree(sub);
    case Alternate(subs) => r := ExpandAlternatives(subs);
    case Concat(subs) => r := ExpandConcat(subs);
    case NoMatch => r := None;
    case Star(sub) => r := ExpandTree(sub); r := ExpandRepeat(n, r);
    case Plus(sub) => r := ExpandTree(sub); r := ExpandRepeat(n, r);
    case Quest(sub) => r := ExpandTree(sub); r := ExpandRepeat(n, r);
    case Repeat(sub, _, _) => r := ExpandTree(sub); r := ExpandRepeat(n, r);
  }

  method ExpandAlternatives(subs: seq<Regex>) returns (r: Option<seq<string>>)
    ensures r == ExpandEither(subs)
    decreases subs, 0
  {
    var out: seq<string> := [];
    assert subs[0..] == subs;
    JoinLaws(out, [], ExpandEither(subs));
    for i := 0 to |subs|
      invariant ExpandEither(subs) == Join(out, ExpandEither(subs[i..]))
    {
      assert subs[i..][1..] == subs[i + 1..];
      var part := ExpandTree(subs[i]);
      if part.None? {
        return None;
      }
      JoinLaws(out, part.value, ExpandEither(subs[i + 1..]));
      out := out + part.value;
    }
    JoinLaws(out, [], None);
    return Some(out);
  }

  method ExpandConcat(subs: seq<Regex>) returns (r: Option<seq<string>>)
    ensures r == Expand(Concat(subs))
    decreases subs, 0
  {
    var parts: seq<seq<string>> := [];
    var size := 1;
    assert subs[0..] == subs;
    JoinLaws(parts, [], ExpandParts(subs, 1));
    for i := 0 to |subs|
      invariant size == Product(parts)
      invariant ExpandParts(subs, 1) == Join(parts, ExpandParts(subs[i..], size))
    {
      assert subs[i..][1..] == subs[i + 1..];
      var part := ExpandTree(subs[i]);
      if part.None? {
        return None;
      }
      ProductSnoc(parts, part.value);
      var total := ProductSize(parts + [part.value]);
      if total > SAMPLE_CAP {
        return None;
      }
      JoinLaws(parts, [part.value], ExpandParts(subs[i + 1..], total));
      parts, size := parts + [part.value], total;
    }
    JoinLaws(parts, [], None);
    var out := CrossLoop(parts);
    return Some(out);
  }

  lemma {:induction false} ProductSnoc(parts: seq<seq<string>>, part: seq<string>)
    ensures Product(parts + [part]) == Product(parts) * Factor(part)
  {
    if parts == [] {
      assert parts + [part] == [part] && [part][1..] == [];
    } else {
      ProductSnoc(parts[1..], part);
      assert (parts + [part])[1..] == parts[1..] + [part];
      MulAssoc(Factor(parts[0]), Product(parts[1..]), Factor(part));
    }
  }

  method ExpandClass(ranges: seq<(char, char)>) returns (out: seq<string>)
    ensures out == ClassSamples(ranges)
  {
    out := [];
    for i := 0 to |ranges|
      invariant ClassSamples(ranges) == out + ClassSamples(ranges[i..])
    {
      assert ranges[i..][1..] == ranges[i + 1..];
      var (lo, hi) := ranges[i];
      var ends := [[lo]];
      if hi != lo {
        ends := ends + [[hi]];
      }
      Regroup(out, ends, ClassSamples(ranges[i + 1..]));
      out := out + ends;
    }
  }

  method ExpandRepeat(n: Regex, sub: Option<seq<string>>) returns (r: Option<seq<string>>)
    requires Repeats(n) && sub == Expand(n.sub)
    ensures r == Expand(n)
  {
    if sub.None? {
      return None;
    }
    var lo := Lo(n);
    var reps := lo;
    if reps < 1 {
      reps := 1;
    }
    var once: seq<string> := [];
    for i := 0 to |sub.value|
      invariant |once| == i && forall k :: 0 <= k < i ==> once[k] == Times(sub.value[k], reps)
    {
      once := once + [Times(sub.value[i], reps)];
    }
    assert once == TimesEach(sub.value, reps);
    if lo == 0 {
      once := [""] + once;
    }
    return Some(once);
  }

  method CrossLoop(parts: seq<seq<string>>) returns (out: seq<string>)
    ensures out == CrossAll([""], parts)
  {
    out := [""];
    for i := 0 to |parts|
      invariant CrossAll([""], parts) == CrossAll(out, parts[i..])
    {
      assert parts[i..][1..] == parts[i + 1..];
      out := CrossOne(out, parts[i]);
    }
  }

  method CrossOne(prefixes: seq<string>, part: seq<string>) returns (next: seq<string>)
    ensures next == Cross(prefixes, part)
  {
    next := [];
    assert prefixes[0..] == prefixes;
    for j := 0 to |prefixes|
      invariant Cross(prefixes, part) == next + Cross(prefixes[j..], part)
    {
      assert prefixes[j..][1..] == prefixes[j + 1..];
      var row := ExtendLoop(prefixes[j], part);
      Regroup(next, row, Cross(prefixes[j + 1..], part));
      next := next + row;
    }
  }

  method ExtendLoop(prefix: string, part: seq<string>) returns (row: seq<string>)
    ensures row == Extend(prefix, part)
  {
    row := [];
    for k := 0 to |part|
      invariant |row| == k && forall i :: 0 <= i < k ==> row[i] == prefix + part[i]
    {
      row := row + [prefix + part[k]];
    }
  }

  // ---- Liveness of a predicate ----

  datatype Field = Status | Reason

  predicate LegalChar(f: Field, c: char) {
    'A' <= c <= 'Z' || 'a' <= c <= 'z' || '0' <= c <= '9' || c in "._-" || (f == Status && c in ":/")
  }

  /** By code point: upper-case and lower-case letters, digits, dot, underscore and hyphen, and
      in a status colon and slash. */
  lemma LegalCharacters(f: Field, c: char)
    ensures var k := c as int;
            LegalChar(f, c) <==>
            65 <= k <= 90 || 97 <= k <= 122 || 48 <= k <= 57 || k in {46, 95, 45} || (f.Status? && k in {58, 47})
  {
  }

  /** The shape of a Kubernetes status or reason. */
  predicate Legal(f: Field, w: string) {
    w != "" && forall i :: 0 <= i < |w| ==> LegalChar(f, w[i])
  }

  datatype WatchPredicate = WatchPredicate(kind: string, status: Option<Regex>, reason: Option<Regex>)

  datatype Dead = UnsupportedKind | NothingToTest | IllegalSample(field: Field, sample: string)

  /** The field's pattern expands and some sample of it is illegal. */
  ghost predicate Flagged(f: Field, re: Option<Regex>) {
    re.Some? && Expand(re.value).Some? && exists w :: w in Expand(re.value).value && !Legal(f, w)
  }

  /** With strict, a pattern that cannot be expanded ends the check with an error. */
  method PredicateLivenessErrors(p: WatchPredicate, strict: bool) returns (errs: seq<Dead>, unsupported: bool)
    ensures UnsupportedKind in errs <==> p.kind !in {"Pod", "Event", "Node"}
    ensures p.kind !in {"Pod", "Event", "Node"} ==> errs == [UnsupportedKind] && !unsupported
    ensures NothingToTest in errs <==> p.kind in {"Pod", "Node"} && p.status.None?
    ensures unsupported ==> strict
    ensures p.kind in {"Pod", "Event", "Node"} && !unsupported ==>
              ((exists w :: IllegalSample(Status, w) in errs) <==> Flagged(Status, p.status)) &&
              ((exists w :: IllegalSample(Reason, w) in errs) <==> Flagged(Reason, p.reason))
    ensures forall f, w :: IllegalSample(f, w) in errs ==> !Legal(f, w)
  {
    if p.kind !in {"Pod", "Event", "Node"} {
      return [UnsupportedKind], false;
    }
    errs := [];
    if (p.kind == "Pod" || p.kind == "Node") && p.status.None? {
      errs := errs + [NothingToTest];
    }
    var status, unknown := CheckField(Status, p.status);
    if unknown && strict {
      return errs, true;
    }
    errs := errs + status;
    var reason, unknown' := CheckField(Reason, p.reason);
    if unknown' && strict {
      return errs, true;
    }
    errs := errs + reason;
    assert Flagged(Status, p.status) ==> status[0] in errs;
    assert Flagged(Reason, p.reason) ==> reason[0] in errs;
    return errs, false;
  }

  method CheckField(f: Field, re: Option<Regex>) returns (errs: seq<Dead>, unknown: bool)
    ensures unknown <==> re.Some? && Expand(re.value).None?
    ensures errs == [] || exists w :: errs == [IllegalSample(f, w)] && !Legal(f, w)
    ensures errs != [] <==> Flagged(f, re)
  {
    if re.None? {
      return [], false;
    }
    var samples := ExpandTree(re.value);
    if samples.None? {
      return [], true;
    }
    for i := 0 to |samples.value|
      invariant forall k :: 0 <= k < i ==> Legal(f, samples.value[k])
    {
      if !Legal(f, samples.value[i]) {
        return [IllegalSample(f, samples.value[i])], false;
      }
    }
    return [], false;
  }

  /** A pattern whose every word is legal is never flagged. */
  lemma LegalPatternIsNotFlagged(f: Field, n: Regex)
    requires Parsed(n) && NoZeroRepeat(n) && forall w :: InLang(n, w) ==> Legal(f, w)
    ensures !Flagged(f, Some(n))
  {
    if w :| Expand(n).Some? && w in Expand(n).value && !Legal(f, w) {
      SamplesAreWords(n, w);
    }
  }

  /** A finite pattern that expands is flagged exactly if some word of it is illegal. */
  lemma FiniteFlaggedIff(f: Field, n: Regex)
    requires Finite(n) && Parsed(n) && Expand(n).Some?
    ensures Flagged(f, Some(n)) <==> exists w :: InLang(n, w) && !Legal(f, w)
  {
    FiniteExpandsExactly(n);
  }
}
