/** What the sample enumerator yields, for every syntax tree: which expressions it expands, how
    many samples it makes and which (expand in internal/detect/shape.go). */
module RegexExpansion {
  import opened Options
  import opened RegexSamples

  // ---- Which samples ----

  /** A sample of a node, by its shape alone: an end of a range stands for a class, x for any
      character, and a repetition takes one sample of its operand over and over, as often as
      it must but at least once, or nothing at all where it may be left out. */
  ghost predicate IsSample(n: Regex, w: string)
    decreases n, 1
  {
    match n
    case Anchor(_) => w == ""
    case Literal(runes) => w == runes
    case AnyChar(_) => w == "x"
    case CharClass(ranges) => exists i :: 0 <= i < |ranges| && (w == [ranges[i].0] || w == [ranges[i].1])
    case Capture(sub) => IsSample(sub, w)
    case Alternate(subs) => exists i :: 0 <= i < |subs| && IsSample(subs[i], w)
    case Concat(subs) => AreSamples(subs, w)
    case NoMatch => false
    case Star(sub) => w == "" || IsSample(sub, w)
    case Quest(sub) => w == "" || IsSample(sub, w)
    case Plus(sub) => IsSample(sub, w)
    case Repeat(sub, min, _) =>
      if min == 0 then w == "" || IsSample(sub, w) else exists s :: IsSample(sub, s) && w == Times(s, min)
  }

  /** Samples of the nodes, one after the other. */
  ghost predicate AreSamples(subs: seq<Regex>, w: string)
    decreases subs, 0
  {
    if subs == [] then w == "" else exists i :: 0 <= i <= |w| && IsSample(subs[0], w[..i]) && AreSamples(subs[1..], w[i..])
  }

  /** An expansion holds exactly the samples. */
  lemma {:induction false} SamplesAreExact(n: Regex, w: string)
    requires Expand(n).Some?
    ensures w in Expand(n).value <==> IsSample(n, w)
    decreases n, 1
  {
    match n
    case Anchor(_) =>
    case Literal(_) =>
    case AnyChar(_) =>
    case CharClass(ranges) => ClassIsExact(ranges, w);
    case Capture(sub) => SamplesAreExact(sub, w);
    case Alternate(subs) => EitherIsExact(subs, w);
    case Concat(subs) =>
      ExpandPartsFinds(subs, 1);
      var parts := ExpandParts(subs, 1).value;
      CombineMembers(parts, w);
      ProductIsExact(subs, parts, w);
    case NoMatch =>
    case Star(sub) => OptionalIsExact(n, w);
    case Quest(sub) => OptionalIsExact(n, w);
    case Plus(sub) =>
      RepeatHolds(Expand(sub).value, 1, w);
      SamplesAreExact(sub, w);
      if w in Expand(sub).value {
        TimesOne(w);
      }
      forall s
        ensures Times(s, 1) == s
      {
        TimesOne(s);
      }
    case Repeat(sub, min, _) =>
      if min == 0 {
        OptionalIsExact(n, w);
      } else {
        RepeatHolds(Expand(sub).value, min, w);
        forall s
          ensures s in Expand(sub).value <==> IsSample(sub, s)
        {
          SamplesAreExact(sub, s);
        }
      }
  }

  lemma {:induction false} OptionalIsExact(n: Regex, w: string)
    requires Repeats(n) && Lo(n) == 0 && Expand(n).Some?
    ensures w in Expand(n).value <==> w == "" || IsSample(n.sub, w)
    decreases n, 0
  {
    RepeatHolds(Expand(n.sub).value, 0, w);
    SamplesAreExact(n.sub, w);
    forall s
      ensures Times(s, 1) == s
    {
      TimesOne(s);
    }
  }

  lemma TimesOne(s: string)
    ensures Times(s, 1) == s
  {
    assert Times(s, 1) == s + Times(s, 0) == s;
  }

  lemma RepeatHolds(samples: seq<string>, lo: nat, w: string)
    ensures w in RepeatSamples(samples, lo) <==> (lo == 0 && w == "") || exists s :: s in samples && w == Times(s, AtLeastOne(lo))
  {
    var once := TimesEach(samples, AtLeastOne(lo));
    if w in once {
      var i :| 0 <= i < |once| && once[i] == w;
      assert samples[i] in samples;
    }
    if s :| s in samples && w == Times(s, AtLeastOne(lo)) {
      var i :| 0 <= i < |samples| && samples[i] == s;
      assert once[i] == w;
    }
  }

  lemma {:induction false} ClassIsExact(ranges: seq<(char, char)>, w: string)
    ensures w in ClassSamples(ranges) <==> exists i :: 0 <= i < |ranges| && (w == [ranges[i].0] || w == [ranges[i].1])
  {
    if ranges != [] {
      ClassIsExact(ranges[1..], w);
      assert forall i :: 0 < i < |ranges| ==> ranges[i] == ranges[1..][i - 1];
    }
  }

  lemma {:induction false} EitherIsExact(subs: seq<Regex>, w: string)
    requires ExpandEither(subs).Some?
    ensures w in ExpandEither(subs).value <==> exists i :: 0 <= i < |subs| && IsSample(subs[i], w)
    decreases subs, 0
  {
    if subs != [] {
      SamplesAreExact(subs[0], w);
      EitherIsExact(subs[1..], w);
      assert forall i :: 0 < i < |subs| ==> subs[i] == subs[1..][i - 1];
    }
  }

  lemma {:induction false} ProductIsExact(subs: seq<Regex>, parts: seq<seq<string>>, w: string)
    requires PartsOf(subs, parts)
    ensures InProduct(parts, w) <==> AreSamples(subs, w)
    decreases subs, 0
  {
    if subs != [] {
      forall i | 0 <= i <= |w|
        ensures w[..i] in parts[0] && InProduct(parts[1..], w[i..]) <==> IsSample(subs[0], w[..i]) && AreSamples(subs[1..], w[i..])
      {
        SamplesAreExact(subs[0], w[..i]);
        ProductIsExact(subs[1..], parts[1..], w[i..]);
      }
    }
  }

  // ---- Which expressions, and how many samples ----

  function Count(n: Regex): nat
    decreases n, 1
  {
    match n
    case CharClass(ranges) => CountEnds(ranges)
    case Capture(sub) => Count(sub)
    case Alternate(subs) => CountSum(subs)
    case Concat(subs) => CountProduct(subs)
    case Star(sub) => 1 + Count(sub)
    case Quest(sub) => 1 + Count(sub)
    case Plus(sub) => Count(sub)
    case Repeat(sub, min, _) => if min == 0 then 1 + Count(sub) else Count(sub)
    case NoMatch => 0
    case _ => 1
  }

  function CountEnds(ranges: seq<(char, char)>): nat {
    if ranges == [] then 0 else (if ranges[0].0 == ranges[0].1 then 1 else 2) + CountEnds(ranges[1..])
  }

  function CountSum(subs: seq<Regex>): nat
    decreases subs, 0
  {
    if subs == [] then 0 else Count(subs[0]) + CountSum(subs[1..])
  }

  function CountProduct(subs: seq<Regex>): nat
    decreases subs, 0
  {
    if subs == [] then 1 else Count(subs[0]) * CountProduct(subs[1..])
  }

  /** No node below matches nothing, no class is empty, and no concatenation has more than 500
      combinations. */
  ghost predicate Expandable(n: Regex)
    decreases n
  {
    match n
    case NoMatch => false
    case CharClass(ranges) => ranges != []
    case Capture(sub) => Expandable(sub)
    case Alternate(subs) => forall s :: s in subs ==> Expandable(s)
    case Concat(subs) => (forall s :: s in subs ==> Expandable(s)) && CountProduct(subs) <= 500
    case Star(sub) => Expandable(sub)
    case Plus(sub) => Expandable(sub)
    case Quest(sub) => Expandable(sub)
    case Repeat(sub, _, _) => Expandable(sub)
    case _ => true
  }

  /** Exactly these are expanded, to exactly so many samples. */
  lemma {:induction false} ExpandsIff(n: Regex)
    requires Parsed(n)
    ensures Expand(n).Some? <==> Expandable(n)
    ensures Expand(n).Some? ==> |Expand(n).value| == Count(n) > 0
    decreases n, 1
  {
    match n
    case CharClass(ranges) => EndsAreCounted(ranges);
    case Capture(sub) => ExpandsIff(sub);
    case Alternate(subs) =>
      EitherExpandsIff(subs);
      assert subs[0] in subs;
      ExpandsIff(subs[0]);
    case Concat(subs) => ConcatExpandsIff(subs);
    case Star(sub) => ExpandsIff(sub);
    case Plus(sub) => ExpandsIff(sub);
    case Quest(sub) => ExpandsIff(sub);
    case Repeat(sub, _, _) => ExpandsIff(sub);
    case _ =>
  }

  lemma {:induction false} EndsAreCounted(ranges: seq<(char, char)>)
    ensures |ClassSamples(ranges)| == CountEnds(ranges) && (CountEnds(ranges) == 0 <==> ranges == [])
  {
    if ranges != [] {
      EndsAreCounted(ranges[1..]);
    }
  }

  lemma {:induction false} EitherExpandsIff(subs: seq<Regex>)
    requires forall s :: s in subs ==> Parsed(s)
    ensures ExpandEither(subs).Some? <==> forall s :: s in subs ==> Expandable(s)
    ensures ExpandEither(subs).Some? ==> |ExpandEither(subs).value| == CountSum(subs)
    decreases subs, 0
  {
    if subs != [] {
      assert forall s :: s in subs <==> s == subs[0] || s in subs[1..];
      ExpandsIff(subs[0]);
      EitherExpandsIff(subs[1..]);
    }
  }

  lemma {:induction false} ConcatExpandsIff(subs: seq<Regex>)
    requires forall s :: s in subs ==> Parsed(s)
    ensures Expand(Concat(subs)).Some? <==> (forall s :: s in subs ==> Expandable(s)) && CountProduct(subs) <= SAMPLE_CAP
    ensures Expand(Concat(subs)).Some? ==> |Expand(Concat(subs)).value| == CountProduct(subs) > 0
    decreases subs, 1
  {
    PartsExpandIff(subs, 1);
    if Expand(Concat(subs)).Some? {
      var parts := ExpandParts(subs, 1).value;
      ExpandPartsFinds(subs, 1);
      PartsAreCounted(subs, parts);
      CrossAllSize([""], parts);
      ProductPositive(parts);
    }
  }

  lemma {:induction false} PartsExpandIff(subs: seq<Regex>, size: nat)
    requires (forall s :: s in subs ==> Parsed(s)) && 1 <= size <= SAMPLE_CAP
    ensures ExpandParts(subs, size).Some? <==> (forall s :: s in subs ==> Expandable(s)) && size * CountProduct(subs) <= SAMPLE_CAP
    ensures (forall s :: s in subs ==> Expandable(s)) ==> CountProduct(subs) >= 1
    decreases subs, 0
  {
    if subs != [] {
      var first, rest := subs[0], subs[1..];
      assert forall s :: s in subs <==> s == first || s in rest;
      ExpandsIff(first);
      if Expandable(first) {
        var count := Count(first);
        MulAssoc(size, count, CountProduct(rest));
        PartsExpandIff(rest, 1);
        if size * count <= SAMPLE_CAP {
          MulPositive(size, count);
          PartsExpandIff(rest, size * count);
        }
        if forall s :: s in rest ==> Expandable(s) {
          MulPositive(count, CountProduct(rest));
          MulPositive(size * count, CountProduct(rest));
        }
      }
    }
  }

  lemma {:induction false} PartsAreCounted(subs: seq<Regex>, parts: seq<seq<string>>)
    requires (forall s :: s in subs ==> Parsed(s)) && PartsOf(subs, parts)
    ensures Product(parts) == CountProduct(subs) && forall i :: 0 <= i < |parts| ==> parts[i] != []
    decreases subs, 0
  {
    if subs != [] {
      assert subs[0] in subs;
      ExpandsIff(subs[0]);
      PartsAreCounted(subs[1..], parts[1..]);
      assert forall i :: 0 < i < |parts| ==> parts[i] == parts[1..][i - 1];
    }
  }
}
