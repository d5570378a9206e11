/** The least-squares projection of a metric and the trend findings drawn from it
    (ProjectETA and projectSeries in internal/detect/engine.go), with exact reals. */
module TrendProjection {
  import opened Options

  /** Seconds and value. */
  type Sample = (real, real)

  /** Multiplication under a name, so that proofs use its laws one at a time. */
  function Mul(a: real, b: real): real { a * b }

  function Sq(x: real): real { Mul(x, x) }

  // ---- Sums over samples ----

  function SumX(s: seq<Sample>, x0: real): real {
    if s == [] then 0.0 else SumX(s[..|s| - 1], x0) + (s[|s| - 1].0 - x0)
  }

  function SumY(s: seq<Sample>): real {
    if s == [] then 0.0 else SumY(s[..|s| - 1]) + s[|s| - 1].1
  }

  /** The samples relative to a centre. */
  function Centred(s: seq<Sample>, cx: real, cy: real): (d: seq<Sample>)
    ensures |d| == |s|
  {
    seq(|s|, i requires 0 <= i < |s| => (s[i].0 - cx, s[i].1 - cy))
  }

  function Sxx(d: seq<Sample>): real {
    if d == [] then 0.0 else Sxx(d[..|d| - 1]) + Sq(d[|d| - 1].0)
  }

  function Syy(d: seq<Sample>): real {
    if d == [] then 0.0 else Syy(d[..|d| - 1]) + Sq(d[|d| - 1].1)
  }

  function Sxy(d: seq<Sample>): real {
    if d == [] then 0.0 else Sxy(d[..|d| - 1]) + Mul(d[|d| - 1].0, d[|d| - 1].1)
  }

  /** The mean of the samples. */
  function Centre(s: seq<Sample>): Sample
    requires s != []
  {
    var n := |s| as real;
    (s[0].0 + SumX(s, s[0].0) / n, SumY(s) / n)
  }

  function Deviations(s: seq<Sample>): (d: seq<Sample>)
    requires s != []
    ensures |d| == |s|
  {
    Centred(s, Centre(s).0, Centre(s).1)
  }

  // ---- The projection ----

  datatype Projection = Projection(eta: real, r2: real, ok: bool)

  /** The slope of the fitted line, from the moments. */
  function SlopeOf(x: real, z: real): real
    requires x != 0.0
  {
    z / x
  }

  /** The share of the variation that the fitted line explains, from the moments. */
  function ShareOf(x: real, y: real, z: real): real
    requires x != 0.0 && y != 0.0
  {
    NonZeroProduct(x, y);
    Sq(z) / Mul(x, y)
  }

  lemma NonZeroProduct(a: real, b: real)
    requires a != 0.0 && b != 0.0
    ensures Mul(a, b) != 0.0
  {
    assert a * b != 0.0;
  }

  function Slope(d: seq<Sample>): real
    requires Sxx(d) != 0.0
  {
    SlopeOf(Sxx(d), Sxy(d))
  }

  function R2(d: seq<Sample>): real
    requires Sxx(d) != 0.0 && Syy(d) != 0.0
  {
    ShareOf(Sxx(d), Syy(d), Sxy(d))
  }

  /** Heading for the threshold and not past it yet; anything but "falling" is rising. */
  predicate Heading(direction: string, slope: real, current: real, threshold: real) {
    if direction == "falling" then slope < 0.0 && current > threshold else slope > 0.0 && current < threshold
  }

  function Project(s: seq<Sample>, threshold: real, direction: string, minR2: real): Projection {
    if |s| < 2 then Projection(0.0, 0.0, false)
    else
      var d, current := Deviations(s), s[|s| - 1].1;
      if Sxx(d) == 0.0 || Syy(d) == 0.0 then Projection(0.0, 0.0, false)
      else if R2(d) < minR2 || !Heading(direction, Slope(d), current, threshold) || (threshold - current) / Slope(d) <= 0.0
      then Projection(0.0, R2(d), false)
      else Projection((threshold - current) / Slope(d), R2(d), true)
  }

  method ProjectETA(s: seq<Sample>, threshold: real, direction: string, minR2: real) returns (p: Projection)
    ensures p == Project(s, threshold, direction, minR2)
  {
    if |s| < 2 {
      return Projection(0.0, 0.0, false);
    }
    var mx, my := Means(s);
    var sxx, syy, sxy := Moments(s, mx, my);
    if sxx == 0.0 || syy == 0.0 {
      return Projection(0.0, 0.0, false);
    }
    var slope := sxy / sxx;
    var r2 := sxy * sxy / (sxx * syy);
    if r2 < minR2 {
      return Projection(0.0, r2, false);
    }
    var current := s[|s| - 1].1;
    if direction == "falling" {
      if slope >= 0.0 || current <= threshold {
        return Projection(0.0, r2, false);
      }
    } else if slope <= 0.0 || current >= threshold {
      return Projection(0.0, r2, false);
    }
    var eta := (threshold - current) / slope;
    if eta <= 0.0 {
      return Projection(0.0, r2, false);
    }
    return Projection(eta, r2, true);
  }

  /** The mean time, counted from the first sample, and the mean value. */
  method Means(s: seq<Sample>) returns (mx: real, my: real)
    requires s != []
    ensures Centre(s) == (s[0].0 + mx, my)
  {
    var n, x0 := |s| as real, s[0].0;
    mx, my := 0.0, 0.0;
    for i := 0 to |s|
      invariant mx == SumX(s[..i], x0) && my == SumY(s[..i])
    {
      assert s[..i + 1][..i] == s[..i];
      mx, my := mx + (s[i].0 - x0), my + s[i].1;
    }
    assert s[..|s|] == s;
    mx, my := mx / n, my / n;
  }

  method Moments(s: seq<Sample>, mx: real, my: real) returns (sxx: real, syy: real, sxy: real)
    requires s != [] && Centre(s) == (s[0].0 + mx, my)
    ensures sxx == Sxx(Deviations(s)) && syy == Syy(Deviations(s)) && sxy == Sxy(Deviations(s))
  {
    var x0 := s[0].0;
    ghost var d := Centred(s, x0 + mx, my);
    sxx, syy, sxy := 0.0, 0.0, 0.0;
    for i := 0 to |s|
      invariant sxx == Sxx(d[..i]) && syy == Syy(d[..i]) && sxy == Sxy(d[..i])
    {
      assert d[..i + 1][..i] == d[..i];
      var dx, dy := s[i].0 - x0 - mx, s[i].1 - my;
      assert d[i] == (dx, dy);
      sxx, syy, sxy := sxx + dx * dx, syy + dy * dy, sxy + dx * dy;
    }
    assert d[..|d|] == d;
  }

  // ---- Arithmetic of one step ----

  lemma MulPositive(a: real, b: real)
    requires a > 0.0 && b > 0.0
    ensures Mul(a, b) > 0.0
  {
    assert a * b > 0.0;
  }

  lemma MulNegate(a: real, b: real)
    ensures Mul(-a, b) == -Mul(a, b) && Mul(a, -b) == -Mul(a, b)
  {
    assert (-a) * b == -(a * b) && a * (-b) == -(a * b);
  }

  lemma MulZero(a: real)
    ensures Mul(a, 0.0) == 0.0 && Mul(0.0, a) == 0.0
  {
  }

  lemma Square(x: real)
    ensures Sq(x) >= 0.0
    ensures Sq(x) == 0.0 <==> x == 0.0
  {
    if x > 0.0 {
      MulPositive(x, x);
    } else if x < 0.0 {
      MulPositive(-x, -x);
      MulNegate(x, x);
      MulNegate(x, -x);
    } else {
      MulZero(x);
    }
  }

  lemma Product(a: real, b: real)
    requires a >= 0.0 && b >= 0.0
    ensures Mul(a, b) >= 0.0
  {
    if a > 0.0 && b > 0.0 {
      MulPositive(a, b);
    } else {
      MulZero(a);
      MulZero(b);
    }
  }

  lemma Quotient(a: real, b: real)
    requires b != 0.0
    ensures Mul(a / b, b) == a
  {
    assert a / b * b == a;
  }

  lemma RatioWithinOne(a: real, b: real)
    requires 0.0 <= a <= b && b > 0.0
    ensures 0.0 <= a / b <= 1.0
    ensures a / b == 1.0 ==> a == b
    ensures a == b ==> a / b == 1.0
  {
  }

  lemma SquareOfDifference(p: real, q: real, x: real, y: real)
    ensures Sq(p * x - q * y) == Mul(Sq(p), Sq(x)) - 2.0 * Mul(Mul(p, q), Mul(x, y)) + Mul(Sq(q), Sq(y))
  {
    var u, v := p * x, q * y;
    assert (u - v) * (u - v) == u * u - 2.0 * (u * v) + v * v;
    assert u * u == (p * p) * (x * x);
    assert v * v == (q * q) * (y * y);
    assert u * v == (p * q) * (x * y);
  }

  // ---- Cauchy-Schwarz ----

  lemma {:induction false} SquaresAreNonNegative(d: seq<Sample>)
    ensures Sxx(d) >= 0.0 && Syy(d) >= 0.0
  {
    if d != [] {
      SquaresAreNonNegative(d[..|d| - 1]);
      Square(d[|d| - 1].0);
      Square(d[|d| - 1].1);
    }
  }

  function Off(p: real, q: real, e: Sample): real {
    p * e.0 - q * e.1
  }

  /** The sum of the squares of p * dx - q * dy. */
  function Quad(d: seq<Sample>, p: real, q: real): real {
    if d == [] then 0.0 else Quad(d[..|d| - 1], p, q) + Sq(Off(p, q, d[|d| - 1]))
  }

  lemma {:induction false} QuadExpands(d: seq<Sample>, p: real, q: real)
    ensures Quad(d, p, q) == Mul(Sq(p), Sxx(d)) - 2.0 * Mul(Mul(p, q), Sxy(d)) + Mul(Sq(q), Syy(d))
  {
    if d == [] {
      MulZero(Sq(p));
      MulZero(Mul(p, q));
      MulZero(Sq(q));
    } else {
      var front, x, y := d[..|d| - 1], d[|d| - 1].0, d[|d| - 1].1;
      QuadExpands(front, p, q);
      SquareOfDifference(p, q, x, y);
      assert Off(p, q, d[|d| - 1]) == p * x - q * y;
      Distribute(Sq(p), Sxx(front), Sq(x));
      Distribute(Mul(p, q), Sxy(front), Mul(x, y));
      Distribute(Sq(q), Syy(front), Sq(y));
    }
  }

  lemma Distribute(k: real, a: real, b: real)
    ensures Mul(k, a + b) == Mul(k, a) + Mul(k, b)
  {
    assert k * (a + b) == k * a + k * b;
  }

  lemma {:induction false} QuadIsNonNegative(d: seq<Sample>, p: real, q: real)
    ensures Quad(d, p, q) >= 0.0
    ensures Quad(d, p, q) == 0.0 <==> forall i :: 0 <= i < |d| ==> Off(p, q, d[i]) == 0.0
  {
    if d != [] {
      var front := d[..|d| - 1];
      QuadIsNonNegative(front, p, q);
      assert forall i :: 0 <= i < |front| ==> front[i] == d[i];
      Square(Off(p, q, d[|d| - 1]));
      if Off(p, q, d[|d| - 1]) == 0.0 {
        assert forall i :: 0 <= i < |d| ==> i == |d| - 1 || d[i] == front[i];
      }
    }
  }

  /** sxx * (sxx * syy - sxy^2) is a sum of squares. */
  lemma GramIdentity(d: seq<Sample>, x: real, y: real, z: real)
    requires x == Sxx(d) && y == Syy(d) && z == Sxy(d)
    ensures Quad(d, z, x) == Mul(x, Mul(x, y) - Sq(z))
  {
    QuadExpands(d, z, x);
    GramArithmetic(x, y, z);
  }

  lemma GramArithmetic(x: real, y: real, z: real)
    ensures Mul(Sq(z), x) - 2.0 * Mul(Mul(z, x), z) + Mul(Sq(x), y) == Mul(x, Mul(x, y) - Sq(z))
  {
    var w := z * z;
    assert (z * x) * z == w * x;
    assert x * (x * y - w) == x * (x * y) - x * w;
    assert (x * x) * y == x * (x * y);
  }

  lemma CauchySchwarz(d: seq<Sample>, x: real, y: real, z: real)
    requires x == Sxx(d) && y == Syy(d) && z == Sxy(d) && x != 0.0
    ensures 0.0 <= Sq(z) <= Mul(x, y)
    ensures Sq(z) == Mul(x, y) <==> forall i :: 0 <= i < |d| ==> Off(z, x, d[i]) == 0.0
  {
    SquaresAreNonNegative(d);
    GramIdentity(d, x, y, z);
    QuadIsNonNegative(d, z, x);
    Square(z);
    PositiveFactor(x, Mul(x, y) - Sq(z));
  }

  lemma PositiveFactor(a: real, b: real)
    requires a > 0.0 && Mul(a, b) >= 0.0
    ensures b >= 0.0 && (Mul(a, b) == 0.0 <==> b == 0.0)
  {
    if b > 0.0 {
      MulPositive(a, b);
    } else if b < 0.0 {
      MulPositive(a, -b);
      MulNegate(a, b);
    } else {
      MulZero(a);
    }
  }

  /** Every deviation in value is m times the deviation in time. */
  ghost predicate Through(d: seq<Sample>, m: real) {
    forall i :: 0 <= i < |d| ==> d[i].1 == Mul(m, d[i].0)
  }

  /** r2 always lies between 0 and 1, and it is 1 exactly when all samples lie on the
      fitted line. */
  lemma R2IsAShare(s: seq<Sample>)
    requires s != [] && Sxx(Deviations(s)) != 0.0 && Syy(Deviations(s)) != 0.0
    ensures 0.0 <= R2(Deviations(s)) <= 1.0
    ensures R2(Deviations(s)) == 1.0 <==> Through(Deviations(s), Slope(Deviations(s)))
  {
    var d := Deviations(s);
    R2OfMoments(d, Sxx(d), Syy(d), Sxy(d));
  }

  lemma R2OfMoments(d: seq<Sample>, x: real, y: real, z: real)
    requires x == Sxx(d) != 0.0 && y == Syy(d) != 0.0 && z == Sxy(d)
    ensures 0.0 <= ShareOf(x, y, z) <= 1.0
    ensures ShareOf(x, y, z) == 1.0 <==> Through(d, SlopeOf(x, z))
  {
    CauchySchwarz(d, x, y, z);
    ThroughIff(d, x, z);
    SquaresAreNonNegative(d);
    MulPositive(x, y);
    RatioWithinOne(Sq(z), Mul(x, y));
  }

  lemma ThroughIff(d: seq<Sample>, x: real, z: real)
    requires x != 0.0
    ensures Through(d, SlopeOf(x, z)) <==> forall i :: 0 <= i < |d| ==> Off(z, x, d[i]) == 0.0
  {
    forall i | 0 <= i < |d|
      ensures Off(z, x, d[i]) == 0.0 <==> d[i].1 == Mul(SlopeOf(x, z), d[i].0)
    {
      OnTheLine(z, x, d[i].0, d[i].1);
    }
  }

  lemma OnTheLine(a: real, b: real, x: real, y: real)
    requires b != 0.0
    ensures a * x - b * y == 0.0 <==> y == Mul(SlopeOf(b, a), x)
  {
    var m := a / b;
    assert m * b == a;
    assert a * x == b * (m * x);
    assert a * x - b * y == b * (m * x - y);
    if m * x - y != 0.0 {
      assert b * (m * x - y) != 0.0;
    }
  }

  // ---- The fit is the best one ----

  /** The squared error of the line y = a + b * x. */
  function Error(s: seq<Sample>, a: real, b: real): real {
    if s == [] then 0.0 else Error(s[..|s| - 1], a, b) + Sq(Residual(s[|s| - 1], a, b))
  }

  function Residual(p: Sample, a: real, b: real): real {
    p.1 - a - Mul(b, p.0)
  }

  function DevX(s: seq<Sample>, cx: real): real {
    if s == [] then 0.0 else DevX(s[..|s| - 1], cx) + (s[|s| - 1].0 - cx)
  }

  function DevY(s: seq<Sample>, cy: real): real {
    if s == [] then 0.0 else DevY(s[..|s| - 1], cy) + (s[|s| - 1].1 - cy)
  }

  lemma {:induction false} DevXShifts(s: seq<Sample>, x0: real, m: real)
    ensures DevX(s, x0 + m) == SumX(s, x0) - Mul(m, |s| as real)
  {
    if s == [] {
      MulZero(m);
    } else {
      DevXShifts(s[..|s| - 1], x0, m);
      Distribute(m, (|s| - 1) as real, 1.0);
    }
  }

  lemma {:induction false} DevYShifts(s: seq<Sample>, m: real)
    ensures DevY(s, m) == SumY(s) - Mul(m, |s| as real)
  {
    if s == [] {
      MulZero(m);
    } else {
      DevYShifts(s[..|s| - 1], m);
      Distribute(m, (|s| - 1) as real, 1.0);
    }
  }

  /** The deviations from the mean cancel. */
  lemma DeviationsCancel(s: seq<Sample>)
    requires s != []
    ensures DevX(s, Centre(s).0) == 0.0 && DevY(s, Centre(s).1) == 0.0
  {
    var n := |s| as real;
    DevXShifts(s, s[0].0, SumX(s, s[0].0) / n);
    DevYShifts(s, SumY(s) / n);
    Quotient(SumX(s, s[0].0), n);
    Quotient(SumY(s), n);
  }

  /** The signed errors of the line through the centre with slope b. */
  function Slant(d: seq<Sample>, b: real): real {
    if d == [] then 0.0 else Slant(d[..|d| - 1], b) - Off(b, 1.0, d[|d| - 1])
  }

  lemma {:induction false} SlantCancels(s: seq<Sample>, cx: real, cy: real, b: real)
    ensures Slant(Centred(s, cx, cy), b) == DevY(s, cy) - Mul(b, DevX(s, cx))
  {
    if s == [] {
      MulZero(b);
    } else {
      var front, last := s[..|s| - 1], s[|s| - 1];
      SlantCancels(front, cx, cy, b);
      assert Centred(s, cx, cy)[..|s| - 1] == Centred(front, cx, cy);
      Distribute(b, DevX(front, cx), last.0 - cx);
    }
  }

  lemma {:induction false} ErrorSplits(s: seq<Sample>, cx: real, cy: real, a: real, b: real, g: real)
    requires g == cy - a - Mul(b, cx)
    ensures Error(s, a, b) ==
            Quad(Centred(s, cx, cy), b, 1.0) + 2.0 * Mul(g, Slant(Centred(s, cx, cy), b)) + Mul(Sq(g), |s| as real)
  {
    if s == [] {
      MulZero(g);
      MulZero(Sq(g));
    } else {
      var front, last := s[..|s| - 1], s[|s| - 1];
      var d, e := Centred(front, cx, cy), (last.0 - cx, last.1 - cy);
      ErrorSplits(front, cx, cy, a, b, g);
      assert Centred(s, cx, cy) == d + [e] && (d + [e])[..|d|] == d;
      ResidualSplits(last, cx, cy, a, b, g);
      var u, v := Off(b, 1.0, e), Slant(d, b);
      OffsetSquare(g, u);
      Distribute(g, v, -u);
      MulNegate(g, u);
      Distribute(Sq(g), |front| as real, 1.0);
    }
  }

  lemma ResidualSplits(p: Sample, cx: real, cy: real, a: real, b: real, g: real)
    requires g == cy - a - Mul(b, cx)
    ensures Residual(p, a, b) == g - Off(b, 1.0, (p.0 - cx, p.1 - cy))
  {
    Distribute(b, cx, p.0 - cx);
    assert cx + (p.0 - cx) == p.0;
  }

  lemma OffsetSquare(g: real, u: real)
    ensures Sq(g - u) == Sq(g) - 2.0 * Mul(g, u) + Sq(u)
  {
    assert (g - u) * (g - u) == g * g - 2.0 * (g * u) + u * u;
  }

  /** No line has a smaller squared error than the fitted one through the mean. */
  lemma FitIsLeastSquares(s: seq<Sample>, a: real, b: real)
    requires s != [] && Sxx(Deviations(s)) != 0.0
    ensures
      var m := Slope(Deviations(s));
      Error(s, Centre(s).1 - Mul(m, Centre(s).0), m) <= Error(s, a, b)
  {
    var d, m := Deviations(s), Slope(Deviations(s));
    ErrorIsQuad(s, a, b, Centre(s).1 - a - Mul(b, Centre(s).0));
    ErrorIsQuad(s, Centre(s).1 - Mul(m, Centre(s).0), m, 0.0);
    Quotient(Sxy(d), Sxx(d));
    SteeperIsWorse(d, b, m);
  }

  lemma SteeperIsWorse(d: seq<Sample>, b: real, m: real)
    requires Sxx(d) != 0.0 && Mul(m, Sxx(d)) == Sxy(d)
    ensures Quad(d, m, 1.0) <= Quad(d, b, 1.0)
  {
    QuadExpands(d, b, 1.0);
    QuadExpands(d, m, 1.0);
    SquaresAreNonNegative(d);
    BestSlope(Sxx(d), Sxy(d), b, m);
  }

  /** The error is the one of the parallel line through the centre, and more if it is off. */
  lemma ErrorIsQuad(s: seq<Sample>, a: real, b: real, g: real)
    requires s != [] && g == Centre(s).1 - a - Mul(b, Centre(s).0)
    ensures Error(s, a, b) >= Quad(Deviations(s), b, 1.0)
    ensures g == 0.0 ==> Error(s, a, b) == Quad(Deviations(s), b, 1.0)
  {
    DeviationsCancel(s);
    SlantCancels(s, Centre(s).0, Centre(s).1, b);
    MulZero(b);
    ErrorSplits(s, Centre(s).0, Centre(s).1, a, b, g);
    MulZero(g);
    Square(g);
    Product(Sq(g), |s| as real);
    MulZero(|s| as real);
  }

  lemma BestSlope(x: real, z: real, b: real, m: real)
    requires x > 0.0 && Mul(m, x) == z
    ensures Mul(Sq(m), x) - 2.0 * Mul(Mul(m, 1.0), z) <= Mul(Sq(b), x) - 2.0 * Mul(Mul(b, 1.0), z)
  {
    var e := b - m;
    Square(e);
    Product(x, Sq(e));
    assert b * b == m * m + 2.0 * (m * e) + e * e;
    assert (b * b) * x == (m * m) * x + 2.0 * ((m * x) * e) + x * (e * e);
    assert b * z == m * z + e * z;
  }

  // ---- What a projection means ----

  /** Only differences of time count. */
  lemma ShiftInvariant(s: seq<Sample>, c: real, threshold: real, direction: string, minR2: real)
    ensures Project(Shifted(s, c), threshold, direction, minR2) == Project(s, threshold, direction, minR2)
  {
    if |s| >= 2 {
      var t := Shifted(s, c);
      SumsShift(s, c, s[0].0);
      assert Deviations(t) == Deviations(s);
    }
  }

  function Shifted(s: seq<Sample>, c: real): (t: seq<Sample>)
    ensures |t| == |s|
  {
    seq(|s|, i requires 0 <= i < |s| => (s[i].0 + c, s[i].1))
  }

  lemma {:induction false} SumsShift(s: seq<Sample>, c: real, x0: real)
    ensures SumX(Shifted(s, c), x0 + c) == SumX(s, x0) && SumY(Shifted(s, c)) == SumY(s)
  {
    if s != [] {
      SumsShift(s[..|s| - 1], c, x0);
      assert Shifted(s, c)[..|s| - 1] == Shifted(s[..|s| - 1], c);
    }
  }

  ghost predicate OnLine(s: seq<Sample>, a: real, b: real) {
    forall i :: 0 <= i < |s| ==> s[i].1 == a + Mul(b, s[i].0)
  }

  lemma {:induction false} LineDevs(s: seq<Sample>, a: real, b: real, cx: real)
    requires OnLine(s, a, b)
    ensures DevY(s, a + Mul(b, cx)) == Mul(b, DevX(s, cx))
  {
    if s == [] {
      MulZero(b);
    } else {
      var front, x := s[..|s| - 1], s[|s| - 1].0;
      LineDevs(front, a, b, cx);
      Distribute(b, DevX(front, cx), x - cx);
      Distribute(b, x - cx, cx);
      assert x - cx + cx == x;
    }
  }

  /** The mean of samples on a line lies on it. */
  lemma LineThroughCentre(s: seq<Sample>, a: real, b: real)
    requires s != [] && OnLine(s, a, b)
    ensures Centre(s).1 == a + Mul(b, Centre(s).0)
  {
    DeviationsCancel(s);
    LineDevs(s, a, b, Centre(s).0);
    MulZero(b);
    DevYShifts(s, Centre(s).1);
    DevYShifts(s, a + Mul(b, Centre(s).0));
    SameFactor(Centre(s).1, a + Mul(b, Centre(s).0), |s| as real);
  }

  lemma SameFactor(u: real, v: real, n: real)
    requires n > 0.0 && Mul(u, n) == Mul(v, n)
    ensures u == v
  {
    assert (u - v) * n == u * n - v * n;
    ZeroFactor(u - v, n);
  }

  lemma ZeroFactor(x: real, n: real)
    requires n != 0.0
    ensures Mul(x, n) == 0.0 ==> x == 0.0
  {
    if x != 0.0 {
      NonZeroProduct(x, n);
    }
  }

  lemma {:induction false} ProportionalMoments(d: seq<Sample>, b: real)
    requires Through(d, b)
    ensures Sxy(d) == Mul(b, Sxx(d)) && Syy(d) == Mul(Sq(b), Sxx(d))
  {
    if d == [] {
      MulZero(b);
      MulZero(Sq(b));
    } else {
      var front, x := d[..|d| - 1], d[|d| - 1].0;
      ProportionalMoments(front, b);
      Distribute(b, Sxx(front), Sq(x));
      Distribute(Sq(b), Sxx(front), Sq(x));
      assert x * (b * x) == b * (x * x);
      assert (b * x) * (b * x) == (b * b) * (x * x);
    }
  }

  /** On samples that lie on a line the slope is the line's, r2 is 1, and the projection
      succeeds exactly when the line heads for a threshold it has not reached; the line
      then meets the threshold `eta` seconds after the last sample. */
  lemma CollinearIsExact(s: seq<Sample>, a: real, b: real, threshold: real, direction: string, minR2: real)
    requires |s| >= 2 && OnLine(s, a, b) && b != 0.0 && Sxx(Deviations(s)) != 0.0
    ensures Syy(Deviations(s)) != 0.0 && R2(Deviations(s)) == 1.0 && Slope(Deviations(s)) == b
    ensures
      var p, last := Project(s, threshold, direction, minR2), s[|s| - 1];
      (p.ok <==> minR2 <= 1.0 && if direction == "falling" then b < 0.0 && last.1 > threshold else b > 0.0 && last.1 < threshold) &&
      (p.ok ==> p.eta > 0.0 && a + Mul(b, last.0 + p.eta) == threshold)
  {
    CollinearFit(s, a, b);
    var last := s[|s| - 1];
    if Heading(direction, b, last.1, threshold) {
      PositiveQuotient(threshold - last.1, b);
      Quotient(threshold - last.1, b);
      var eta := (threshold - last.1) / b;
      Distribute(b, last.0, eta);
      assert Mul(eta, b) == Mul(b, eta);
    }
  }

  lemma CollinearFit(s: seq<Sample>, a: real, b: real)
    requires |s| >= 2 && OnLine(s, a, b) && b != 0.0 && Sxx(Deviations(s)) != 0.0
    ensures Syy(Deviations(s)) != 0.0 && R2(Deviations(s)) == 1.0 && Slope(Deviations(s)) == b
  {
    var d, cx := Deviations(s), Centre(s).0;
    LineThroughCentre(s, a, b);
    forall i | 0 <= i < |d| ensures d[i].1 == Mul(b, d[i].0) {
      Distribute(b, s[i].0 - cx, cx);
      assert s[i].0 - cx + cx == s[i].0;
    }
    ProportionalMoments(d, b);
    SquaresAreNonNegative(d);
    PerfectRatio(Sxx(d), b);
  }

  lemma PositiveQuotient(x: real, b: real)
    requires (x > 0.0 && b > 0.0) || (x < 0.0 && b < 0.0)
    ensures x / b > 0.0
  {
  }

  lemma PerfectRatio(x: real, b: real)
    requires x > 0.0 && b != 0.0
    ensures SlopeOf(x, Mul(b, x)) == b
    ensures Mul(Sq(b), x) != 0.0
    ensures ShareOf(x, Mul(Sq(b), x), Mul(b, x)) == 1.0
  {
    Quotient(Mul(b, x), x);
    SameFactor(Mul(b, x) / x, b, x);
    Square(b);
    MulPositive(Sq(b), x);
    MulPositive(x, Mul(Sq(b), x));
    assert (b * x) * (b * x) == x * ((b * b) * x);
    RatioWithinOne(Sq(Mul(b, x)), Mul(x, Mul(Sq(b), x)));
  }

  /** r2 is the share of the squared error of the flat line through the mean that the fitted
      line takes away. */
  lemma R2IsExplained(s: seq<Sample>)
    requires s != [] && Sxx(Deviations(s)) != 0.0 && Syy(Deviations(s)) != 0.0
    ensures
      var d, c := Deviations(s), Centre(s);
      Error(s, c.1 - Mul(Slope(d), c.0), Slope(d)) == Mul(1.0 - R2(d), Error(s, c.1, 0.0))
  {
    var d, c := Deviations(s), Centre(s);
    var m := Slope(d);
    hide Error, Quad, Deviations, Centre, ShareOf;
    MulZero(c.0);
    ErrorIsQuad(s, c.1 - Mul(m, c.0), m, 0.0);
    ErrorIsQuad(s, c.1, 0.0, 0.0);
    QuadExpands(d, m, 1.0);
    QuadExpands(d, 0.0, 1.0);
    Quotient(Sxy(d), Sxx(d));
    SquaresAreNonNegative(d);
    FlatQuad(Sxx(d), Syy(d), Sxy(d));
    ExplainedShare(Sxx(d), Syy(d), Sxy(d), m);
  }

  lemma FlatQuad(x: real, y: real, z: real)
    ensures Mul(Sq(0.0), x) - 2.0 * Mul(Mul(0.0, 1.0), z) + Mul(Sq(1.0), y) == y
  {
  }

  lemma ExplainedShare(x: real, y: real, z: real, m: real)
    requires x > 0.0 && y != 0.0 && Mul(m, x) == z
    ensures Mul(Sq(m), x) - 2.0 * Mul(Mul(m, 1.0), z) + Mul(Sq(1.0), y) == Mul(1.0 - ShareOf(x, y, z), y)
  {
    var r, e := ShareOf(x, y, z), m * z;
    NonZeroProduct(x, y);
    Quotient(Sq(z), Mul(x, y));
    assert r * (x * y) == z * z;
    assert (r * y) * x == r * (x * y);
    assert (m * z) * x == z * z;
    SameFactor(r * y, e, x);
    assert (m * m) * x == m * (m * x);
    assert (1.0 - r) * y == y - r * y;
  }

  lemma {:induction false} AllAtOnce(s: seq<Sample>, x0: real, y0: real, cx: real, cy: real)
    ensures (forall i :: 0 <= i < |s| ==> s[i].0 == x0) ==> DevX(s, cx) == Mul(x0 - cx, |s| as real)
    ensures (forall i :: 0 <= i < |s| ==> s[i].1 == y0) ==> DevY(s, cy) == Mul(y0 - cy, |s| as real)
  {
    if s == [] {
      MulZero(x0 - cx);
      MulZero(y0 - cy);
    } else {
      AllAtOnce(s[..|s| - 1], x0, y0, cx, cy);
      Distribute(x0 - cx, (|s| - 1) as real, 1.0);
      Distribute(y0 - cy, (|s| - 1) as real, 1.0);
    }
  }

  lemma {:induction false} NoSpreadIff(d: seq<Sample>)
    ensures Sxx(d) == 0.0 <==> forall i :: 0 <= i < |d| ==> d[i].0 == 0.0
    ensures Syy(d) == 0.0 <==> forall i :: 0 <= i < |d| ==> d[i].1 == 0.0
  {
    if d != [] {
      var front := d[..|d| - 1];
      NoSpreadIff(front);
      SquaresAreNonNegative(front);
      Square(d[|d| - 1].0);
      Square(d[|d| - 1].1);
      assert forall i :: 0 <= i < |d| - 1 ==> front[i] == d[i];
    }
  }

  /** The moments vanish exactly if all samples are of one time, or of one value. */
  lemma FlatIff(s: seq<Sample>)
    requires s != []
    ensures Sxx(Deviations(s)) == 0.0 <==> forall i :: 0 <= i < |s| ==> s[i].0 == s[0].0
    ensures Syy(Deviations(s)) == 0.0 <==> forall i :: 0 <= i < |s| ==> s[i].1 == s[0].1
  {
    var d, c := Deviations(s), Centre(s);
    NoSpreadIff(d);
    DeviationsCancel(s);
    AllAtOnce(s, s[0].0, s[0].1, c.0, c.1);
    assert forall i :: 0 <= i < |s| ==> d[i] == (s[i].0 - c.0, s[i].1 - c.1);
    hide Deviations, Centre, Sxx, Syy;
    if forall i :: 0 <= i < |s| ==> s[i].0 == s[0].0 {
      ZeroFactor(s[0].0 - c.0, |s| as real);
    }
    if forall i :: 0 <= i < |s| ==> s[i].1 == s[0].1 {
      ZeroFactor(s[0].1 - c.1, |s| as real);
    }
  }

  /** A projection succeeds exactly if neither all times nor all values are the same, the fit
      is as good as asked for, and its slope leads from the last value to a threshold that is
      still ahead. The slope then carries the last value there in `eta` seconds. */
  lemma SuccessMeansCrossing(s: seq<Sample>, threshold: real, direction: string, minR2: real)
    ensures
      var p := Project(s, threshold, direction, minR2);
      p.ok <==>
      s != [] && (exists i :: 0 <= i < |s| && s[i].0 != s[0].0) && (exists i :: 0 <= i < |s| && s[i].1 != s[0].1) &&
      Sxx(Deviations(s)) != 0.0 && Syy(Deviations(s)) != 0.0 && R2(Deviations(s)) >= minR2 &&
      if direction == "falling" then Slope(Deviations(s)) < 0.0 && s[|s| - 1].1 > threshold
      else Slope(Deviations(s)) > 0.0 && s[|s| - 1].1 < threshold
    ensures
      var p, d := Project(s, threshold, direction, minR2), if s == [] then [] else Deviations(s);
      p.ok ==> p.eta > 0.0 && minR2 <= p.r2 == R2(d) <= 1.0 && s[|s| - 1].1 + Mul(p.eta, Slope(d)) == threshold
  {
    if s != [] {
      FlatIff(s);
      var d := Deviations(s);
      if Sxx(d) != 0.0 && Syy(d) != 0.0 {
        R2IsAShare(s);
        if Slope(d) != 0.0 {
          Quotient(threshold - s[|s| - 1].1, Slope(d));
          if Heading(direction, Slope(d), s[|s| - 1].1, threshold) {
            PositiveQuotient(threshold - s[|s| - 1].1, Slope(d));
          }
        }
      }
    }
  }

  // ---- Predicted findings ----

  const MIN_SAMPLES := 3
  const REFIRE_TTL: real := 1800.0

  datatype Trend = Trend(playbook: string, threshold: real, direction: string, minR2: real, horizonMinutes: int, fireWithinMinutes: int)

  /** A metric value as the source delivers it; None stands for what it drops: a time that is
      not a number, a value that is not a finite one. */
  datatype Reading = Reading(time: Option<real>, value: Option<real>)

  type Target = (string, string, string)

  datatype Finding = Finding(target: Target, at: real, etaMinutes: real)

  function Clean(rs: seq<Reading>): seq<Sample> {
    if rs == [] then []
    else (if rs[0].time.Some? && rs[0].value.Some? then [(rs[0].time.value, rs[0].value.value)] else []) + Clean(rs[1..])
  }

  lemma CleanStep(rs: seq<Reading>, i: nat)
    requires i < |rs|
    ensures Clean(rs[i..]) ==
            if rs[i].time.None? || rs[i].value.None? then Clean(rs[i + 1..]) else [(rs[i].time.value, rs[i].value.value)] + Clean(rs[i + 1..])
  {
    assert rs[i..][1..] == rs[i + 1..];
  }

  /** math.Round(x * 10) / 10, of a number that is not negative: a half goes up. */
  function Tenths(x: real): (r: real)
    requires x >= 0.0
    ensures r >= 0.0 && x - 0.05 < r <= x + 0.05 && r * 10.0 == (r * 10.0).Floor as real
  {
    var k := (x * 10.0 + 0.5).Floor;
    assert k as real / 10.0 * 10.0 == k as real;
    k as real / 10.0
  }

  class TrendEngine {
    var predictedFired: map<Target, real>

    constructor ()
      ensures predictedFired == map[]
    {
      predictedFired := map[];
    }

    /** A finding is made exactly when three clean samples project to a crossing inside
        both windows and the target has not fired within half an hour. */
    method ProjectSeries(t: Trend, target: Target, rs: seq<Reading>, now: real) returns (f: Option<Finding>)
      modifies this
      ensures
        var p := Project(Clean(rs), t.threshold, t.direction, t.minR2);
        f.Some? <==>
          |Clean(rs)| >= MIN_SAMPLES && p.ok && p.eta <= 60.0 * t.horizonMinutes as real && p.eta <= 60.0 * t.fireWithinMinutes as real &&
          (target in old(predictedFired) ==> now - old(predictedFired)[target] >= REFIRE_TTL)
      ensures f.Some? ==>
        f.value == Finding(target, now, Tenths(Project(Clean(rs), t.threshold, t.direction, t.minR2).eta / 60.0))
      ensures predictedFired == if f.Some? then old(predictedFired)[target := now] else old(predictedFired)
      ensures t.minR2 > 1.0 || t.horizonMinutes <= 0 || t.fireWithinMinutes <= 0 ==> f.None?
    {
      var samples := CleanSamples(rs);
      if |samples| < MIN_SAMPLES {
        return None;
      }
      var p := ProjectETA(samples, t.threshold, t.direction, t.minR2);
      if !p.ok {
        return None;
      }
      SuccessMeansCrossing(samples, t.threshold, t.direction, t.minR2);
      var etaMin := p.eta / 60.0;
      if etaMin <= 0.0 || etaMin > t.horizonMinutes as real || etaMin > t.fireWithinMinutes as real {
        return None;
      }
      if target in predictedFired && now - predictedFired[target] < REFIRE_TTL {
        return None;
      }
      predictedFired := predictedFired[target := now];
      return Some(Finding(target, now, Tenths(etaMin)));
    }

    method CleanSamples(rs: seq<Reading>) returns (out: seq<Sample>)
      ensures out == Clean(rs)
    {
      out := [];
      assert rs[0..] == rs;
      assert Clean(rs[|rs|..]) == [];
      hide Clean;
      for i := 0 to |rs|
        invariant Clean(rs) == out + Clean(rs[i..])
      {
        CleanStep(rs, i);
        if rs[i].time.None? || rs[i].value.None? {
          continue;
        }
        Regroup(out, [(rs[i].time.value, rs[i].value.value)], Clean(rs[i + 1..]));
        out := out + [(rs[i].time.value, rs[i].value.value)];
      }
    }
  }
}
