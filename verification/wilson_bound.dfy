/** The one-sided Wilson score bound (wilson in internal/autonomy/stats.go), with exact
    reals. The square root is any function that gives non-negative square roots. */
module WilsonBound {

  const Z95: real := 1.6448536269514722

  type SqrtFn = real -> real

  predicate IsRoot(r: real, x: real) { r >= 0.0 && r * r == x }

  ghost predicate SquareRoots(sqrt: SqrtFn) {
    forall x :: x >= 0.0 ==> IsRoot(sqrt(x), x)
  }

  function Max(a: real, b: real): real { if a >= b then a else b }

  /** wilson: the bound for a share of successes, 0 without trials. */
  function Wilson(successes: real, n: real, z: real, sqrt: SqrtFn): real {
    if n <= 0.0 then 0.0
    else
      var phat := successes / n;
      var denom := 1.0 + z * z / n;
      var center := phat + z * z / (2.0 * n);
      Max(0.0, (center - Margin(phat, n, z, sqrt)) / denom)
  }

  function Margin(phat: real, n: real, z: real, sqrt: SqrtFn): real
    requires n > 0.0
  {
    z * sqrt((phat * (1.0 - phat) + z * z / (4.0 * n)) / n)
  }

  // ---- The score equation ----

  /** How far the share x is refuted by an observed share p, where q is z squared over n.
      It is zero where (p-x)^2 = z^2 x (1-x) / n, and above zero where x is too far off. */
  function Excess(p: real, q: real, x: real): real {
    (p - x) * (p - x) - q * (x * (1.0 - x))
  }

  /** Completing the square. */
  lemma ExcessAsSquares(p: real, q: real, m: real, y: real)
    requires m * m == q * (p * (1.0 - p) + q / 4.0)
    ensures var u := p + q / 2.0 - (1.0 + q) * y; (1.0 + q) * Excess(p, q, y) == u * u - m * m
  {
    var u := p + q / 2.0 - (1.0 + q) * y;
    var c := p + q / 2.0;
    assert c * c - (1.0 + q) * (p * p) == m * m;
    var w := (1.0 + q) * y;
    assert u * u == c * c - 2.0 * (c * w) + w * w;
    assert (1.0 + q) * Excess(p, q, y) == w * w - 2.0 * (c * w) + (1.0 + q) * (p * p) by {
      ExcessExpanded(p, q, y);
    }
  }

  lemma ExcessExpanded(p: real, q: real, y: real)
    ensures (1.0 + q) * Excess(p, q, y) ==
            ((1.0 + q) * y) * ((1.0 + q) * y) - 2.0 * ((p + q / 2.0) * ((1.0 + q) * y)) + (1.0 + q) * (p * p)
  {
    assert Excess(p, q, y) == (1.0 + q) * (y * y) - (2.0 * p + q) * y + p * p;
  }

  lemma SignOfProduct(a: real, b: real)
    requires a > 0.0
    ensures a * b > 0.0 <==> b > 0.0
    ensures a * b == 0.0 <==> b == 0.0
  {
  }

  lemma SquaresInOrder(u: real, m: real)
    requires m >= 0.0 && u >= -m
    ensures u * u > m * m <==> u > m
    ensures u * u == m * m <==> u == m || u == -m
  {
    assert u * u - m * m == (u - m) * (u + m);
  }

  lemma NonNegativeProduct(a: real, b: real)
    requires a >= 0.0 && b >= 0.0
    ensures a * b >= 0.0
  {
    if a == 0.0 {
      assert a * b == 0.0;
    } else {
      SignOfProduct(a, b);
    }
  }

  lemma SquaresOrder(a: real, b: real)
    requires a >= 0.0 && b >= 0.0
    ensures a < b <==> a * a < b * b
  {
    assert b * b - a * a == (b - a) * (b + a);
    if a < b {
      SignOfProduct(b + a, b - a);
    } else {
      NonNegativeProduct(a - b, a + b);
      assert a * a - b * b == (a - b) * (a + b);
    }
  }

  /** What the square root of the bound must be. */
  predicate MarginOf(p: real, q: real, m: real) {
    m >= 0.0 && m * m == q * (p * (1.0 - p) + q / 4.0)
  }

  lemma ExcessAtShare(p: real, q: real, m: real)
    requires 0.0 <= p <= 1.0 && q >= 0.0 && MarginOf(p, q, m)
    ensures q / 2.0 - q * p >= -m
  {
    var u := q / 2.0 - q * p;
    assert m * m - u * u == (q * (p * (1.0 - p))) * (1.0 + q) by {
      assert u * u == q * q / 4.0 - q * q * p + q * q * (p * p);
    }
    NonNegativeProduct(p, 1.0 - p);
    NonNegativeProduct(q, p * (1.0 - p));
    NonNegativeProduct(q * (p * (1.0 - p)), 1.0 + q);
    if u < 0.0 {
      SquaresOrder(m, -u);
    }
  }

  lemma ShareSide(p: real, q: real, m: real, y: real)
    requires 0.0 <= p <= 1.0 && q >= 0.0 && MarginOf(p, q, m) && y <= p
    ensures p + q / 2.0 - (1.0 + q) * y >= -m
  {
    ExcessAtShare(p, q, m);
    NonNegativeProduct(1.0 + q, p - y);
    assert p + q / 2.0 - (1.0 + q) * y == q / 2.0 - q * p + (1.0 + q) * (p - y);
  }

  /** A share up to p is below (p + q/2 - m) / (1 + q) exactly if it is refuted. */
  lemma LowerRoot(p: real, q: real, m: real, x: real, y: real)
    requires 0.0 <= p <= 1.0 && q >= 0.0 && MarginOf(p, q, m)
    requires (1.0 + q) * x == p + q / 2.0 - m && y <= p
    ensures y < x <==> Excess(p, q, y) > 0.0
    ensures y == x ==> Excess(p, q, y) == 0.0
  {
    var u := p + q / 2.0 - (1.0 + q) * y;
    ShareSide(p, q, m, y);
    ExcessAsSquares(p, q, m, y);
    SquaresInOrder(u, m);
    SignOfProduct(1.0 + q, Excess(p, q, y));
    var gap := x - y;
    assert (1.0 + q) * gap == u - m by {
      assert (1.0 + q) * gap == (1.0 + q) * x - (1.0 + q) * y;
    }
    SignOfProduct(1.0 + q, gap);
    assert y < x <==> u > m;
  }

  lemma LowerRootAtMostShare(p: real, q: real, m: real, x: real)
    requires 0.0 <= p <= 1.0 && q >= 0.0 && MarginOf(p, q, m)
    requires (1.0 + q) * x == p + q / 2.0 - m
    ensures x <= p
  {
    ExcessAtShare(p, q, m);
    var gap := x - p;
    assert (1.0 + q) * gap == (q / 2.0 - q * p) * 1.0 - m by {
      assert (1.0 + q) * gap == (1.0 + q) * x - (1.0 + q) * p;
    }
    ExcessAtShareAbove(p, q, m);
    SignOfProduct(1.0 + q, gap);
  }

  lemma ExcessAtShareAbove(p: real, q: real, m: real)
    requires 0.0 <= p <= 1.0 && q >= 0.0 && MarginOf(p, q, m)
    ensures q / 2.0 - q * p <= m
  {
    ExcessAtShare(1.0 - p, q, m);
  }

  lemma LowerRootNotNegative(p: real, q: real, m: real, x: real)
    requires 0.0 <= p <= 1.0 && q >= 0.0 && MarginOf(p, q, m)
    requires (1.0 + q) * x == p + q / 2.0 - m
    ensures x >= 0.0
  {
    var c := p + q / 2.0;
    assert c * c - m * m == (1.0 + q) * (p * p);
    NonNegativeProduct(p, p);
    NonNegativeProduct(1.0 + q, p * p);
    SquaresOrder(c, m);
    var gap := -x;
    assert (1.0 + q) * gap == m - c by {
      assert (1.0 + q) * gap == -((1.0 + q) * x);
    }
    SignOfProduct(1.0 + q, gap);
  }

  // ---- The bound ----

  /** The trials a bound is asked for, as all callers give them. */
  predicate Counts(successes: real, n: real) { n > 0.0 && 0.0 <= successes <= n }

  /** z squared over n, the weight of the prior in the bound. */
  function Weight(n: real, z: real): real
    requires n > 0.0
  {
    z * z / n
  }

  lemma Quotient(a: real, b: real)
    requires b > 0.0
    ensures b * (a / b) == a
  {
  }

  lemma ShareInRange(successes: real, n: real)
    requires Counts(successes, n)
    ensures 0.0 <= successes / n <= 1.0
  {
    var p := successes / n;
    Quotient(successes, n);
    SignOfProduct(n, -p);
    SignOfProduct(n, p - 1.0);
    assert n * (-p) == -successes && n * (p - 1.0) == successes - n;
  }

  lemma WeightNotNegative(n: real, z: real)
    requires n > 0.0
    ensures Weight(n, z) >= 0.0
  {
    var q := z * z / n;
    Quotient(z * z, n);
    SignOfProduct(n, -q);
    assert n * (-q) == -(z * z);
    if z >= 0.0 { NonNegativeProduct(z, z); } else { NonNegativeProduct(-z, -z); }
  }

  lemma QuarterWeight(n: real, z: real)
    requires n > 0.0
    ensures z * z / (4.0 * n) == Weight(n, z) / 4.0 && z * z / (2.0 * n) == Weight(n, z) / 2.0
  {
  }

  lemma QuotientNotNegative(a: real, b: real)
    requires a >= 0.0 && b > 0.0
    ensures a / b >= 0.0
  {
    var r := a / b;
    Quotient(a, b);
    SignOfProduct(b, -r);
    assert b * (-r) == -a;
  }

  lemma SquareOfMargin(z: real, r: real, a: real, n: real)
    requires n > 0.0 && r * r == a / n
    ensures (z * r) * (z * r) == Weight(n, z) * a
  {
    assert (z * r) * (z * r) == (z * z) * (r * r);
    var k := z * z;
    assert k * (a / n) == (k / n) * a;
  }

  lemma MarginIsMargin(p: real, n: real, z: real, sqrt: SqrtFn)
    requires SquareRoots(sqrt) && 0.0 <= p <= 1.0 && n > 0.0 && z >= 0.0
    ensures MarginOf(p, Weight(n, z), Margin(p, n, z, sqrt))
  {
    var q := Weight(n, z);
    var a := p * (1.0 - p) + q / 4.0;
    QuarterWeight(n, z);
    WeightNotNegative(n, z);
    NonNegativeProduct(p, 1.0 - p);
    QuotientNotNegative(a, n);
    var r := sqrt(a / n);
    assert IsRoot(r, a / n);
    SquareOfMargin(z, r, a, n);
    NonNegativeProduct(z, r);
  }

  /** l is the lower root for the share p, the weight q and the margin m. */
  predicate IsLower(p: real, q: real, m: real, l: real) {
    0.0 <= l <= p && (1.0 + q) * l == p + q / 2.0 - m
  }

  lemma BoundIsLower(successes: real, n: real, z: real, sqrt: SqrtFn)
    requires Counts(successes, n) && 0.0 <= successes / n <= 1.0 && Weight(n, z) >= 0.0
    requires MarginOf(successes / n, Weight(n, z), Margin(successes / n, n, z, sqrt))
    ensures IsLower(successes / n, Weight(n, z), Margin(successes / n, n, z, sqrt), Wilson(successes, n, z, sqrt))
  {
    var p, q, m := successes / n, Weight(n, z), Margin(successes / n, n, z, sqrt);
    assert Wilson(successes, n, z, sqrt) == Max(0.0, (p + q / 2.0 - m) / (1.0 + q)) by {
      QuarterWeight(n, z);
    }
    ClampIsIdle(p, q, m, Wilson(successes, n, z, sqrt));
  }

  /** The bound lies between 0 and the share of successes, and the clamp at 0 never acts. */
  lemma BoundInRange(successes: real, n: real, z: real, sqrt: SqrtFn)
    requires SquareRoots(sqrt) && Counts(successes, n) && z >= 0.0
    ensures Weight(n, z) >= 0.0 && IsLower(successes / n, Weight(n, z), Margin(successes / n, n, z, sqrt), Wilson(successes, n, z, sqrt))
  {
    ShareInRange(successes, n);
    WeightNotNegative(n, z);
    MarginIsMargin(successes / n, n, z, sqrt);
    BoundIsLower(successes, n, z, sqrt);
  }

  lemma ClampIsIdle(p: real, q: real, m: real, l: real)
    requires 0.0 <= p <= 1.0 && q >= 0.0 && MarginOf(p, q, m)
    requires l == Max(0.0, (p + q / 2.0 - m) / (1.0 + q))
    ensures IsLower(p, q, m, l)
  {
    var x := (p + q / 2.0 - m) / (1.0 + q);
    Quotient(p + q / 2.0 - m, 1.0 + q);
    LowerRootNotNegative(p, q, m, x);
    LowerRootAtMostShare(p, q, m, x);
  }

  // ---- One more trial ----

  /** z^2 y (1-y), the spread that a share y allows. */
  function Spread(z: real, y: real): real { (z * z) * (y * (1.0 - y)) }

  /** The excess over the whole sample, without divisions. */
  function Scaled(successes: real, n: real, z: real, y: real): real {
    (successes - n * y) * (successes - n * y) - n * Spread(z, y)
  }

  lemma ScaledIsExcess(p: real, q: real, n: real, z: real, y: real)
    requires n * q == z * z
    ensures (n * n) * Excess(p, q, y) == Scaled(n * p, n, z, y)
  {
    var c := y * (1.0 - y);
    ScaleSquare(n, p, y);
    assert (n * n) * (q * c) == n * ((n * q) * c);
  }

  lemma ScaleSquare(n: real, p: real, y: real)
    ensures (n * n) * ((p - y) * (p - y)) == (n * p - n * y) * (n * p - n * y)
  {
    var d := p - y;
    assert n * p - n * y == n * d;
    assert (n * n) * (d * d) == (n * d) * (n * d);
  }

  /** Whether a share y is refuted: the observed share is above it by too much. */
  predicate Refuted(successes: real, n: real, z: real, y: real) {
    Scaled(successes, n, z, y) > 0.0
  }

  predicate Below(y: real, successes: real, n: real) { n * y <= successes }

  /** l is the least share that these trials do not refute. */
  ghost predicate LeastShare(l: real, successes: real, n: real, z: real) {
    0.0 <= l <= 1.0 && Below(l, successes, n) && Scaled(successes, n, z, l) == 0.0 &&
    forall y :: Below(y, successes, n) ==> (y < l <==> Refuted(successes, n, z, y))
  }

  lemma LeastShareAt(p: real, q: real, n: real, z: real, m: real, l: real, y: real)
    requires n > 0.0 && 0.0 <= p <= 1.0 && q >= 0.0 && n * q == z * z && MarginOf(p, q, m) && IsLower(p, q, m, l)
    ensures Below(y, n * p, n) <==> y <= p
    ensures y <= p ==> (y < l <==> Refuted(n * p, n, z, y))
    ensures y == l ==> Scaled(n * p, n, z, y) == 0.0
  {
    var gap := y - p;
    SignOfProduct(n, gap);
    assert n * gap == n * y - n * p;
    if y <= p {
      LowerRoot(p, q, m, l, y);
      ScaledIsExcess(p, q, n, z, y);
      SignOfProduct(n, n);
      SignOfProduct(n * n, Excess(p, q, y));
    }
  }

  /** l is the lower root for the share p and the weight q of these trials. */
  predicate Fits(successes: real, n: real, z: real, p: real, q: real, m: real, l: real) {
    n > 0.0 && 0.0 <= p <= 1.0 && q >= 0.0 && n * p == successes && n * q == z * z && MarginOf(p, q, m) && IsLower(p, q, m, l)
  }

  lemma BoundFits(successes: real, n: real, z: real, sqrt: SqrtFn)
    requires SquareRoots(sqrt) && Counts(successes, n) && z >= 0.0
    ensures Fits(successes, n, z, successes / n, Weight(n, z), Margin(successes / n, n, z, sqrt), Wilson(successes, n, z, sqrt))
  {
    var p, q, m, l := successes / n, Weight(n, z), Margin(successes / n, n, z, sqrt), Wilson(successes, n, z, sqrt);
    assert IsLower(p, q, m, l) && q >= 0.0 by { BoundInRange(successes, n, z, sqrt); }
    assert MarginOf(p, q, m) && 0.0 <= p <= 1.0 by {
      ShareInRange(successes, n);
      MarginIsMargin(p, n, z, sqrt);
    }
    Collect(successes, n, z, p, q, m, l);
  }

  lemma Collect(successes: real, n: real, z: real, p: real, q: real, m: real, l: real)
    requires n > 0.0 && 0.0 <= p <= 1.0 && q >= 0.0 && MarginOf(p, q, m) && IsLower(p, q, m, l)
    requires p == successes / n && q == z * z / n
    ensures Fits(successes, n, z, p, q, m, l)
  {
    Quotient(successes, n);
    Quotient(z * z, n);
  }

  /** The bound solves (p-x)^2 = z^2 x (1-x) / n, and it is the lower solution: a share up
      to p is below the bound exactly if the trials refute it. */
  lemma BoundIsLowerRoot(successes: real, n: real, z: real, sqrt: SqrtFn, y: real)
    requires SquareRoots(sqrt) && Counts(successes, n) && z >= 0.0 && y <= successes / n
    ensures Excess(successes / n, Weight(n, z), Wilson(successes, n, z, sqrt)) == 0.0
    ensures y < Wilson(successes, n, z, sqrt) <==> Excess(successes / n, Weight(n, z), y) > 0.0
  {
    BoundFits(successes, n, z, sqrt);
    FittedIsLowerRoot(successes, n, z, successes / n, Weight(n, z), Margin(successes / n, n, z, sqrt), Wilson(successes, n, z, sqrt), y);
  }

  lemma FittedIsLowerRoot(successes: real, n: real, z: real, p: real, q: real, m: real, l: real, y: real)
    requires Fits(successes, n, z, p, q, m, l) && y <= p
    ensures Excess(p, q, l) == 0.0
    ensures y < l <==> Excess(p, q, y) > 0.0
  {
    LowerRoot(p, q, m, l, l);
    LowerRoot(p, q, m, l, y);
  }

  lemma LowerIsLeastShare(successes: real, p: real, q: real, n: real, z: real, m: real, l: real)
    requires Fits(successes, n, z, p, q, m, l)
    ensures LeastShare(l, successes, n, z)
  {
    LeastShareAt(p, q, n, z, m, l, l);
    forall y {:trigger Refuted(successes, n, z, y)} | Below(y, successes, n)
      ensures y < l <==> Refuted(successes, n, z, y)
    {
      LeastShareAt(p, q, n, z, m, l, y);
    }
  }

  /** The bound is the least share of successes that the trials do not refute at z. */
  lemma BoundIsLeastShare(successes: real, n: real, z: real, sqrt: SqrtFn)
    requires SquareRoots(sqrt) && Counts(successes, n) && z >= 0.0
    ensures LeastShare(Wilson(successes, n, z, sqrt), successes, n, z)
  {
    BoundFits(successes, n, z, sqrt);
    LowerIsLeastShare(successes, successes / n, Weight(n, z), n, z, Margin(successes / n, n, z, sqrt), Wilson(successes, n, z, sqrt));
  }

  lemma NotRefutedByPerfect(n: real, z: real, k: real, g: real)
    requires n > 0.0 && k == z * z && (k + n) * g == k
    ensures !Refuted(n, n, z, 1.0 - g)
  {
    var y := 1.0 - g;
    assert n - n * y == n * g;
    assert k * y == k - k * g == n * g;
    assert Spread(z, y) == (k * y) * g by {
      assert 1.0 - y == g;
      assert k * (y * g) == (k * y) * g;
    }
    assert n * Spread(z, y) == (n * g) * (n * g) by {
      assert n * ((n * g) * g) == (n * g) * (n * g);
    }
  }

  lemma LeastShareBelowOne(l: real, successes: real, n: real, z: real)
    requires n > 0.0 && successes <= n && z > 0.0 && LeastShare(l, successes, n, z)
    ensures l < 1.0
  {
    if successes == n {
      // A flawless record does not refute a share just below one.
      SignOfProduct(z, z);
      var k := z * z;
      var g := k / (k + n);
      Quotient(k, k + n);
      SignOfProduct(k + n, g);
      NotRefutedByPerfect(n, z, k, g);
      SignOfProduct(n, g);
      assert n * (1.0 - g) == n - n * g;
      assert Below(1.0 - g, successes, n);
    } else {
      SignOfProduct(n, 1.0 - l);
      assert n * (1.0 - l) == n - n * l;
    }
  }

  lemma SuccessExcess(d: real, n: real, k: real, w: real)
    requires n > 0.0 && w > 0.0 && 0.0 <= d <= n * w && d * d == n * k
    ensures (d + w) * (d + w) > (n + 1.0) * k
  {
    NonNegativeProduct(d, n * w - d);
    assert d * (n * w - d) == n * (d * w - k);
    SignOfProduct(n, k - d * w);
    assert n * (k - d * w) == -(n * (d * w - k));
    assert k <= d * w;
    NonNegativeProduct(d, w);
    SignOfProduct(w, w);
    assert (d + w) * (d + w) == d * d + 2.0 * (d * w) + w * w;
  }

  lemma SuccessRefutes(l: real, successes: real, n: real, z: real)
    requires n > 0.0 && successes <= n && l < 1.0 && Below(l, successes, n) && Scaled(successes, n, z, l) == 0.0
    ensures Below(l, successes + 1.0, n + 1.0) && Refuted(successes + 1.0, n + 1.0, z, l)
  {
    var w, d, k := 1.0 - l, successes - n * l, Spread(z, l);
    assert n * w == n - n * l;
    SuccessExcess(d, n, k, w);
    assert (n + 1.0) * l == n * l + l;
    assert successes + 1.0 - (n + 1.0) * l == d + w;
  }

  lemma SuccessRaisesLeast(l: real, l1: real, successes: real, n: real, z: real)
    requires n > 0.0 && successes <= n && z > 0.0
    requires LeastShare(l, successes, n, z) && LeastShare(l1, successes + 1.0, n + 1.0, z)
    ensures l < l1
  {
    LeastShareBelowOne(l, successes, n, z);
    SuccessRefutes(l, successes, n, z);
  }

  /** One more success raises the bound. */
  lemma SuccessRaisesBound(successes: real, n: real, z: real, sqrt: SqrtFn)
    requires SquareRoots(sqrt) && Counts(successes, n) && z > 0.0
    ensures Wilson(successes, n, z, sqrt) < Wilson(successes + 1.0, n + 1.0, z, sqrt)
  {
    BoundIsLeastShare(successes, n, z, sqrt);
    BoundIsLeastShare(successes + 1.0, n + 1.0, z, sqrt);
    SuccessRaisesLeast(Wilson(successes, n, z, sqrt), Wilson(successes + 1.0, n + 1.0, z, sqrt), successes, n, z);
  }

  lemma FailureExcess(d: real, n: real, k: real, y: real)
    requires n > 0.0 && y > 0.0 && d >= 0.0 && k >= 0.0 && d * d == (n + 1.0) * k
    ensures (d + y) * (d + y) > n * k
  {
    assert (d + y) * (d + y) == d * d + 2.0 * (d * y) + y * y;
    assert (n + 1.0) * k == n * k + k;
    NonNegativeProduct(d, y);
    SignOfProduct(y, y);
  }

  lemma LeastIsPositive(l: real, successes: real, n: real, z: real)
    requires n > 0.0 && successes >= 0.0 && LeastShare(l, successes, n, z)
    ensures l > 0.0 <==> successes > 0.0
  {
    assert Scaled(successes, n, z, 0.0) == successes * successes;
    assert Below(0.0, successes, n);
    if successes > 0.0 {
      SignOfProduct(successes, successes);
      assert Refuted(successes, n, z, 0.0);
    }
  }

  /** The bound is above 0 exactly if something succeeded. */
  lemma BoundIsPositive(successes: real, n: real, z: real, sqrt: SqrtFn)
    requires SquareRoots(sqrt) && Counts(successes, n) && z >= 0.0
    ensures Wilson(successes, n, z, sqrt) > 0.0 <==> successes > 0.0
  {
    BoundIsLeastShare(successes, n, z, sqrt);
    LeastIsPositive(Wilson(successes, n, z, sqrt), successes, n, z);
  }

  lemma SpreadNotNegative(z: real, y: real)
    requires 0.0 <= y <= 1.0
    ensures Spread(z, y) >= 0.0
  {
    NonNegativeProduct(y, 1.0 - y);
    if z >= 0.0 { NonNegativeProduct(z, z); } else { NonNegativeProduct(-z, -z); }
    NonNegativeProduct(z * z, y * (1.0 - y));
  }

  lemma FailureRefutes(l: real, successes: real, n: real, z: real)
    requires n > 0.0 && 0.0 < l <= 1.0 && Below(l, successes, n + 1.0) && Scaled(successes, n + 1.0, z, l) == 0.0
    ensures Below(l, successes, n) && Refuted(successes, n, z, l)
  {
    var d, k := successes - (n + 1.0) * l, Spread(z, l);
    SpreadNotNegative(z, l);
    FailureExcess(d, n, k, l);
    assert (n + 1.0) * l == n * l + l;
    assert successes - n * l == d + l;
  }

  lemma FailureLowersLeast(l: real, l1: real, successes: real, n: real, z: real)
    requires n > 0.0 && successes > 0.0
    requires LeastShare(l, successes, n, z) && LeastShare(l1, successes, n + 1.0, z)
    ensures l1 < l
  {
    LeastIsPositive(l1, successes, n + 1.0, z);
    FailureRefutes(l1, successes, n, z);
  }

  /** One more failure lowers the bound, or leaves it at 0 if nothing succeeded. */
  lemma FailureLowersBound(successes: real, n: real, z: real, sqrt: SqrtFn)
    requires SquareRoots(sqrt) && Counts(successes, n) && z >= 0.0
    ensures successes > 0.0 ==> Wilson(successes, n + 1.0, z, sqrt) < Wilson(successes, n, z, sqrt)
    ensures successes == 0.0 ==> Wilson(successes, n + 1.0, z, sqrt) == Wilson(successes, n, z, sqrt) == 0.0
  {
    BoundIsLeastShare(successes, n, z, sqrt);
    BoundIsLeastShare(successes, n + 1.0, z, sqrt);
    LeastIsPositive(Wilson(successes, n, z, sqrt), successes, n, z);
    LeastIsPositive(Wilson(successes, n + 1.0, z, sqrt), successes, n + 1.0, z);
    if successes > 0.0 {
      FailureLowersLeast(Wilson(successes, n, z, sqrt), Wilson(successes, n + 1.0, z, sqrt), successes, n, z);
    }
  }

  /** The bound of a flawless record of n is n / (n + z^2). */
  lemma FlawlessBound(n: real, z: real, sqrt: SqrtFn)
    requires SquareRoots(sqrt) && n > 0.0 && z >= 0.0
    ensures Wilson(n, n, z, sqrt) * (n + z * z) == n
  {
    BoundFits(n, n, z, sqrt);
    FlawlessRoot(n, z, n / n, Weight(n, z), Margin(n / n, n, z, sqrt), Wilson(n, n, z, sqrt));
  }

  lemma FlawlessRoot(n: real, z: real, p: real, q: real, m: real, l: real)
    requires Fits(n, n, z, p, q, m, l)
    ensures l * (n + z * z) == n
  {
    SignOfProduct(n, p - 1.0);
    assert n * (p - 1.0) == n * p - n;
    var h := q / 2.0;
    assert h * h == m * m;
    SquaresInOrder(h, m);
    SquaresInOrder(m, h);
    assert n * ((1.0 + q) * l) == l * (n + n * q);
  }
}
