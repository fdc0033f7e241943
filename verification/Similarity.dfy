/**
 How alike two recommendation candidates are: shared genres, and the cosine of their
 embeddings with a square root by eight Newton steps. Over exact reals.
 */
module Similarity {

  datatype Candidate = Candidate(id: string, relevance: real, genres: seq<string>, seriesId: string, embedding: seq<real>)

  // ---------------------------------------------------------------- square root

  function NewtonStep(x: real, z: real): real
    requires z > 0.0
  {
    (z + x / z) / 2.0
  }

  /** n Newton steps for the root of x, from z. */
  function Newton(x: real, z: real, n: nat): (r: real)
    requires x > 0.0 && z > 0.0
    ensures r > 0.0
  {
    if n == 0 then z else NewtonStep(x, Newton(x, z, n - 1))
  }

  function Steps(): nat { 8 }

  function Sqrt(x: real): (r: real)
    ensures x > 0.0 ==> r > 0.0
  {
    if x <= 0.0 then 0.0 else Newton(x, x, Steps())
  }

  method SqrtLoop(x: real) returns (z: real)
    ensures z == Sqrt(x)
  {
    if x <= 0.0 {
      return 0.0;
    }
    z := x;
    for i := 0 to Steps()
      invariant z > 0.0 && z == Newton(x, x, i)
    {
      z := (z + x / z) / 2.0;
    }
  }

  /** One step misses the root from above, by the square of what it missed before. */
  lemma StepError(x: real, z: real)
    requires x > 0.0 && z > 0.0
    ensures var n := NewtonStep(x, z); n > 0.0 && 4.0 * (z * z) * (n * n - x) == (z * z - x) * (z * z - x) && n * n >= x
  {
    var q := x / z;
    assert q * z == x;
    var n := (z + q) / 2.0;
    assert 4.0 * (n * n) == z * z + 2.0 * (q * z) + q * q;
    assert 4.0 * (n * n - x) == (z - q) * (z - q);
    assert z * (z - q) == z * z - x;
    var d := z - q;
    assert 4.0 * (z * z) * (n * n - x) == (z * z) * (d * d) == (z * d) * (z * d);
    assert d * d >= 0.0;
  }

  /** The computed root is never too small. */
  lemma SqrtNotBelow(x: real)
    requires x > 0.0
    ensures Sqrt(x) > 0.0 && Sqrt(x) * Sqrt(x) >= x
  {
    StepError(x, Newton(x, x, Steps() - 1));
  }

  lemma Scale(k: real, a: real, b: real)
    requires k >= 0.0 && a <= b
    ensures k * a <= k * b
  {
    assert k * (b - a) >= 0.0;
  }

  lemma NonNegative(a: real, b: real)
    requires a >= 0.0 && b >= 0.0
    ensures a * b >= 0.0
  {
  }

  lemma Cancel(k: real, a: real, b: real)
    requires k > 0.0 && k * a <= k * b
    ensures a <= b
  {
    assert a > b ==> k * (a - b) > 0.0;
  }

  lemma ErrorRatio(x: real, d: real, b: real)
    requires x > 0.0 && 0.0 <= d <= b * x && 0.0 <= b
    ensures (d * d) * (1.0 + b) <= (b * b) * (x * (x + d))
  {
    var f, g := b * x - d, b * x + d;
    assert f * g >= 0.0;
    assert b * d >= 0.0;
    assert (b * d) * f >= 0.0;
    assert (b * b) * (x * (x + d)) - (d * d) * (1.0 + b) == f * g + (b * d) * f;
  }

  lemma ErrorShrinks(x: real, d: real, b: real, c: real)
    requires x > 0.0 && 0.0 <= d <= b * x && 0.0 <= b && b * b <= 4.0 * c * (1.0 + b)
    ensures d * d <= 4.0 * c * (x * (x + d))
  {
    var w := x * (x + d);
    assert w >= 0.0;
    ErrorRatio(x, d, b);
    Scale(w, b * b, 4.0 * c * (1.0 + b));
    var k, y := 1.0 + b, 4.0 * c * w;
    assert w * (4.0 * c * k) == k * y;
    assert k * (d * d) <= k * y;
    Cancel(k, d * d, y);
  }

  /** z * z is at least x, with a relative error of at most b. */
  ghost predicate Within(x: real, z: real, b: real) { x <= z * z <= x + b * x }

  /** A relative error of b shrinks to c when b * b <= 4 * c * (1 + b). */
  lemma StepShrinks(x: real, z: real, b: real, c: real)
    requires x > 0.0 && z > 0.0 && 0.0 <= b && b * b <= 4.0 * c * (1.0 + b) && Within(x, z, b)
    ensures Within(x, NewtonStep(x, z), c)
  {
    StepError(x, z);
    var m, s := NewtonStep(x, z) * NewtonStep(x, z), z * z;
    var d := s - x;
    ErrorShrinks(x, d, b, c);
    assert x * (x + d) == s * x;
    assert 4.0 * c * (s * x) == (4.0 * s) * (c * x);
    assert (4.0 * s) * (m - x) <= (4.0 * s) * (c * x);
    Cancel(4.0 * s, m - x, c * x);
  }

  lemma NewtonShrinks(x: real, n: nat, b: real, c: real)
    requires x > 0.0 && 0.0 <= b && b * b <= 4.0 * c * (1.0 + b) && Within(x, Newton(x, x, n), b)
    ensures Within(x, Newton(x, x, n + 1), c)
  {
    StepShrinks(x, Newton(x, x, n), b, c);
  }

  /** Eight steps are plenty between 1/256 and 256: the square of the result is off by a part in 10^12 at most. */
  lemma SqrtAccurate(x: real)
    requires 1.0 / 256.0 <= x <= 256.0
    ensures Within(x, Sqrt(x), 0.000_000_000_001)
  {
    FirstStep(x);
    NewtonShrinks(x, 1, 64.0, 16.0);
    NewtonShrinks(x, 2, 16.0, 4.0);
    NewtonShrinks(x, 3, 4.0, 0.8);
    NewtonShrinks(x, 4, 0.8, 0.09);
    NewtonShrinks(x, 5, 0.09, 0.002);
    NewtonShrinks(x, 6, 0.002, 0.000_001);
    NewtonShrinks(x, 7, 0.000_001, 0.000_000_000_001);
  }

  lemma SelfRatio(x: real)
    requires x > 0.0
    ensures x / x == 1.0
  {
    var q := x / x;
    assert x * q == x * 1.0;
    Cancel(x, q, 1.0);
    Cancel(x, 1.0, q);
  }

  lemma FirstBound(x: real, n: real)
    requires 1.0 / 256.0 <= x <= 256.0 && n + n == x + 1.0
    ensures Within(x, n, 64.0)
  {
    var y := x - 1.0;
    assert 4.0 * (n * n) == (n + n) * (n + n);
    assert (x + 1.0) * (x + 1.0) == y * y + 4.0 * x;
    assert y * y >= 0.0;
    NonNegative(x - 1.0 / 256.0, 256.0 - x);
    assert y * y == x * x - 2.0 * x + 1.0;
  }

  lemma FirstStep(x: real)
    requires 1.0 / 256.0 <= x <= 256.0
    ensures Within(x, Newton(x, x, 1), 64.0)
  {
    SelfRatio(x);
    assert Newton(x, x, 0) == x;
    assert Newton(x, x, 1) == (x + 1.0) / 2.0;
    FirstBound(x, (x + 1.0) / 2.0);
  }

  /** a to the power 2^n. */
  function Squared(a: real, n: nat): real { if n == 0 then a else Square(Squared(a, n - 1)) }

  function Square(a: real): real { a * a }

  /** A step from z squares the ratio of z - r to z + r. */
  lemma StepRatio(x: real, r: real, z: real, a: real, d: real, next: real, a2: real, d2: real)
    requires r > 0.0 && r * r == x && z > 0.0 && (z - r) * a == (z + r) * d
    requires next == NewtonStep(x, z) && a2 == Square(a) && d2 == Square(d)
    ensures (next - r) * a2 == (next + r) * d2
  {
    var q := x / z;
    assert q * z == x;
    var m := (z + q) / 2.0;
    var u, v := (z - r) * a, (z + r) * d;
    assert 2.0 * z * (m - r) == (z - r) * (z - r);
    assert 2.0 * z * (m + r) == (z + r) * (z + r);
    assert 2.0 * z * ((m - r) * (a * a)) == u * u by {
      assert 2.0 * z * ((m - r) * (a * a)) == (2.0 * z * (m - r)) * (a * a);
      assert ((z - r) * (z - r)) * (a * a) == u * u;
    }
    assert 2.0 * z * ((m + r) * (d * d)) == v * v by {
      assert 2.0 * z * ((m + r) * (d * d)) == (2.0 * z * (m + r)) * (d * d);
      assert ((z + r) * (z + r)) * (d * d) == v * v;
    }
    Cancel(2.0 * z, (m - r) * (a * a), (m + r) * (d * d));
    Cancel(2.0 * z, (m + r) * (d * d), (m - r) * (a * a));
  }

  lemma FirstRatio(x: real, r: real)
    requires r * r == x
    ensures (x - r) * (r + 1.0) == (x + r) * (r - 1.0)
  {
    assert x - r == r * (r - 1.0) && x + r == r * (r + 1.0);
    assert (r * (r - 1.0)) * (r + 1.0) == (r * (r + 1.0)) * (r - 1.0);
  }

  ghost predicate Balanced(z: real, r: real, a: real, d: real) { (z - r) * a == (z + r) * d }

  lemma ClosedNext(x: real, r: real, p: real, q: real, n: nat)
    requires x > 0.0 && r > 0.0 && r * r == x && Balanced(Newton(x, x, n), r, Squared(p, n), Squared(q, n))
    ensures Balanced(Newton(x, x, n + 1), r, Squared(p, n + 1), Squared(q, n + 1))
  {
    BalancedNext(x, r, Newton(x, x, n), Squared(p, n), Squared(q, n));
  }

  lemma BalancedNext(x: real, r: real, z: real, a: real, d: real)
    requires r > 0.0 && r * r == x && z > 0.0 && Balanced(z, r, a, d)
    ensures Balanced(NewtonStep(x, z), r, Square(a), Square(d))
  {
    StepRatio(x, r, z, a, d, NewtonStep(x, z), Square(a), Square(d));
  }

  /** The steps in closed form: what they miss of the root r of x. */
  lemma {:induction false} NewtonClosed(x: real, r: real, n: nat)
    requires x > 0.0 && r > 0.0 && r * r == x
    ensures Balanced(Newton(x, x, n), r, Squared(r + 1.0, n), Squared(r - 1.0, n))
  {
    if n == 0 {
      FirstRatio(x, r);
    } else {
      NewtonClosed(x, r, n - 1);
      ClosedNext(x, r, r + 1.0, r - 1.0, n - 1);
    }
  }

  lemma SquareNotNegative(a: real)
    ensures Square(a) >= 0.0
  {
  }

  lemma Positive(a: real, b: real, p: real)
    requires a > 0.0 && b > 0.0 && p == a * b
    ensures p > 0.0
  {
  }

  lemma SquarePositive(a: real)
    requires a > 0.0
    ensures Square(a) > 0.0
  {
    Positive(a, a, Square(a));
  }

  lemma {:induction false} SquaredPositive(a: real, n: nat)
    requires a > 0.0
    ensures Squared(a, n) > 0.0
  {
    if n > 0 {
      SquaredPositive(a, n - 1);
      SquarePositive(Squared(a, n - 1));
    }
  }

  /** With (z - r) a == (z + r) d, a bound on z is one on d and a. */
  lemma RatioBound(z: real, r: real, a: real, d: real, e: real)
    requires z > 0.0 && r > 0.0 && a > 0.0 && d >= 0.0 && e > 0.0 && (z - r) * a == (z + r) * d
    ensures z <= (1.0 + e) * r <==> (2.0 + e) * d <= e * a
  {
    var g := a - d;
    assert z * g == r * (a + d);
    assert r * (a + d) > 0.0;
    assert g > 0.0 by {
      if g <= 0.0 {
        NonNegative(z, 0.0 - g);
      }
    }
    var bound := (1.0 + e) * r;
    assert bound * g == r * ((1.0 + e) * g);
    assert (a + d <= (1.0 + e) * g) <==> (2.0 + e) * d <= e * a by {
      assert (1.0 + e) * g == a - d + e * a - e * d;
    }
    if z <= bound {
      Scale(g, z, bound);
      Cancel(r, a + d, (1.0 + e) * g);
    }
    if a + d <= (1.0 + e) * g {
      Scale(r, a + d, (1.0 + e) * g);
      Cancel(g, z, bound);
    }
  }

  lemma NewtonAccuracy(x: real, r: real, e: real, n: nat)
    requires x > 0.0 && r > 0.0 && r * r == x && e > 0.0 && n > 0
    ensures Newton(x, x, n) <= (1.0 + e) * r <==> (2.0 + e) * Squared(r - 1.0, n) <= e * Squared(r + 1.0, n)
  {
    NewtonClosed(x, r, n);
    SquaredPositive(r + 1.0, n);
    SquareNotNegative(Squared(r - 1.0, n - 1));
    RatioBound(Newton(x, x, n), r, Squared(r + 1.0, n), Squared(r - 1.0, n), e);
  }

  /** How accurate the eight steps are, for every x and its root r: the result exceeds r by a share of at most e if and
      only if (2 + e) (r - 1)^256 <= e (r + 1)^256. It is never below r. */
  lemma SqrtAccuracyExactly(x: real, r: real, e: real)
    requires x > 0.0 && r > 0.0 && r * r == x && e > 0.0
    ensures r <= Sqrt(x)
    ensures Sqrt(x) <= (1.0 + e) * r <==> (2.0 + e) * Squared(r - 1.0, Steps()) <= e * Squared(r + 1.0, Steps())
  {
    NotBelowRoot(x, r);
    NewtonAccuracy(x, r, e, Steps());
  }

  lemma NotBelowRoot(x: real, r: real)
    requires x > 0.0 && r * r == x
    ensures r <= Sqrt(x)
  {
    SqrtNotBelow(x);
    RootOrder(r, Sqrt(x));
  }

  /** A lower bound for every x: the result is at least x / 256, so that for large x it is far above the root. */
  lemma SqrtHalvesAtMost(x: real)
    requires x > 0.0
    ensures Sqrt(x) >= x / 256.0
  {
    NewtonHalves(x, x, Steps());
    assert Pow2(8) == 256.0 by {
      assert Pow2(4) == 16.0;
    }
  }

  function Pow2(n: nat): (r: real)
    ensures r > 0.0
  {
    if n == 0 then 1.0 else 2.0 * Pow2(n - 1)
  }

  lemma {:induction false} NewtonHalves(x: real, z: real, n: nat)
    requires x > 0.0 && z > 0.0
    ensures Newton(x, z, n) >= z / Pow2(n)
  {
    if n > 0 {
      NewtonHalves(x, z, n - 1);
      StepAboveHalf(x, Newton(x, z, n - 1));
      HalfQuotient(z, Pow2(n - 1), Pow2(n));
    }
  }

  lemma StepAboveHalf(x: real, z: real)
    requires x > 0.0 && z > 0.0
    ensures NewtonStep(x, z) >= z / 2.0
  {
    assert x / z > 0.0;
  }

  lemma HalfQuotient(z: real, p: real, q: real)
    requires p > 0.0 && q == 2.0 * p
    ensures z / q == (z / p) / 2.0
  {
    var h := (z / p) / 2.0;
    assert q * h == z;
  }

  // ---------------------------------------------------------------- cosine

  function Dot(a: seq<real>, b: seq<real>): real
    requires |a| == |b|
  {
    if a == [] then 0.0 else Dot(a[..|a| - 1], b[..|b| - 1]) + a[|a| - 1] * b[|b| - 1]
  }

  function Cosine(a: seq<real>, b: seq<real>): real
    requires |a| == |b|
  {
    var na, nb := Dot(a, a), Dot(b, b);
    NormPositive(a);
    NormPositive(b);
    if na == 0.0 || nb == 0.0 then 0.0 else CosineOf(Dot(a, b), na, nb)
  }

  function CosineOf(dot: real, na: real, nb: real): real
    requires na > 0.0 && nb > 0.0
  {
    Quotient(dot, Sqrt(na), Sqrt(nb))
  }

  function Quotient(dot: real, ra: real, rb: real): real
    requires ra > 0.0 && rb > 0.0
  {
    assert ra * rb > 0.0;
    dot / (ra * rb)
  }

  method CosineLoop(a: seq<real>, b: seq<real>) returns (c: real)
    requires |a| == |b|
    ensures c == Cosine(a, b)
  {
    var dot, na, nb := 0.0, 0.0, 0.0;
    for i := 0 to |a|
      invariant dot == Dot(a[..i], b[..i]) && na == Dot(a[..i], a[..i]) && nb == Dot(b[..i], b[..i])
    {
      assert a[..i + 1][..i] == a[..i] && b[..i + 1][..i] == b[..i];
      dot := dot + a[i] * b[i];
      na := na + a[i] * a[i];
      nb := nb + b[i] * b[i];
    }
    assert a[..|a|] == a && b[..|b|] == b;
    if na == 0.0 || nb == 0.0 {
      return 0.0;
    }
    NormPositive(a);
    NormPositive(b);
    c := CosineOfRoots(dot, na, nb);
  }

  method CosineOfRoots(dot: real, na: real, nb: real) returns (c: real)
    requires na > 0.0 && nb > 0.0
    ensures c == CosineOf(dot, na, nb)
  {
    var ra := SqrtLoop(na);
    var rb := SqrtLoop(nb);
    assert ra * rb > 0.0;
    c := dot / (ra * rb);
    assert c == Quotient(dot, ra, rb);
  }

  lemma {:induction false} NormPositive(a: seq<real>)
    ensures Dot(a, a) >= 0.0
  {
    if a != [] {
      NormPositive(a[..|a| - 1]);
      var x := a[|a| - 1];
      assert x * x >= 0.0;
    }
  }

  lemma {:induction false} CauchySchwarz(a: seq<real>, b: seq<real>)
    requires |a| == |b|
    ensures Dot(a, b) * Dot(a, b) <= Dot(a, a) * Dot(b, b)
  {
    if a != [] {
      var p, q := a[..|a| - 1], b[..|b| - 1];
      CauchySchwarz(p, q);
      NormPositive(p);
      NormPositive(q);
      CauchyStep(Dot(p, p), Dot(q, q), Dot(p, q), a[|a| - 1], b[|b| - 1]);
    }
  }

  lemma CauchyStep(m: real, n: real, d: real, x: real, y: real)
    requires m >= 0.0 && n >= 0.0 && d * d <= m * n
    ensures (d + x * y) * (d + x * y) <= (m + x * x) * (n + y * y)
  {
    var u, v, t := m * (y * y), n * (x * x), d * (x * y);
    assert u >= 0.0 && v >= 0.0;
    assert t * t == (d * d) * ((x * y) * (x * y));
    assert u * v == (m * n) * ((x * y) * (x * y));
    assert t * t <= u * v by {
      assert (x * y) * (x * y) >= 0.0;
      Scale((x * y) * (x * y), d * d, m * n);
    }
    MeanAtLeast(u, v, t);
    assert (d + x * y) * (d + x * y) == d * d + 2.0 * t + (x * x) * (y * y);
    assert (m + x * x) * (n + y * y) == m * n + u + v + (x * x) * (y * y);
  }

  lemma RootOrder(a: real, b: real)
    requires 0.0 <= b && a * a <= b * b
    ensures -b <= a <= b
  {
    assert a > b ==> a * (a - b) > 0.0 && b * (a - b) >= 0.0;
    assert a < -b ==> (-a) * (-a - b) > 0.0 && b * (-a - b) >= 0.0;
  }

  /** u + v >= 2t when t * t <= u * v. */
  lemma MeanAtLeast(u: real, v: real, t: real)
    requires u >= 0.0 && v >= 0.0 && t * t <= u * v
    ensures 2.0 * t <= u + v
  {
    var w := u + v;
    assert w * w - 4.0 * (u * v) == (u - v) * (u - v);
    assert (u - v) * (u - v) >= 0.0;
    RootOrder(2.0 * t, w);
  }

  /** The cosine lies between -1 and 1, since the roots below it are never too small. */
  lemma CosineInRange(a: seq<real>, b: seq<real>)
    requires |a| == |b|
    ensures -1.0 <= Cosine(a, b) <= 1.0
  {
    NormPositive(a);
    NormPositive(b);
    CauchySchwarz(a, b);
    if Dot(a, a) != 0.0 && Dot(b, b) != 0.0 {
      CosineOfInRange(Dot(a, b), Dot(a, a), Dot(b, b));
    }
  }

  lemma CosineOfInRange(d: real, m: real, n: real)
    requires m > 0.0 && n > 0.0 && d * d <= m * n
    ensures -1.0 <= CosineOf(d, m, n) <= 1.0
  {
    SqrtNotBelow(m);
    SqrtNotBelow(n);
    RatioInRange(d, m, n, Sqrt(m), Sqrt(n));
  }

  lemma RatioInRange(d: real, m: real, n: real, r: real, s: real)
    requires m > 0.0 && n > 0.0 && r > 0.0 && s > 0.0 && r * r >= m && s * s >= n && d * d <= m * n
    ensures -1.0 <= Quotient(d, r, s) <= 1.0
  {
    var p := r * s;
    assert p > 0.0;
    assert p * p == (r * r) * (s * s);
    Scale(r * r, n, s * s);
    Scale(n, m, r * r);
    RootOrder(d, p);
    var c := d / p;
    assert c * p == d;
    Cancel(p, c, 1.0);
    Cancel(p, -1.0, c);
  }

  // ---------------------------------------------------------------- similarity

  /** How often g occurs in the list. */
  function Times(g: string, gs: seq<string>): nat
  {
    if gs == [] then 0 else Times(g, gs[..|gs| - 1]) + if gs[|gs| - 1] == g then 1 else 0
  }

  /** Equal pairs of genres. */
  function Overlap(a: seq<string>, b: seq<string>): nat
  {
    if a == [] then 0 else Overlap(a[..|a| - 1], b) + Times(a[|a| - 1], b)
  }

  function GenreShare(a: seq<string>, b: seq<string>): real
  {
    Share(Overlap(a, b), Total(a, b))
  }

  /** What the overlap is divided by. */
  function Total(a: seq<string>, b: seq<string>): nat { if |a| + |b| > 1 then |a| + |b| else 1 }

  function Share(overlap: nat, total: nat): real
    requires total > 0
  {
    overlap as real / total as real
  }

  function Similarity(a: Candidate, b: Candidate): real
  {
    if a.seriesId != "" && a.seriesId == b.seriesId then 1.0
    else if |a.embedding| > 0 && |a.embedding| == |b.embedding| then
      0.4 * GenreShare(a.genres, b.genres) + 0.6 * Cosine(a.embedding, b.embedding)
    else GenreShare(a.genres, b.genres)
  }

  method SimilarityOf(a: Candidate, b: Candidate) returns (s: real)
    ensures s == Similarity(a, b)
  {
    if a.seriesId != "" && a.seriesId == b.seriesId {
      return 1.0;
    }
    var overlap := 0;
    for i := 0 to |a.genres|
      invariant overlap == Overlap(a.genres[..i], b.genres)
    {
      assert a.genres[..i + 1][..i] == a.genres[..i];
      for j := 0 to |b.genres|
        invariant overlap == Overlap(a.genres[..i], b.genres) + Times(a.genres[i], b.genres[..j])
      {
        assert b.genres[..j + 1][..j] == b.genres[..j];
        if a.genres[i] == b.genres[j] {
          overlap := overlap + 1;
        }
      }
      assert b.genres[..|b.genres|] == b.genres;
    }
    assert a.genres[..|a.genres|] == a.genres;
    var g := Share(overlap, if |a.genres| + |b.genres| > 1 then |a.genres| + |b.genres| else 1);
    if |a.embedding| > 0 && |a.embedding| == |b.embedding| {
      var c := CosineLoop(a.embedding, b.embedding);
      return 0.4 * g + 0.6 * c;
    }
    return g;
  }

  /** The positions of equal genres in two lists. */
  function EqualPairs(a: seq<string>, b: seq<string>): set<(int, int)>
  {
    set i, j | 0 <= i < |a| && 0 <= j < |b| && a[i] == b[j] :: (i, j)
  }

  lemma {:induction false} TimesCounts(g: string, gs: seq<string>, i: int)
    ensures Times(g, gs) == |set j | 0 <= j < |gs| && gs[j] == g :: (i, j)|
  {
    var all := set j | 0 <= j < |gs| && gs[j] == g :: (i, j);
    if gs == [] {
      assert all == {};
    } else {
      var n := |gs| - 1;
      TimesCounts(g, gs[..n], i);
      var before := set j | 0 <= j < |gs[..n]| && gs[..n][j] == g :: (i, j);
      assert all == before + if gs[n] == g then {(i, n)} else {};
    }
  }

  lemma {:induction false} OverlapCounts(a: seq<string>, b: seq<string>)
    ensures Overlap(a, b) == |EqualPairs(a, b)|
  {
    if a == [] {
      assert EqualPairs(a, b) == {};
    } else {
      var n := |a| - 1;
      OverlapCounts(a[..n], b);
      TimesCounts(a[n], b, n);
      var last := set j | 0 <= j < |b| && b[j] == a[n] :: (n, j);
      assert EqualPairs(a, b) == EqualPairs(a[..n], b) + last;
      assert EqualPairs(a[..n], b) !! last;
    }
  }

  /** What similarity is: 1 within a series; otherwise the equal pairs of genres by the number of genres, which weighs
      0.4 against 0.6 for the cosine where both have embeddings of one length. */
  lemma SimilarityExactly(a: Candidate, b: Candidate)
    ensures var genres := |a.genres| + |b.genres|;
            var share := |EqualPairs(a.genres, b.genres)| as real / (if genres > 1 then genres else 1) as real;
            Similarity(a, b) == if a.seriesId != "" && a.seriesId == b.seriesId then 1.0
                                else if |a.embedding| == |b.embedding| > 0 then
                                  0.4 * share + 0.6 * Cosine(a.embedding, b.embedding)
                                else share
  {
    OverlapCounts(a.genres, b.genres);
  }

  /** The cosine times both computed lengths is the dot product; without a length it is 0. */
  lemma CosineExactly(a: seq<real>, b: seq<real>)
    requires |a| == |b|
    ensures Dot(a, a) > 0.0 && Dot(b, b) > 0.0 ==> Cosine(a, b) * (Sqrt(Dot(a, a)) * Sqrt(Dot(b, b))) == Dot(a, b)
    ensures !(Dot(a, a) > 0.0 && Dot(b, b) > 0.0) ==> Cosine(a, b) == 0.0
  {
    NormPositive(a);
    NormPositive(b);
    if Dot(a, a) > 0.0 && Dot(b, b) > 0.0 {
      QuotientTimes(Dot(a, b), Sqrt(Dot(a, a)), Sqrt(Dot(b, b)));
    }
  }

  lemma QuotientTimes(d: real, r: real, s: real)
    requires r > 0.0 && s > 0.0
    ensures Quotient(d, r, s) * (r * s) == d
  {
    assert r * s > 0.0;
  }

  predicate NoDuplicates(s: seq<string>) { forall i, j :: 0 <= i < j < |s| ==> s[i] != s[j] }

  lemma {:induction false} TimesAtMostOnce(g: string, gs: seq<string>)
    requires NoDuplicates(gs)
    ensures Times(g, gs) <= 1 && (Times(g, gs) == 1 ==> g in gs)
  {
    if gs != [] {
      TimesAtMostOnce(g, gs[..|gs| - 1]);
    }
  }

  lemma {:induction false} OverlapAtMostLeft(a: seq<string>, b: seq<string>)
    requires NoDuplicates(b)
    ensures Overlap(a, b) <= |a|
  {
    if a != [] {
      OverlapAtMostLeft(a[..|a| - 1], b);
      TimesAtMostOnce(a[|a| - 1], b);
    }
  }

  lemma {:induction false} TimesSplit(g: string, a: seq<string>, h: string)
    ensures Times(g, a + [h]) == Times(g, a) + if h == g then 1 else 0
  {
    assert (a + [h])[..|a|] == a;
  }

  lemma {:induction false} OverlapRight(a: seq<string>, b: seq<string>, h: string)
    ensures Overlap(a, b + [h]) == Overlap(a, b) + Times(h, a)
  {
    if a != [] {
      OverlapRight(a[..|a| - 1], b, h);
      TimesSplit(a[|a| - 1], b, h);
    }
  }

  lemma {:induction false} OverlapSymmetric(a: seq<string>, b: seq<string>)
    ensures Overlap(a, b) == Overlap(b, a)
  {
    if b == [] {
      OverlapNone(a);
    } else {
      assert b == b[..|b| - 1] + [b[|b| - 1]];
      OverlapRight(a, b[..|b| - 1], b[|b| - 1]);
      OverlapSymmetric(a, b[..|b| - 1]);
    }
  }

  lemma {:induction false} OverlapNone(a: seq<string>)
    ensures Overlap(a, []) == 0
  {
    if a != [] {
      OverlapNone(a[..|a| - 1]);
    }
  }

  lemma {:induction false} DotSymmetric(a: seq<real>, b: seq<real>)
    requires |a| == |b|
    ensures Dot(a, b) == Dot(b, a)
  {
    if a != [] {
      DotSymmetric(a[..|a| - 1], b[..|b| - 1]);
    }
  }

  /** Similarity does not depend on the order of the two candidates. */
  lemma SimilaritySymmetric(a: Candidate, b: Candidate)
    ensures Similarity(a, b) == Similarity(b, a)
  {
    OverlapSymmetric(a.genres, b.genres);
    if |a.embedding| == |b.embedding| {
      CosineSymmetric(a.embedding, b.embedding);
    }
  }

  lemma CosineSymmetric(a: seq<real>, b: seq<real>)
    requires |a| == |b|
    ensures Cosine(a, b) == Cosine(b, a)
  {
    DotSymmetric(a, b);
    NormPositive(a);
    NormPositive(b);
    var na, nb := Dot(a, a), Dot(b, b);
    if na != 0.0 && nb != 0.0 {
      QuotientSymmetric(Dot(a, b), Sqrt(na), Sqrt(nb));
    }
  }

  lemma QuotientSymmetric(d: real, r: real, s: real)
    requires r > 0.0 && s > 0.0
    ensures Quotient(d, r, s) == Quotient(d, s, r)
  {
    assert r * s == s * r;
  }

  /** Lists without duplicates share at most half of their genres, counted together. */
  lemma GenreShareAtMostHalf(a: seq<string>, b: seq<string>)
    requires NoDuplicates(a) && NoDuplicates(b)
    ensures 0.0 <= GenreShare(a, b) <= 0.5
  {
    OverlapAtMostLeft(a, b);
    OverlapAtMostLeft(b, a);
    OverlapSymmetric(a, b);
    ShareAtMostHalf(Overlap(a, b), Total(a, b));
  }

  lemma ShareAtMostHalf(overlap: nat, total: nat)
    requires total > 0 && 2 * overlap <= total
    ensures 0.0 <= Share(overlap, total) <= 0.5
  {
    var o, m := overlap as real, total as real;
    assert 2.0 * o <= m;
    var q := o / m;
    assert m * q == o;
    Cancel(m, q, 0.5);
    Cancel(m, 0.0, q);
  }

  /** Without duplicate genres: at most 1, reached only within a series, and at least -0.6. */
  lemma SimilarityInRange(a: Candidate, b: Candidate)
    requires NoDuplicates(a.genres) && NoDuplicates(b.genres)
    ensures -0.6 <= Similarity(a, b) <= 1.0
    ensures !(a.seriesId != "" && a.seriesId == b.seriesId) ==> Similarity(a, b) <= 0.8
  {
    GenreShareAtMostHalf(a.genres, b.genres);
    if |a.embedding| == |b.embedding| {
      CosineInRange(a.embedding, b.embedding);
    }
  }

  ghost predicate InRange(a: Candidate, b: Candidate) { -0.6 <= Similarity(a, b) <= 1.0 }

  /** When similarity stays between -0.6 and 1, for every pair of genre lists: whatever the candidates with these lists
      are, exactly if the equal pairs of genres are no more than the genres of both lists together, or 1. */
  lemma InRangeExactly(gs: seq<string>, hs: seq<string>)
    ensures (forall a: Candidate, b: Candidate :: a.genres == gs && b.genres == hs ==> InRange(a, b)) <==>
            Overlap(gs, hs) <= Total(gs, hs)
  {
    ShareAtMostOne(Overlap(gs, hs), Total(gs, hs));
    if Overlap(gs, hs) <= Total(gs, hs) {
      forall a: Candidate, b: Candidate | a.genres == gs && b.genres == hs
        ensures InRange(a, b)
      {
        if |a.embedding| == |b.embedding| {
          CosineInRange(a.embedding, b.embedding);
        }
      }
    } else {
      var a, b := Candidate("a", 0.0, gs, "", []), Candidate("b", 0.0, hs, "", []);
      assert Similarity(a, b) == GenreShare(gs, hs) > 1.0;
      assert !InRange(a, b);
    }
  }

  lemma ShareAtMostOne(overlap: nat, total: nat)
    requires total > 0
    ensures 0.0 <= Share(overlap, total) && (Share(overlap, total) <= 1.0 <==> overlap <= total)
  {
    var o, m := overlap as real, total as real;
    var q := o / m;
    assert m * q == o;
    Cancel(m, 0.0, q);
    if overlap <= total {
      Cancel(m, q, 1.0);
    }
    if q <= 1.0 {
      Scale(m, q, 1.0);
    }
  }

  /** With duplicates the bound is lost: three equal genres on both sides score 1.5. */
  lemma DuplicateGenresExceedOne()
    ensures var c := Candidate("c", 0.0, ["x", "x", "x"], "", []); Similarity(c, c) == 1.5
  {
    var g := ["x", "x", "x"];
    assert g[..2] == ["x", "x"] && g[..2][..1] == ["x"] && g[..1] == ["x"] && g[..1][..0] == [];
    assert Times("x", ["x"]) == 1 && Times("x", ["x", "x"]) == 2 && Times("x", g) == 3;
    assert Overlap(["x"], g) == 3 && Overlap(["x", "x"], g) == 6 && Overlap(g, g) == 9;
  }
}
