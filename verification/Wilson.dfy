/** The Wilson lower bound a rule's proof sample must clear, over real numbers with the square root given by
    its defining equation. */
module Wilson {
  import opened Prelude

  const TOLERANCE: real := 0.00001

  datatype Refusal = InvalidSample | NotReproduced | BelowBar

  /** The number whose square root the bound takes. */
  function Radicand(correct: int, n: int, z: real): real
    requires n >= 1
  {
    Spread(Share(correct, n), n as real, z * z)
  }

  function Spread(p: real, n: real, w: real): real
    requires n > 0.0
  {
    p * (1.0 - p) / n + w / (4.0 * n) / n
  }

  function Share(correct: int, n: int): real
    requires n >= 1
  {
    correct as real / n as real
  }

  predicate IsRoot(s: real, x: real) {
    s >= 0.0 && s * s == x
  }

  predicate Sample(correct: int, n: int) {
    0 <= correct <= n && n >= 1
  }

  /** `wilson_lower_bound`, with `s` the square root it takes. */
  function LowerBound(correct: int, n: int, z: real, s: real): Result<real, Refusal>
    requires Sample(correct, n) ==> IsRoot(s, Radicand(correct, n, z))
  {
    if !Sample(correct, n) then Err(InvalidSample)
    else
      Ok(Bound(n, z, Share(correct, n), s))
  }

  function Bound(n: int, z: real, p: real, s: real): real
    requires n >= 1
  {
    var centre := p + z * z / (2.0 * n as real);
    Squared(z);
    assert z * z / n as real >= 0.0;
    (centre - z * s) / (1.0 + z * z / n as real)
  }

  lemma Squared(z: real)
    ensures z * z >= 0.0
  {
    if z < 0.0 {
      assert z * z == (-z) * (-z);
    }
  }

  // --- The quadratic: with k = z^2 / n, the bound solves (1 + k) x^2 - (2 p + k) x + p^2 = 0 -----------------------

  /** A share p, a weight k, and d with d^2 the quarter discriminant. */
  predicate Setting(p: real, k: real, d: real) {
    0.0 <= p <= 1.0 && k >= 0.0 && d >= 0.0 && d * d == (p + k / 2.0) * (p + k / 2.0) - (1.0 + k) * (p * p)
  }

  function Quadratic(p: real, k: real, y: real): real {
    (1.0 + k) * (y * y) - (2.0 * p + k) * y + p * p
  }

  function Smaller(p: real, k: real, d: real): real
    requires k >= 0.0
  {
    (p + k / 2.0 - d) / (1.0 + k)
  }

  lemma SquareOrder(u: real, v: real)
    requires u >= 0.0 && v >= 0.0
    ensures u * u <= v * v <==> u <= v
  {
    if u <= v {
      Product(v - u, v + u);
      assert v * v - u * u == (v - u) * (v + u);
    } else {
      var x, y := u - v, u + v;
      Product(x, y);
      assert x > 0.0 && y > 0.0;
      assert u * u - v * v == x * y;
    }
  }

  lemma Product(a: real, b: real)
    requires a >= 0.0 && b >= 0.0
    ensures a * b >= 0.0 && (a > 0.0 && b > 0.0 ==> a * b > 0.0)
  {
  }

  /** Completing the square. */
  lemma Completed(p: real, k: real, d: real, y: real)
    requires Setting(p, k, d)
    ensures
      var t := p + k / 2.0 - (1.0 + k) * y;
      t * t - d * d == (1.0 + k) * Quadratic(p, k, y)
  {
    var a, b := 1.0 + k, p + k / 2.0;
    var ay := a * y;
    assert (b - ay) * (b - ay) == b * b - 2.0 * b * ay + ay * ay;
    assert ay * ay == a * (a * (y * y));
    assert 2.0 * b * ay == a * (2.0 * b * y);
    assert a * Quadratic(p, k, y) == a * (a * (y * y)) - a * (2.0 * b * y) + a * (p * p);
  }

  lemma SmallerScaled(p: real, k: real, d: real)
    requires k >= 0.0
    ensures (1.0 + k) * Smaller(p, k, d) == p + k / 2.0 - d
  {
  }

  lemma Cancel(a: real, x: real)
    requires a > 0.0 && a * x == 0.0
    ensures x == 0.0
  {
  }

  lemma SmallerIsRoot(p: real, k: real, d: real)
    requires Setting(p, k, d)
    ensures Quadratic(p, k, Smaller(p, k, d)) == 0.0
  {
    hide Quadratic, Smaller;
    SmallerScaled(p, k, d);
    Completed(p, k, d, Smaller(p, k, d));
    Cancel(1.0 + k, Quadratic(p, k, Smaller(p, k, d)));
  }

  /** How far past the vertex a level is, scaled. */
  function Ahead(p: real, k: real, y: real): real {
    (1.0 + k) * y - (p + k / 2.0)
  }

  lemma AheadOfVertex(p: real, k: real, d: real, y: real)
    requires Setting(p, k, d)
    ensures Ahead(p, k, y) * Ahead(p, k, y) - d * d == (1.0 + k) * Quadratic(p, k, y)
  {
    hide Quadratic;
    Completed(p, k, d, y);
    Negated(Ahead(p, k, y));
  }

  lemma Negated(t: real)
    ensures (-t) * (-t) == t * t
  {
  }

  lemma AtShare(p: real, k: real)
    ensures Quadratic(p, k, p) == -(k * (p * (1.0 - p)))
  {
    var q := p * (1.0 - p);
    assert (1.0 + k) * (p * p) == p * p + k * (p * p);
    assert (2.0 * p + k) * p == 2.0 * (p * p) + k * p;
    assert k * q == k * p - k * (p * p);
  }

  /** The sample's own share lies between the roots, strictly where neither it nor the weight is extreme. */
  lemma ShareWithin(p: real, k: real, d: real)
    requires Setting(p, k, d)
    ensures
      var u := Ahead(p, k, p);
      u * u <= d * d && -d <= u <= d && (k > 0.0 && 0.0 < p < 1.0 ==> u * u < d * d)
  {
    hide Ahead, Quadratic;
    AheadOfVertex(p, k, d, p);
    AtShare(p, k);
    var q := p * (1.0 - p);
    Product(p, 1.0 - p);
    Product(k, q);
    Product(1.0 + k, k * q);
    assert (1.0 + k) * Quadratic(p, k, p) == -((1.0 + k) * (k * q));
    Within(Ahead(p, k, p), d);
  }

  lemma Within(t: real, d: real)
    requires d >= 0.0 && t * t <= d * d
    ensures -d <= t <= d
  {
    if t >= 0.0 {
      SquareOrder(t, d);
    } else {
      assert (-t) * (-t) == t * t;
      SquareOrder(-t, d);
    }
  }

  lemma ScaledOrder(a: real, x: real, y: real)
    requires a > 0.0
    ensures a * x <= a * y <==> x <= y
  {
    assert a * y - a * x == a * (y - x);
  }

  lemma SmallerInRange(p: real, k: real, d: real)
    requires Setting(p, k, d)
    ensures 0.0 <= Smaller(p, k, d) <= p
  {
    hide Smaller;
    SmallerScaled(p, k, d);
    var b := p + k / 2.0;
    assert (1.0 + k) * (p * p) >= 0.0;
    SquareOrder(d, b);
    ShareWithin(p, k, d);
    ScaledOrder(1.0 + k, Smaller(p, k, d), p);
    ScaledOrder(1.0 + k, 0.0, Smaller(p, k, d));
  }

  /** Any root is at least the smaller one. */
  lemma NoSmallerRoot(p: real, k: real, d: real, y: real)
    requires Setting(p, k, d) && Quadratic(p, k, y) == 0.0
    ensures Smaller(p, k, d) <= y
  {
    hide Quadratic, Smaller;
    SmallerScaled(p, k, d);
    Completed(p, k, d, y);
    Within(p + k / 2.0 - (1.0 + k) * y, d);
    ScaledOrder(1.0 + k, Smaller(p, k, d), y);
  }

  /** A level below one is no higher than the bound exactly when it is no higher than the share and the quadratic
      is not negative at it. */
  lemma ClearsQuadratic(p: real, k: real, d: real, m: real)
    requires Setting(p, k, d) && 0.0 <= m < 1.0
    ensures m <= Smaller(p, k, d) <==> m <= p && Quadratic(p, k, m) >= 0.0
  {
    hide Quadratic, Smaller;
    SmallerInRange(p, k, d);
    SmallerScaled(p, k, d);
    var t := p + k / 2.0 - (1.0 + k) * m;
    Completed(p, k, d, m);
    ScaledOrder(1.0 + k, m, Smaller(p, k, d));
    Sign(1.0 + k, Quadratic(p, k, m));
    if t >= 0.0 {
      SquareOrder(d, t);
    } else if m <= p {
      PastVertex(p, k, d, m);
    }
  }

  lemma Sign(a: real, q: real)
    requires a > 0.0
    ensures a * q >= 0.0 <==> q >= 0.0
  {
  }

  /** Between the vertex and the share the quadratic is negative. */
  lemma PastVertex(p: real, k: real, d: real, m: real)
    requires Setting(p, k, d) && k >= 0.0 && 0.0 <= m < 1.0 && m <= p <= 1.0 && p + k / 2.0 - (1.0 + k) * m < 0.0
    ensures Quadratic(p, k, m) < 0.0
  {
    hide Quadratic, Ahead, Setting;
    AheadIs(p, k, m);
    Strict(p, k, m);
    AheadOfVertex(p, k, d, m);
    ShareWithin(p, k, d);
    AheadGrows(p, k, m);
    Inside(Ahead(p, k, m), Ahead(p, k, p), d);
    Sign(1.0 + k, Quadratic(p, k, m));
  }

  lemma AheadIs(p: real, k: real, y: real)
    ensures Ahead(p, k, y) == -(p + k / 2.0 - (1.0 + k) * y)
  {
  }

  lemma AheadGrows(p: real, k: real, m: real)
    requires k >= 0.0 && m <= p
    ensures Ahead(p, k, m) <= Ahead(p, k, p) && (m < p ==> Ahead(p, k, m) < Ahead(p, k, p))
  {
    ScaledOrder(1.0 + k, m, p);
    ScaledOrder(1.0 + k, p, m);
  }

  lemma Inside(t: real, u: real, d: real)
    requires 0.0 < t <= u <= d && (t < u || u * u < d * d)
    ensures t * t < d * d
  {
    SquareOrder(d, t);
    SquareOrder(u, t);
    SquareOrder(t, u);
  }

  lemma Strict(p: real, k: real, m: real)
    requires 0.0 <= m < 1.0 && m <= p <= 1.0 && k >= 0.0 && p + k / 2.0 - (1.0 + k) * m < 0.0
    ensures k > 0.0 && p > 0.0
  {
    assert (1.0 + k) * m == m + k * m;
    Product(k, m);
  }

  // --- The bound of a sample ---------------------------------------------------------------------------------------

  function Weight(n: int, z: real): (k: real)
    requires n >= 1
    ensures k >= 0.0 && k * n as real == z * z
  {
    Squared(z);
    z * z / n as real
  }

  /** The sample as a share, a weight and a root of the discriminant, and its bound as the smaller root. */
  lemma SampleSets(correct: int, n: int, z: real, s: real)
    requires Sample(correct, n) && z >= 0.0 && IsRoot(s, Radicand(correct, n, z))
    ensures Setting(Share(correct, n), Weight(n, z), z * s)
    ensures LowerBound(correct, n, z, s) == Ok(Smaller(Share(correct, n), Weight(n, z), z * s))
  {
    var p, k, N := Share(correct, n), Weight(n, z), n as real;
    ShareRange(correct, n);
    Product(z, s);
    Divided(z * z, N, p * (1.0 - p));
    assert (z * s) * (z * s) == (z * z) * (s * s);
    Discriminant(p, k, z, N, s);
    Halved(z * z, N);
  }

  lemma ShareRange(correct: int, n: int)
    requires Sample(correct, n)
    ensures 0.0 <= Share(correct, n) <= 1.0
  {
  }

  lemma Halved(w: real, n: real)
    requires n > 0.0
    ensures w / (2.0 * n) == w / n / 2.0
    ensures w / (4.0 * n) / n == w / n / n / 4.0
  {
    var v := w / n;
    var u := v / n;
    assert v * n == w && u * n == v;
    assert (v / 2.0) * (2.0 * n) == v * n && (v / 4.0) * (4.0 * n) == v * n;
    Quotient(w, 2.0 * n, v / 2.0);
    Quotient(w, 4.0 * n, v / 4.0);
    assert u / 4.0 * n == v / 4.0;
    Quotient(v / 4.0, n, u / 4.0);
  }

  lemma Quotient(w: real, m: real, u: real)
    requires m > 0.0 && u * m == w
    ensures w / m == u
  {
  }

  lemma Divided(w: real, n: real, x: real)
    requires n > 0.0
    ensures w * (x / n) == w / n * x
  {
    var v := w / n;
    assert v * n == w;
    assert w * (x / n) == v * (n * (x / n)) == v * x;
  }

  lemma Discriminant(p: real, k: real, z: real, n: real, s: real)
    requires n > 0.0 && k == z * z / n && s * s == Spread(p, n, z * z)
    ensures (z * s) * (z * s) == (p + k / 2.0) * (p + k / 2.0) - (1.0 + k) * (p * p)
  {
    hide Spread;
    var w, q := z * z, p * (1.0 - p);
    SpreadIs(p, n, w);
    Divided(w, n, q);
    Divided(w, n, k);
    assert w * (k / n) == k * k;
    assert (z * s) * (z * s) == w * (s * s);
    assert w * (s * s) == w * (q / n) + w * (k / n) / 4.0;
    Expanded(p, k);
  }

  lemma SpreadIs(p: real, n: real, w: real)
    requires n > 0.0
    ensures Spread(p, n, w) == p * (1.0 - p) / n + w / n / n / 4.0
  {
    Halved(w, n);
  }

  lemma Expanded(p: real, k: real)
    ensures (p + k / 2.0) * (p + k / 2.0) - (1.0 + k) * (p * p) == k * (p * (1.0 - p)) + k * k / 4.0
  {
    assert (p + k / 2.0) * (p + k / 2.0) == p * p + p * k + k * k / 4.0;
    assert (1.0 + k) * (p * p) == p * p + k * (p * p);
    assert k * (p * (1.0 - p)) == k * p - k * (p * p);
  }

  /** The score equation, at equality. */
  predicate Solves(n: int, z: real, p: real, y: real) {
    n as real * ((p - y) * (p - y)) == z * z * (y * (1.0 - y))
  }

  /** The sample's share lies at least `z` deviations from what a true share `m` would give. */
  predicate Rejects(n: int, z: real, p: real, m: real) {
    n as real * ((p - m) * (p - m)) >= z * z * (m * (1.0 - m))
  }

  /** The quadratic, scaled by the sample size, is the score equation. */
  lemma Scored(n: int, z: real, p: real, y: real)
    requires n >= 1
    ensures Solves(n, z, p, y) <==> n as real * Quadratic(p, Weight(n, z), y) == 0.0
    ensures Rejects(n, z, p, y) <==> n as real * Quadratic(p, Weight(n, z), y) >= 0.0
  {
    var k, N := Weight(n, z), n as real;
    var yy := y * y;
    assert (1.0 + k) * yy == yy + k * yy;
    assert (2.0 * p + k) * y == 2.0 * p * y + k * y;
    assert (p - y) * (p - y) == p * p - 2.0 * p * y + yy;
    assert Quadratic(p, k, y) == (p - y) * (p - y) - k * (y - yy);
    assert N * (k * (y - yy)) == (k * N) * (y - yy);
    assert y * (1.0 - y) == y - yy;
  }

  /** The bound is the smaller root of n (p - x)^2 = z^2 x (1 - x), and lies between nothing and the sample's share. */
  lemma BoundIsSmallerRoot(correct: int, n: int, z: real, s: real)
    requires Sample(correct, n) && z >= 0.0 && IsRoot(s, Radicand(correct, n, z))
    ensures
      var p, x := Share(correct, n), LowerBound(correct, n, z, s).value;
      && Solves(n, z, p, x)
      && 0.0 <= x <= p
      && forall y :: Solves(n, z, p, y) ==> x <= y
  {
    hide Quadratic, Smaller, Setting, Bound, Solves;
    SampleSets(correct, n, z, s);
    var p, k, d := Share(correct, n), Weight(n, z), z * s;
    var x := Smaller(p, k, d);
    SmallerIsRoot(p, k, d);
    SmallerInRange(p, k, d);
    Scored(n, z, p, x);
    forall y | Solves(n, z, p, y) ensures x <= y {
      Scored(n, z, p, y);
      Cancel(n as real, Quadratic(p, k, y));
      NoSmallerRoot(p, k, d, y);
    }
  }

  /** A bar below one is cleared exactly when the sample's share reaches it and, at `z` deviations, a true share
      at the bar would not explain the sample. */
  lemma ClearsBar(correct: int, n: int, z: real, s: real, bar: real)
    requires Sample(correct, n) && z >= 0.0 && IsRoot(s, Radicand(correct, n, z)) && 0.0 <= bar < 1.0
    ensures
      var p := Share(correct, n);
      bar <= LowerBound(correct, n, z, s).value <==>
        bar <= p && Rejects(n, z, p, bar)
  {
    hide Quadratic, Smaller, Setting, Bound, Rejects;
    SampleSets(correct, n, z, s);
    var p, k, d := Share(correct, n), Weight(n, z), z * s;
    ClearsQuadratic(p, k, d, bar);
    Scored(n, z, p, bar);
    Sign(n as real, Quadratic(p, k, bar));
  }

  /** More correct answers in a sample of the same size never lower the bound. */
  lemma NeverFalls(fewer: int, more: int, n: int, z: real, s: real, t: real)
    requires Sample(fewer, n) && Sample(more, n) && fewer <= more && z >= 0.0
    requires IsRoot(s, Radicand(fewer, n, z)) && IsRoot(t, Radicand(more, n, z))
    ensures LowerBound(fewer, n, z, s).value <= LowerBound(more, n, z, t).value
  {
    hide Radicand, Bound;
    var p, q, x := Share(fewer, n), Share(more, n), LowerBound(fewer, n, z, s).value;
    BoundIsSmallerRoot(fewer, n, z, s);
    ShareRange(fewer, n);
    SharesOrder(fewer, more, n);
    if x < 1.0 {
      SquareOrder(p - x, q - x);
      ScaledOrder(n as real, (p - x) * (p - x), (q - x) * (q - x));
      ClearsBar(more, n, z, t, x);
    } else {
      WholeShare(fewer, n);
      SameRoot(s, t);
    }
  }

  lemma SharesOrder(fewer: int, more: int, n: int)
    requires n >= 1 && fewer <= more
    ensures Share(fewer, n) <= Share(more, n)
  {
  }

  lemma WholeShare(correct: int, n: int)
    requires Sample(correct, n) && Share(correct, n) >= 1.0
    ensures correct == n
  {
    assert Share(correct, n) * n as real == correct as real;
  }

  lemma SameRoot(s: real, t: real)
    requires s >= 0.0 && t >= 0.0
    ensures s * s == t * t ==> s == t
  {
    SquareOrder(s, t);
    SquareOrder(t, s);
  }

  // --- The check of a stated bound -----------------------------------------------------------------------------------

  /** `_check_sample`: nothing, or why the sample is refused. */
  function CheckSample(correct: int, n: int, z: real, s: real, stated: real, bar: real): Option<Refusal>
    requires Sample(correct, n) ==> IsRoot(s, Radicand(correct, n, z))
  {
    match LowerBound(correct, n, z, s)
    case Err(e) => Some(e)
    case Ok(recomputed) =>
      if stated > recomputed || recomputed - stated > TOLERANCE then Some(NotReproduced)
      else if recomputed < bar then Some(BelowBar)
      else None
  }

  /** An accepted sample's stated bound is never above, and within the tolerance below, a value that no share
      solving the score equation is under; and the sample itself shows the bar, against a true share at it. */
  lemma AcceptedShowsBar(correct: int, n: int, z: real, s: real, stated: real, bar: real)
    requires Sample(correct, n) ==> IsRoot(s, Radicand(correct, n, z))
    requires z >= 0.0 && 0.0 <= bar < 1.0 && CheckSample(correct, n, z, s, stated, bar).None?
    ensures Sample(correct, n)
    ensures
      var p := Share(correct, n);
      && bar - TOLERANCE <= stated <= p
      && bar <= p && Rejects(n, z, p, bar)
      && forall y :: Solves(n, z, p, y) ==> stated <= y && bar <= y
  {
    hide Radicand, Bound;
    BoundIsSmallerRoot(correct, n, z, s);
    ClearsBar(correct, n, z, s, bar);
  }
}
