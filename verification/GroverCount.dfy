/**
 How many iterations the search makes: the formula of the source in exact arithmetic. What the
 mathematical functions do is stated by the laws they obey.
 */
module GroverCount {
  import opened GroverGates

  /** The functions of the mathematical library, and the cosine that goes with its sine. */
  datatype Math = Math(pi: real, sqrt: real -> real, sin: real -> real, cos: real -> real, asin: real -> real)

  /** The addition theorems. */
  predicate Adds(m: Math, a: real, b: real) {
    && m.sin(a + b) == m.sin(a) * m.cos(b) + m.cos(a) * m.sin(b)
    && m.cos(a + b) == m.cos(a) * m.cos(b) - m.sin(a) * m.sin(b)
  }

  predicate Odd(m: Math, a: real) { m.sin(-a) == -m.sin(a) && m.cos(-a) == m.cos(a) }

  predicate OnCircle(m: Math, a: real) { m.sin(a) * m.sin(a) + m.cos(a) * m.cos(a) == 1.0 }

  predicate Rises(m: Math, a: real, b: real) { 0.0 <= a < b <= m.pi / 2.0 ==> m.sin(a) < m.sin(b) }

  predicate BelowAngle(m: Math, a: real) { a >= 0.0 ==> m.sin(a) <= a }

  predicate RootOf(m: Math, x: real) { x >= 0.0 ==> m.sqrt(x) >= 0.0 && m.sqrt(x) * m.sqrt(x) == x }

  predicate ArcOf(m: Math, x: real) { 0.0 <= x <= 1.0 ==> m.sin(m.asin(x)) == x && 0.0 <= m.asin(x) <= m.pi / 2.0 }

  /** The laws of exact arithmetic. */
  ghost predicate Exact(m: Math) {
    && m.pi > 0.0 && m.sin(0.0) == 0.0 && m.cos(0.0) == 1.0 && m.sin(m.pi / 2.0) == 1.0 && m.cos(m.pi / 2.0) == 0.0
    && (forall a, b :: Adds(m, a, b)) && (forall a :: Odd(m, a)) && (forall a :: OnCircle(m, a))
    && (forall a, b :: Rises(m, a, b)) && (forall a :: BelowAngle(m, a))
    && (forall x :: RootOf(m, x)) && (forall x :: ArcOf(m, x))
  }

  /** Python's `round`: to the nearest integer, and from halfway to the even one. */
  function Round(x: real): (k: int)
    ensures -0.5 <= k as real - x <= 0.5
    ensures x >= 0.0 ==> k >= 0
  {
    var low := x.Floor;
    if x - low as real < 0.5 || (x - low as real == 0.5 && low % 2 == 0) then low else low + 1
  }

  /** The angle whose sine is the uniform amplitude. */
  function Theta(m: Math, n: nat): real {
    Pow2Add(n, 0);
    m.asin(m.sqrt(1.0 / Pow2(n)))
  }

  lemma ThetaIs(m: Math, n: nat)
    requires Exact(m)
    ensures Pow2(n) >= 1.0 && 0.0 < Theta(m, n) <= m.pi / 2.0
    ensures var s := m.sin(Theta(m, n)); s > 0.0 && s == m.sqrt(1.0 / Pow2(n)) && Pow2(n) * (s * s) == 1.0
    ensures n == 0 ==> Theta(m, n) == m.pi / 2.0
  {
    hide Adds, OnCircle, BelowAngle, Odd;
    Pow2Add(n, 0);
    var x := 1.0 / Pow2(n);
    var s := m.sqrt(x);
    assert RootOf(m, x);
    assert s > 1.0 ==> s * s > 1.0;
    assert ArcOf(m, s);
    assert Rises(m, Theta(m, n), m.pi / 2.0);
    if n == 0 { OneIsTop(s); }
  }

  function Multiple(k: nat, a: real): real { k as real * a }

  /** The angle after k iterations. */
  function Turns(m: Math, n: nat, k: nat): real { Multiple(2 * k + 1, Theta(m, n)) }

  lemma OneIsTop(s: real)
    requires s > 0.0 && s * s == 1.0
    ensures s == 1.0
  {
    assert s < 1.0 ==> s * s < 1.0;
    assert s > 1.0 ==> s * s > 1.0;
  }

  /** `optimal_iterations` for one marked state. */
  function OptimalIterations(m: Math, n: nat): (k: nat)
    requires Exact(m)
    ensures n == 0 ==> k == 0
    ensures m.pi / 2.0 - Theta(m, n) <= Turns(m, n, k) <= m.pi / 2.0 + Theta(m, n)
  {
    ThetaIs(m, n);
    var theta := Theta(m, n);
    var ideal := m.pi / (4.0 * theta) - 0.5;
    IdealIs(m.pi, theta);
    NearestTurn(m.pi, theta, Round(ideal));
    Round(ideal)
  }

  lemma IdealIs(pi: real, theta: real)
    requires 0.0 < theta <= pi / 2.0
    ensures pi / (4.0 * theta) * theta == pi / 4.0 && pi / (4.0 * theta) >= 0.5
    ensures theta == pi / 2.0 ==> pi / (4.0 * theta) == 0.5
  {
    var q := pi / (4.0 * theta);
    assert q * (4.0 * theta) == pi;
    assert q * theta == pi / 4.0;
    assert q < 0.5 ==> q * theta < 0.5 * theta;
    assert (q - 0.5) * theta == pi / 4.0 - theta / 2.0;
  }

  lemma NearestTurn(pi: real, theta: real, k: int)
    requires 0.0 < theta <= pi / 2.0 && -0.5 <= k as real - (pi / (4.0 * theta) - 0.5) <= 0.5
    ensures var t := (2 * k + 1) as real * theta; pi / 2.0 - theta <= t <= pi / 2.0 + theta
  {
    IdealIs(pi, theta);
    var q, odd := pi / (4.0 * theta), 2.0 * (k as real) + 1.0;
    assert (2 * k + 1) as real == odd;
    var low, high := odd - (2.0 * q - 1.0), 2.0 * q + 1.0 - odd;
    assert low * theta >= 0.0 && high * theta >= 0.0;
    assert low * theta == odd * theta - 2.0 * (q * theta) + theta;
    assert high * theta == 2.0 * (q * theta) + theta - odd * theta;
  }

  /** Halfway between two integers, the even one is taken. */
  lemma HalfwayIsEven(low: int, x: real)
    requires x == low as real + 0.5
    ensures Round(x) == if low % 2 == 0 then low else low + 1
  {
    assert x.Floor == low;
  }

  /** One qubit is exactly such a case: the formula gives a half, and no iteration is made. */
  lemma OneQubitStays(m: Math)
    requires Exact(m)
    ensures OptimalIterations(m, 1) == 0
  {
    hide RootOf, ArcOf, BelowAngle;
    ThetaIs(m, 1);
    var theta, eighth := Theta(m, 1), m.pi / 4.0;
    assert Adds(m, eighth, eighth) && OnCircle(m, eighth) && eighth + eighth == m.pi / 2.0;
    assert Rises(m, 0.0, eighth);
    assert Pow2(1) == 2.0 by { assert Pow2(0) == 1.0; }
    SameSquare(m.sin(theta), m.sin(eighth));
    assert Rises(m, theta, eighth) && Rises(m, eighth, theta);
    assert theta == eighth;
    HalfTurn(m.pi, theta);
    HalfwayIsEven(0, 0.5);
  }

  lemma SameSquare(a: real, b: real)
    requires a > 0.0 && b > 0.0 && a * a == b * b
    ensures a == b
  {
    assert (a - b) * (a + b) == 0.0;
  }

  lemma HalfTurn(pi: real, theta: real)
    requires pi > 0.0 && theta == pi / 4.0
    ensures pi / (4.0 * theta) - 0.5 == 0.5
  {
    assert 4.0 * theta == pi;
  }
}
