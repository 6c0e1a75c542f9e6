/**
 Why the number of iterations is the right one: the search hardly ever fails, and needs about a
 root of the states.
 */
module GroverBest {
  import opened Basics
  import opened GroverGates
  import opened GroverCount
  import opened Grover
  import opened GroverSearch

  lemma CosineSum(m: Math, a: real, b: real)
    requires Exact(m)
    ensures m.cos(a + b) == 2.0 * m.cos(b) * m.cos(a) - m.cos(a - b)
  {
    assert Adds(m, a, b) && Adds(m, a, -b) && Odd(m, b);
    assert a + -b == a - b;
  }

  lemma MultipleNext(k: nat, a: real)
    requires k >= 1
    ensures Multiple(k, a) == Multiple(k - 1, a) + a
  {
    var q := k as real;
    assert (k - 1) as real == q - 1.0;
    assert (q - 1.0) * a == q * a - a;
  }

  /** Chebyshev's polynomials are the cosines of the multiples of an angle. */
  lemma {:induction false} ChebyshevIsCosine(m: Math, k: nat, a: real)
    requires Exact(m)
    ensures Chebyshev(k, m.cos(a)) == m.cos(Multiple(k, a))
    decreases k
  {
    if k == 0 {
      assert Multiple(0, a) == 0.0;
    } else if k == 1 {
      assert Multiple(1, a) == a;
    } else {
      hide Exact, Chebyshev, Multiple;
      ChebyshevIsCosine(m, k - 1, a);
      ChebyshevIsCosine(m, k - 2, a);
      MultipleNext(k, a);
      MultipleNext(k - 1, a);
      var x := Multiple(k - 1, a);
      CosineSum(m, x, a);
      assert x - a == Multiple(k - 2, a);
      ChebyshevUnfold(k - 1, m.cos(a));
    }
  }

  /** The sine of half an angle. */
  lemma HalfAngle(m: Math, a: real)
    requires Exact(m)
    ensures m.cos(2.0 * a) == 1.0 - 2.0 * Times(m.sin(a), m.sin(a))
  {
    assert Adds(m, a, a) && OnCircle(m, a);
    assert a + a == 2.0 * a;
  }

  /** The success the program prints, computed from the angle by another formula. */
  function ExpectedSuccess(m: Math, n: nat, iterations: nat): real
    requires Exact(m)
  {
    RootsAgree(m, n);
    var theta := m.asin(1.0 / m.sqrt(Pow2(n)));
    var s := m.sin(Multiple(2 * iterations + 1, theta));
    Times(s, s)
  }

  lemma RootsAgree(m: Math, n: nat)
    requires Exact(m)
    ensures Pow2(n) >= 1.0 && m.sqrt(Pow2(n)) > 0.0 && 1.0 / m.sqrt(Pow2(n)) == m.sqrt(1.0 / Pow2(n))
    ensures m.sqrt(1.0 / Pow2(n)) * m.sqrt(Pow2(n)) == 1.0
  {
    hide Adds, OnCircle, Odd, Rises, ArcOf, BelowAngle, Pow2;
    ThetaIs(m, n);
    var size := Pow2(n);
    assert RootOf(m, size) && RootOf(m, 1.0 / size);
    RootOfInverse(size, m.sqrt(size), m.sqrt(1.0 / size));
  }

  lemma RootOfInverse(size: real, root: real, s: real)
    requires size >= 1.0 && root >= 0.0 && root * root == size && s > 0.0 && size * (s * s) == 1.0
    ensures root > 0.0 && s * root == 1.0 && 1.0 / root == s
  {
    var p := s * root;
    var u := s * s;
    assert p * p == u * (root * root);
    assert root == 0.0 ==> root * root == 0.0;
    OneIsTop(p);
  }

  /** The success printed is the exact chance of reading the target. */
  lemma PrintedSuccess(m: Math, target: string, k: nat)
    requires Exact(m) && |target| >= 1 && ValidateTarget(|target|, target).Ok?
    ensures ChanceToRead(Iterations(target, k), OntoItself(|target|), |target|, target)
            == ExpectedSuccess(m, |target|, k)
  {
    hide Exact, Pow2, Chebyshev, ChanceToRead, Iterations, Theta;
    ThetaAgrees(m, |target|);
    SearchOutcome(target, k, target);
    CosineOfSearch(m, |target|, k);
  }

  lemma ThetaAgrees(m: Math, n: nat)
    requires Exact(m)
    ensures m.sqrt(Pow2(n)) > 0.0 && m.asin(1.0 / m.sqrt(Pow2(n))) == Theta(m, n)
  {
    hide Exact;
    RootsAgree(m, n);
  }

  lemma CosineOfSearch(m: Math, n: nat, k: nat)
    requires Exact(m)
    ensures Pow2(n) >= 1.0
    ensures (1.0 - Chebyshev(2 * k + 1, 1.0 - 2.0 / Pow2(n))) / 2.0
            == Times(m.sin(Turns(m, n, k)), m.sin(Turns(m, n, k)))
  {
    hide Exact, Pow2, Chebyshev, Theta, Multiple, Times;
    ThetaIs(m, n);
    var theta := Theta(m, n);
    HalfAngle(m, theta);
    InverseSize(Pow2(n), m.sin(theta));
    ChebyshevIsCosine(m, 2 * k + 1, 2.0 * theta);
    MultipleTwice(2 * k + 1, theta);
    HalfAngle(m, Multiple(2 * k + 1, theta));
  }

  lemma MultipleTwice(k: nat, a: real)
    ensures Multiple(k, 2.0 * a) == 2.0 * Multiple(k, a)
  {}

  lemma InverseSize(size: real, s: real)
    requires size >= 1.0 && size * (s * s) == 1.0
    ensures 1.0 / size == Times(s, s) && 2.0 / size == 2.0 * Times(s, s)
  {}

  /** Near the quarter turn the sine is high, and before it lower. */
  lemma NearQuarter(m: Math, theta: real, t: real, u: real)
    requires Exact(m) && 0.0 < theta <= m.pi / 2.0 && m.pi / 2.0 - theta <= t <= m.pi / 2.0 + theta
    requires 0.0 <= u <= m.pi / 2.0 - theta
    ensures Times(m.sin(t), m.sin(t)) >= 1.0 - Times(m.sin(theta), m.sin(theta)) >= Times(m.sin(u), m.sin(u))
  {
    hide RootOf, ArcOf, BelowAngle;
    var d := t - m.pi / 2.0;
    assert Adds(m, m.pi / 2.0, d) && Adds(m, m.pi / 2.0, -theta) && Odd(m, d) && Odd(m, theta);
    assert m.pi / 2.0 + d == t && m.pi / 2.0 + -theta == m.pi / 2.0 - theta;
    assert m.sin(t) == m.cos(d) && m.sin(m.pi / 2.0 - theta) == m.cos(theta);
    assert OnCircle(m, d) && OnCircle(m, theta);
    var e := if d < 0.0 then -d else d;
    SineBetween(m, e, theta);
    SineBetween(m, u, m.pi / 2.0 - theta);
    assert m.sin(e) * m.sin(e) == m.sin(d) * m.sin(d);
    SquareLeq(m.sin(e), m.sin(theta));
    SquareLeq(m.sin(u), m.cos(theta));
  }

  lemma SineBetween(m: Math, a: real, b: real)
    requires Exact(m) && 0.0 <= a <= b <= m.pi / 2.0
    ensures 0.0 <= m.sin(a) <= m.sin(b)
  {
    assert Rises(m, 0.0, a) && Rises(m, a, b);
  }

  lemma SquareLeq(a: real, b: real)
    requires 0.0 <= a <= b
    ensures a * a <= b * b
  {}

  /**
   With the number of iterations that is made, the search fails with chance at most 1/2^n, and no
   smaller number does better.
   */
  lemma IterationsAreBest(m: Math, target: string, j: nat)
    requires Exact(m) && |target| >= 1 && ValidateTarget(|target|, target).Ok?
    ensures Pow2(|target|) >= 1.0
    ensures var k := OptimalIterations(m, |target|);
            var chance := ChanceToRead(Iterations(target, k), OntoItself(|target|), |target|, target);
            && chance >= 1.0 - 1.0 / Pow2(|target|)
            && (j <= k ==> ChanceToRead(Iterations(target, j), OntoItself(|target|), |target|, target) <= chance)
  {
    hide Pow2, ChanceToRead, Iterations, Theta, Times, Multiple, Exact;
    var n, k := |target|, OptimalIterations(m, |target|);
    var theta := Theta(m, n);
    ThetaIs(m, n);
    InverseSize(Pow2(n), m.sin(theta));
    PrintedIsSine(m, target, k);
    PrintedIsSine(m, target, j);
    TurnsSpread(m, n, j, k, theta);
    NearQuarter(m, theta, Turns(m, n, k), if j < k then Turns(m, n, j) else 0.0);
  }

  lemma PrintedIsSine(m: Math, target: string, k: nat)
    requires Exact(m) && |target| >= 1 && ValidateTarget(|target|, target).Ok?
    ensures ChanceToRead(Iterations(target, k), OntoItself(|target|), |target|, target)
            == Times(m.sin(Turns(m, |target|, k)), m.sin(Turns(m, |target|, k)))
  {
    hide Exact, Pow2, ChanceToRead, Iterations, Theta, Times;
    PrintedSuccess(m, target, k);
    ThetaAgrees(m, |target|);
  }

  /** The number of iterations is at most a quarter of pi times the root of the number of states. */
  lemma IterationsAreFew(m: Math, n: nat)
    requires Exact(m)
    ensures 4.0 * OptimalIterations(m, n) as real <= m.pi * m.sqrt(Pow2(n))
  {
    hide Adds, OnCircle, Odd, Rises, ArcOf, RootOf, Pow2, Theta;
    var k, theta := OptimalIterations(m, n), Theta(m, n);
    ThetaIs(m, n);
    RootsAgree(m, n);
    assert BelowAngle(m, theta);
    FewTurns(m.pi, theta, m.sin(theta), m.sqrt(Pow2(n)), k);
  }

  lemma TurnsSpread(m: Math, n: nat, j: nat, k: nat, theta: real)
    requires theta == Theta(m, n) > 0.0
    ensures Turns(m, n, j) >= 0.0
    ensures j < k ==> Turns(m, n, j) <= Turns(m, n, k) - 2.0 * theta
  {
    hide Theta;
    if j < k {
      MultipleRises(2 * j + 1, 2 * k - 1, theta);
      MultipleNext(2 * k + 1, theta);
      MultipleNext(2 * k, theta);
    }
  }

  lemma MultipleRises(j: nat, k: nat, a: real)
    requires j <= k && a >= 0.0
    ensures Multiple(j, a) <= Multiple(k, a)
  {
    var d := k as real - j as real;
    assert d >= 0.0;
    assert d * a >= 0.0;
  }

  lemma FewTurns(pi: real, theta: real, s: real, root: real, k: nat)
    requires (2 * k + 1) as real * theta <= pi / 2.0 + theta
    requires 0.0 < s <= theta && s * root == 1.0 && root > 0.0
    ensures 4.0 * k as real <= pi * root
  {
    var q := 4.0 * k as real;
    assert (2 * k + 1) as real == q / 2.0 + 1.0;
    assert q * theta <= pi by { assert (q / 2.0 + 1.0) * theta == q * theta / 2.0 + theta; }
    assert q * s <= q * theta;
    assert (pi - q * s) * root >= 0.0;
    assert (pi - q * s) * root == pi * root - q * (s * root);
  }
}
