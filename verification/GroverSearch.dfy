/** What the whole search circuit computes: the exact chance of reading every basis state. */
module GroverSearch {
  import opened Basics
  import opened GroverGates
  import opened Grover

  /** The amplitudes before the first gate: everything on the all-zero state. */
  const START: Amplitudes := Spike(1.0)

  /** The amplitudes of the target (t) and of every other state (r), as multiples of the uniform one. */
  datatype Turn = Turn(t: real, r: real)

  /** One iteration: the target is negated, then every amplitude loses twice the mean. */
  function Turned(size: real, u: Turn): Turn
    requires size >= 1.0
  {
    Turn(-u.t - 2.0 * Mean(size, u), u.r - 2.0 * Mean(size, u))
  }

  /** The mean amplitude once the target is negated. */
  function Mean(size: real, u: Turn): real
    requires size >= 1.0
  {
    (-u.t + (size - 1.0) * u.r) / size
  }

  function Rotated(size: real, k: nat): Turn
    requires size >= 1.0
  {
    if k == 0 then Turn(1.0, 1.0) else Turned(size, Rotated(size, k - 1))
  }

  /** The unnormalised Hadamards of k iterations leave the factor 2 to this power. */
  function Exponent(n: nat, k: nat): nat {
    if k == 0 then 0 else Exponent(n, k - 1) + n + if n == 1 then 0 else 2
  }

  // ---------- the circuit is well formed, and how many Hadamards it has ----------

  lemma {:induction false} XLayerPlain(mask: seq<bool>, k: nat)
    requires k <= |mask|
    ensures HCount(XLayer(mask, k)) == 0
  {
    if k > 0 {
      XLayerPlain(mask, k - 1);
      if mask[k - 1] { HCountAppend(XLayer(mask, k - 1), [X(k - 1)]); }
    }
  }

  lemma {:induction false} HLayerCount(k: nat)
    ensures HCount(HLayer(k)) == k
  {
    if k > 0 {
      HLayerCount(k - 1);
      HCountAppend(HLayer(k - 1), [H(k - 1)]);
    }
  }

  lemma MultiControlledZShape(n: nat)
    requires n >= 1
    ensures HCount(MultiControlledZ(n)) == if n == 1 then 0 else 2
    ensures AllFit(MultiControlledZ(n), n)
  {
    if n > 1 {
      var gates := MultiControlledZ(n);
      assert gates[..2] == [H(n - 1), MCX(Upto(n - 1), n - 1)] && gates[..2][..1] == [H(n - 1)]
        && gates[..1][..0] == [];
      assert HCount(gates[..2][..1]) == 1;
    }
  }

  lemma OracleShape(target: string)
    requires |target| >= 1
    ensures HCount(Oracle(target)) == if |target| == 1 then 0 else 2
    ensures AllFit(Oracle(target), |target|)
  {
    var n := |target|;
    var layer := XLayer(OracleMask(target), n);
    XLayerPlain(OracleMask(target), n);
    MultiControlledZShape(n);
    HCountAppend(layer + MultiControlledZ(n), layer);
    HCountAppend(layer, MultiControlledZ(n));
  }

  lemma DiffuserShape(n: nat)
    requires n >= 1
    ensures HCount(Diffuser(n)) == 2 * n + if n == 1 then 0 else 2
    ensures AllFit(Diffuser(n), n)
  {
    var flips := XLayer(Ones(n), n);
    XLayerPlain(Ones(n), n);
    HLayerCount(n);
    MultiControlledZShape(n);
    HCountAppend(HLayer(n), flips);
    HCountAppend(HLayer(n) + flips, MultiControlledZ(n));
    HCountAppend(HLayer(n) + flips + MultiControlledZ(n), flips);
    HCountAppend(HLayer(n) + flips + MultiControlledZ(n) + flips, HLayer(n));
  }

  /** Every emitted gate acts inside the register. */
  lemma {:induction false} CircuitFits(target: string, k: nat)
    requires k > 0 ==> |target| >= 1
    ensures AllFit(Iterations(target, k), |target|)
  {
    hide AllFit, Oracle, Diffuser, HLayer;
    if k > 0 {
      CircuitFits(target, k - 1);
      OracleShape(target);
      DiffuserShape(|target|);
      FitAppend(Iterations(target, k - 1), Oracle(target), |target|);
      FitAppend(Iterations(target, k - 1) + Oracle(target), Diffuser(|target|), |target|);
    } else {
      HLayerFits(|target|);
    }
  }

  lemma HLayerFits(n: nat)
    ensures AllFit(HLayer(n), n)
  {}

  lemma FitAppend(a: seq<Gate>, b: seq<Gate>, n: nat)
    requires AllFit(a, n) && AllFit(b, n)
    ensures AllFit(a + b, n)
  {
    hide Fits;
  }

  lemma IterationCount(target: string, k: nat)
    requires k >= 1 && |target| >= 1
    ensures HCount(Iterations(target, k))
            == HCount(Iterations(target, k - 1)) + 2 * |target| + if |target| == 1 then 0 else 4
  {
    var before := Iterations(target, k - 1);
    OracleShape(target);
    DiffuserShape(|target|);
    HCountAppend(before, Oracle(target));
    HCountAppend(before + Oracle(target), Diffuser(|target|));
  }

  /** The Hadamards, counted: n for the first layer and twice the exponent. */
  lemma {:induction false} CircuitCount(target: string, k: nat)
    requires k > 0 ==> |target| >= 1
    ensures HCount(Iterations(target, k)) == |target| + 2 * Exponent(|target|, k)
  {
    if k == 0 {
      HLayerCount(|target|);
    } else {
      CircuitCount(target, k - 1);
      IterationCount(target, k);
    }
  }

  // ---------- amplitudes after k iterations ----------

  /** The sum of amplitudes that are p on one state and q elsewhere. */
  lemma {:induction false} SumTwoValued(f: Amplitudes, z: Basis, p: real, q: real, k: nat, x: Basis)
    requires k <= |x| == |z| && forall y: Basis :: |y| == |x| ==> f(y) == if y == z then p else q
    ensures Sum(f, k, x) == Doubled(k, q) + if x[k..] == z[k..] then p - q else 0.0
  {
    if k == 0 {
      assert x[0..] == x && z[0..] == z;
    } else {
      var x0, x1 := x[k - 1 := false], x[k - 1 := true];
      SumTwoValued(f, z, p, q, k - 1, x0);
      SumTwoValued(f, z, p, q, k - 1, x1);
      assert x0[k - 1..] == [false] + x[k..] && x1[k - 1..] == [true] + x[k..] && z[k - 1..] == [z[k - 1]] + z[k..];
      assert x0[k - 1..][0] == false && x1[k - 1..][0] == true;
      assert x0[k - 1..][1..] == x[k..] && x1[k - 1..][1..] == x[k..] && z[k - 1..][1..] == z[k..];
      var hit := if z[k - 1] then x1 else x0;
      assert hit[k - 1..] == z[k - 1..] <==> x[k..] == z[k..];
      assert Doubled(k, q) == Doubled(k - 1, q) + Doubled(k - 1, q);
    }
  }

  function Mark(x: Basis, z: Basis, p: real, q: real): real { if x == z then p else q }

  lemma FoldIsDoubled(n: nat, v: real)
    ensures Fold(n, v) == Doubled(if n == 1 then 0 else 1, v)
  {
    assert Doubled(1, v) == 2.0 * Doubled(0, v);
  }

  lemma {:induction false} DoubledLinear(k: nat, u: real, v: real)
    ensures Doubled(k, u) + Doubled(k, v) == Doubled(k, u + v)
    ensures -Doubled(k, u) == Doubled(k, -u)
  {
    if k > 0 { DoubledLinear(k - 1, u, v); }
  }

  /** All states but the target always share one amplitude, and the pair turns by a fixed linear step. */
  lemma {:induction false} AmplitudesAfter(target: string, n: nat, size: real, k: nat, x: Basis)
    requires |x| == |target| == n && ValidateTarget(n, target).Ok? && (k > 0 ==> n >= 1)
    requires size == Pow2(n) >= 1.0
    ensures var u := Rotated(size, k);
            Amp(Iterations(target, k), START, x) == Doubled(Exponent(n, k), Mark(x, TargetState(target), u.t, u.r))
    decreases k
  {
    hide Amp, HLayer, Iterations, Doubled, Turned, Rotated, ValidateTarget, Mark;
    RotatedStep(size, k);
    if k == 0 {
      FirstLayer(target, n, x);
    } else {
      forall y: Basis | |y| == n
        ensures var u := Rotated(size, k - 1);
                Amp(Iterations(target, k - 1), START, y)
                  == Doubled(Exponent(n, k - 1), Mark(y, TargetState(target), u.t, u.r))
      {
        AmplitudesAfter(target, n, size, k - 1, y);
      }
      OneIteration(target, n, size, k, x, Exponent(n, k - 1), Rotated(size, k - 1));
    }
  }

  lemma FirstLayer(target: string, n: nat, x: Basis)
    requires |x| == |target| == n
    ensures Amp(Iterations(target, 0), START, x) == Doubled(0, Mark(x, TargetState(target), 1.0, 1.0))
  {
    HLayerOnSpike(n, 1.0, x);
  }

  lemma OneIteration(target: string, n: nat, size: real, k: nat, x: Basis, e: nat, u: Turn)
    requires |x| == |target| == n >= 1 && ValidateTarget(n, target).Ok? && k >= 1
    requires size == Pow2(n) >= 1.0
    requires forall y: Basis ::
             |y| == n ==> Amp(Iterations(target, k - 1), START, y) == Doubled(e, Mark(y, TargetState(target), u.t, u.r))
    ensures Amp(Iterations(target, k), START, x)
            == Doubled(e + n + if n == 1 then 0 else 2,
               Mark(x, TargetState(target), Turned(size, u).t, Turned(size, u).r))
  {
    hide Amp, HLayer, XLayer, MultiControlledZ, Sum, Doubled, Pow2, Fold, Mean;
    var before, z, f := Iterations(target, k - 1), TargetState(target), if n == 1 then 0 else 1;
    var marked := After(before + Oracle(target), START);
    var p, q := Doubled(f + e, -u.t), Doubled(f + e, u.r);
    forall y: Basis | |y| == n ensures marked(y) == if y == z then p else q {
      MarkedOnce(target, n, before, y, e, u);
    }
    var total := Total(marked, n);
    SumTwoValued(marked, z, p, q, n, Zeros(n));
    assert Zeros(n)[n..] == z[n..];
    Compose(before + Oracle(target), Diffuser(n), START, x);
    DiffuserSubtractsTwiceTheMean(n, marked, total, x);
    var v := if x == z then -u.t else u.r;
    TurnOnce(n, size, f + e, u, total, v);
    FoldIsDoubled(n, Doubled(n, marked(x)) - 2.0 * total);
    DoubledTwice(f, f + e + n, v - 2.0 * Mean(size, u));
  }

  lemma MarkedOnce(target: string, n: nat, before: seq<Gate>, y: Basis, e: nat, u: Turn)
    requires |y| == |target| == n >= 1 && ValidateTarget(n, target).Ok?
    requires Amp(before, START, y) == Doubled(e, Mark(y, TargetState(target), u.t, u.r))
    ensures Amp(before + Oracle(target), START, y)
            == Doubled((if n == 1 then 0 else 1) + e, if y == TargetState(target) then -u.t else u.r)
  {
    Compose(before, Oracle(target), START, y);
    OracleNegatesState(target, After(before, START), y);
    var v := if y == TargetState(target) then -u.t else u.r;
    DoubledLinear(e, u.t, 0.0);
    FoldIsDoubled(n, Doubled(e, v));
    DoubledTwice(if n == 1 then 0 else 1, e, v);
  }

  /** Subtracting twice the total, written over the size: v - 2 mean. */
  lemma TurnOnce(n: nat, size: real, j: nat, u: Turn, total: real, v: real)
    requires size == Pow2(n) >= 1.0
    requires total == Doubled(n, Doubled(j, u.r)) + Doubled(j, -u.t) - Doubled(j, u.r)
    ensures Doubled(n, Doubled(j, v)) - 2.0 * total == Doubled(j + n, v - 2.0 * Mean(size, u))
  {
    hide Pow2, Doubled, Mean;
    var mean, much := Mean(size, u), Doubled(n, u.r);
    MeanDoubled(n, size, u);
    DoubledTwice(n, j, u.r);
    DoubledTwice(j, n, u.r);
    DoubledLinear(j, -u.t, -u.r);
    DoubledLinear(j, u.r, 0.0);
    DoubledLinear(j, -u.t + -u.r, much);
    var sum := -u.t + -u.r + much;
    assert total == Doubled(j, sum);
    DoubledTwice(n, j, v);
    DoubledTwice(j, n, v);
    DoubledTwice(j, n, v - 2.0 * mean);
    DoubledLinear(n, mean, mean);
    DoubledLinear(n, mean + mean, 0.0);
    DoubledLinear(n, v, -(mean + mean));
    assert v - 2.0 * mean == v + -(mean + mean);
    DoubledLinear(j, sum, sum);
    DoubledLinear(j, sum + sum, 0.0);
    DoubledLinear(j, Doubled(n, v), -(sum + sum));
  }

  lemma MeanDoubled(n: nat, size: real, u: Turn)
    requires size == Pow2(n) >= 1.0
    ensures Doubled(n, Mean(size, u)) == -u.t + -u.r + Doubled(n, u.r)
  {
    hide Pow2, Doubled;
    DoubledIsPow2(n, Mean(size, u), size);
    DoubledIsPow2(n, u.r, size);
  }

  // ---------- probabilities ----------

  /** The square of a multiple of the uniform amplitude, as a chance. */
  function Share(c: real, size: real): real
    requires size >= 1.0
  {
    c * c / size
  }

  /** The chance of reading a state depends only on the rotation, not on the factors left over. */
  lemma ReadingChance(target: string, n: nat, size: real, k: nat, x: Basis)
    requires |x| == |target| == n && ValidateTarget(n, target).Ok? && (k > 0 ==> n >= 1)
    requires size == Pow2(n) >= 1.0
    ensures var u := Rotated(size, k);
            Probability(Iterations(target, k), START, x) == Share(Mark(x, TargetState(target), u.t, u.r), size)
  {
    hide Amp, Pow2, Doubled, Rotated, Iterations, HCount, Share, Chance;
    AmplitudesAfter(target, n, size, k, x);
    CircuitCount(target, k);
    var u := Rotated(size, k);
    Cancelled(Exponent(n, k), n, size, Mark(x, TargetState(target), u.t, u.r));
  }

  lemma Cancelled(e: nat, n: nat, size: real, c: real)
    requires size == Pow2(n) >= 1.0
    ensures Chance(Doubled(e, c), n + 2 * e) == Share(c, size)
  {
    hide Pow2, Doubled;
    var s, norm := Pow2(e), Pow2(n + 2 * e);
    DoubledIsPow2(e, c, s);
    Pow2Add(n, 2 * e);
    Pow2Add(e, e);
    Pow2Add(n + 2 * e, 0);
    CancelReals(s, c, size, Doubled(e, c), norm);
  }

  lemma CancelReals(s: real, c: real, size: real, amplitude: real, norm: real)
    requires size >= 1.0 && norm == size * (s * s) && norm >= 1.0 && amplitude == s * c
    ensures amplitude * amplitude / norm == c * c / size
  {
    var u, q := s * s, c * c;
    var w := q / size;
    assert amplitude * amplitude == u * q;
    assert w * size == q;
    assert w * norm == u * q;
  }

  /** Chebyshev's polynomials: cos(m * phi) as a polynomial in cos(phi). */
  function Chebyshev(m: nat, c: real): real {
    if m == 0 then 1.0 else if m == 1 then c else 2.0 * c * Chebyshev(m - 1, c) - Chebyshev(m - 2, c)
  }

  /** The second kind, shifted: sin(m * phi) / sin(phi). */
  function ChebyshevSine(m: nat, c: real): real {
    if m == 0 then 0.0 else c * ChebyshevSine(m - 1, c) + Chebyshev(m - 1, c)
  }

  /** The addition theorem for one more angle. */
  lemma {:induction false} ChebyshevStep(m: nat, c: real)
    ensures Chebyshev(m + 1, c) == c * Chebyshev(m, c) - (1.0 - c * c) * ChebyshevSine(m, c)
  {
    if m > 0 {
      ChebyshevStep(m - 1, c);
      ChebyshevUnfold(m, c);
      StepAlgebra(c, Chebyshev(m - 1, c), ChebyshevSine(m - 1, c));
    }
  }

  lemma ChebyshevUnfold(m: nat, c: real)
    requires m >= 1
    ensures Chebyshev(m + 1, c) == 2.0 * c * Chebyshev(m, c) - Chebyshev(m - 1, c)
    ensures ChebyshevSine(m, c) == c * ChebyshevSine(m - 1, c) + Chebyshev(m - 1, c)
  {}

  lemma StepAlgebra(c: real, t: real, u: real)
    ensures var t1, u1 := c * t - (1.0 - c * c) * u, c * u + t;
            2.0 * c * t1 - t == c * t1 - (1.0 - c * c) * u1
  {
    var d := 1.0 - c * c;
    var t1 := c * t - d * u;
    assert c * t1 == c * c * t - d * (c * u);
    assert d * (c * u + t) == d * (c * u) + d * t;
    assert d * t == t - c * c * t;
  }

  /**
   The squares and the product of the two amplitudes, by the angle they have turned: with
   sin(theta)^2 = 1/size this says t^2 = size * sin((2k+1) theta)^2.
   */
  ghost predicate AtAngle(size: real, u: Turn, cosine: real, sine: real) {
    && 2.0 * Times(u.t, u.t) == Times(size, 1.0 - cosine)
    && 2.0 * Times(size - 1.0, Times(u.r, u.r)) == Times(size, 1.0 + cosine)
    && Times(u.t, u.r) == sine
  }

  /** A product with a name, so that proofs can pass it on without multiplying out. */
  function Times(a: real, b: real): real { a * b }

  lemma {:induction false} RotationAngle(size: real, c: real, k: nat)
    requires size >= 2.0 && size * c == size - 2.0
    ensures AtAngle(size, Rotated(size, k), Chebyshev(2 * k + 1, c), ChebyshevSine(2 * k + 1, c))
  {
    hide AtAngle, Chebyshev, ChebyshevSine, Turned, Rotated;
    RotatedStep(size, k);
    if k == 0 {
      RotationStart(size, c);
    } else {
      var m := 2 * k - 1;
      RotationAngle(size, c, k - 1);
      ChebyshevStep(m, c);
      ChebyshevStep(m + 1, c);
      ChebyshevUnfold(m + 1, c);
      ChebyshevUnfold(m + 2, c);
      assert 2 * k + 1 == m + 2;
      RotationStep(size, c, Rotated(size, k - 1), Chebyshev(m, c), ChebyshevSine(m, c),
                   Chebyshev(m + 1, c), ChebyshevSine(m + 1, c), Chebyshev(m + 2, c), ChebyshevSine(m + 2, c));
    }
  }

  lemma RotationStart(size: real, c: real)
    requires size >= 2.0 && size * c == size - 2.0
    ensures AtAngle(size, Turn(1.0, 1.0), Chebyshev(1, c), ChebyshevSine(1, c))
  {
    assert ChebyshevSine(1, c) == c * ChebyshevSine(0, c) + Chebyshev(0, c) == 1.0;
  }

  lemma RotatedStep(size: real, k: nat)
    requires size >= 1.0
    ensures Rotated(size, k) == if k == 0 then Turn(1.0, 1.0) else Turned(size, Rotated(size, k - 1))
  {
    hide Turned;
  }

  /** One iteration turns by four thetas, two Chebyshev steps. */
  lemma RotationStep(size: real, c: real, u: Turn, x: real, y: real, x1: real, y1: real, x2: real, y2: real)
    requires size >= 2.0 && size * c == size - 2.0 && AtAngle(size, u, x, y)
    requires x1 == c * x - (1.0 - c * c) * y && y1 == c * y + x
    requires x2 == c * x1 - (1.0 - c * c) * y1 && y2 == c * y1 + x1
    ensures AtAngle(size, Turned(size, u), x2, y2)
  {
    hide Turned, Mean, AtAngle;
    // With g = 1 + c = 2 (size - 1) / size and h = 1 - c = 2 / size the step is t' = -c t - g r, r' = h t - c r.
    var g, h := 1.0 + c, 1.0 - c;
    assert size * h == 2.0 && size * g == 2.0 * (size - 1.0);
    StepByAngles(size, c, g, h, u);
    StepReals(size, c, g, h, u.t, u.r, Turned(size, u).t, Turned(size, u).r, x, y, x1, y1, x2, y2);
  }

  lemma StepReals(size: real, c: real, g: real, h: real, t: real, r: real, t': real, r': real,
                  x: real, y: real, x1: real, y1: real, x2: real, y2: real)
    requires size >= 2.0 && g == 1.0 + c && h == 1.0 - c && size * h == 2.0 && size * g == 2.0 * (size - 1.0)
    requires t' == -c * t - g * r && r' == h * t - c * r && AtAngle(size, Turn(t, r), x, y)
    requires x1 == c * x - (1.0 - c * c) * y && y1 == c * y + x
    requires x2 == c * x1 - (1.0 - c * c) * y1 && y2 == c * y1 + x1
    ensures AtAngle(size, Turn(t', r'), x2, y2)
  {
    hide Times;
    StepSquares(c, g, h, t, r, t', r');
    StepValues(size, c, g, h, Times(t, t), Times(r, r), x, Times(t, r), x1, y1, x2, y2,
               Times(t', t'), Times(r', r'), Times(t', r'));
  }

  lemma StepByAngles(size: real, c: real, g: real, h: real, u: Turn)
    requires size >= 2.0 && g == 1.0 + c && h == 1.0 - c && size * h == 2.0 && size * g == 2.0 * (size - 1.0)
    ensures Turned(size, u) == Turn(-c * u.t - g * u.r, h * u.t - c * u.r)
  {
    var mean := Mean(size, u);
    assert size * mean == -u.t + (size - 1.0) * u.r;
    assert 2.0 * mean == -h * u.t + g * u.r by {
      assert size * (-h * u.t + g * u.r) == -(size * h) * u.t + (size * g) * u.r;
    }
  }

  lemma StepSquares(c: real, g: real, h: real, t: real, r: real, t': real, r': real)
    requires t' == -c * t - g * r && r' == h * t - c * r
    ensures Times(t', t') == (c * c) * Times(t, t) + 2.0 * (c * g) * Times(t, r) + (g * g) * Times(r, r)
    ensures Times(r', r') == (h * h) * Times(t, t) - 2.0 * (c * h) * Times(t, r) + (c * c) * Times(r, r)
    ensures Times(t', r') == -(c * h) * Times(t, t) + (c * c - g * h) * Times(t, r) + (c * g) * Times(r, r)
  {}

  lemma StepValues(size: real, c: real, g: real, h: real, tt: real, rr: real, x: real, y: real,
                   x1: real, y1: real, x2: real, y2: real, tt': real, rr': real, tr': real)
    requires size >= 2.0 && g == 1.0 + c && h == 1.0 - c && size * h == 2.0 && size * g == 2.0 * (size - 1.0)
    requires 2.0 * tt == Times(size, 1.0 - x) && 2.0 * Times(size - 1.0, rr) == Times(size, 1.0 + x)
    requires x1 == c * x - (1.0 - c * c) * y && y1 == c * y + x
    requires x2 == c * x1 - (1.0 - c * c) * y1 && y2 == c * y1 + x1
    requires tt' == (c * c) * tt + 2.0 * (c * g) * y + (g * g) * rr
    requires rr' == (h * h) * tt - 2.0 * (c * h) * y + (c * c) * rr
    requires tr' == -(c * h) * tt + (c * c - g * h) * y + (c * g) * rr
    ensures 2.0 * tt' == Times(size, 1.0 - x2)
    ensures 2.0 * Times(size - 1.0, rr') == Times(size, 1.0 + x2)
    ensures tr' == y2
  {
    TwoSteps(c, g, h, x, y, x1, y1, x2, y2);
    assert h * tt == 1.0 - x by { assert 2.0 * (h * tt) == (size * h) * (1.0 - x); }
    assert g * rr == 1.0 + x by { assert size * (g * rr) == 2.0 * ((size - 1.0) * rr); }
    FirstSquare(size, c, g, h, tt, rr, x, y);
    SecondSquare(size, c, g, h, tt, rr, x, y);
    ProductValue(c, g, h, tt, rr, x, y);
  }

  lemma TwoSteps(c: real, g: real, h: real, x: real, y: real, x1: real, y1: real, x2: real, y2: real)
    requires g == 1.0 + c && h == 1.0 - c
    requires x1 == c * x - (1.0 - c * c) * y && y1 == c * y + x
    requires x2 == c * x1 - (1.0 - c * c) * y1 && y2 == c * y1 + x1
    ensures x2 == (c * c - g * h) * x - 2.0 * (c * (g * h)) * y
    ensures y2 == 2.0 * c * x + (c * c - g * h) * y
  {
    assert g * h == 1.0 - c * c;
    var d := 1.0 - c * c;
    assert c * x1 == (c * c) * x - d * (c * y);
    assert d * y1 == d * (c * y) + d * x;
  }

  lemma ProductValue(c: real, g: real, h: real, tt: real, rr: real, x: real, y: real)
    requires h * tt == 1.0 - x && g * rr == 1.0 + x
    ensures -(c * h) * tt + (c * c - g * h) * y + (c * g) * rr == 2.0 * c * x + (c * c - g * h) * y
  {
    assert (c * h) * tt == c * (1.0 - x) && (c * g) * rr == c * (1.0 + x);
  }

  lemma FirstSquare(size: real, c: real, g: real, h: real, tt: real, rr: real, x: real, y: real)
    requires size >= 2.0 && g == 1.0 + c && h == 1.0 - c && size * h == 2.0
    requires h * tt == 1.0 - x && g * rr == 1.0 + x
    ensures 2.0 * ((c * c) * tt + 2.0 * (c * g) * y + (g * g) * rr)
            == size * (1.0 - ((c * c - g * h) * x - 2.0 * (c * (g * h)) * y))
  {
    var left := (c * c) * tt + 2.0 * (c * g) * y + (g * g) * rr;
    var right := 1.0 - ((c * c - g * h) * x - 2.0 * (c * (g * h)) * y);
    // multiply by h
    assert h * left == (c * c) * (h * tt) + 2.0 * (c * (g * h)) * y + (g * h) * (g * rr);
    assert g * h == 1.0 - c * c;
    assert h * left == (c * c) * (1.0 - x) + 2.0 * (c * (g * h)) * y + (1.0 - c * c) * (1.0 + x);
    assert h * left == right;
    assert size * right == (size * h) * left;
  }

  lemma SecondSquare(size: real, c: real, g: real, h: real, tt: real, rr: real, x: real, y: real)
    requires size >= 2.0 && g == 1.0 + c && h == 1.0 - c && size * g == 2.0 * (size - 1.0)
    requires h * tt == 1.0 - x && g * rr == 1.0 + x
    ensures 2.0 * ((size - 1.0) * ((h * h) * tt - 2.0 * (c * h) * y + (c * c) * rr))
            == size * (1.0 + ((c * c - g * h) * x - 2.0 * (c * (g * h)) * y))
  {
    var left := (h * h) * tt - 2.0 * (c * h) * y + (c * c) * rr;
    var right := 1.0 + ((c * c - g * h) * x - 2.0 * (c * (g * h)) * y);
    assert g * left == (g * h) * (h * tt) - 2.0 * (c * (g * h)) * y + (c * c) * (g * rr);
    assert g * h == 1.0 - c * c;
    assert g * left == (1.0 - c * c) * (1.0 - x) - 2.0 * (c * (g * h)) * y + (c * c) * (1.0 + x);
    assert g * left == right;
    assert 2.0 * ((size - 1.0) * left) == (size * g) * left == size * (g * left);
  }

  /** The conserved quantity: the squares of all amplitudes. */
  lemma RotationConserves(size: real, k: nat)
    requires size >= 2.0
    ensures var u := Rotated(size, k); u.t * u.t + (size - 1.0) * (u.r * u.r) == size
  {
    var c := 1.0 - 2.0 / size;
    assert size * c == size - 2.0;
    RotationAngle(size, c, k);
    var cosine := Chebyshev(2 * k + 1, c);
    assert size * (1.0 - cosine) + size * (1.0 + cosine) == 2.0 * size;
  }

  lemma {:induction false} Pow2AtLeast2(n: nat)
    requires n >= 1
    ensures Pow2(n) >= 2.0
  {
    Pow2Add(n - 1, 0);
  }

  /**
   The exact outcome of the search: after k iterations the target is read with chance
   sin((2k+1) theta)^2 where sin(theta)^2 = 1/2^n, and every other text with an equal share of the rest.
   */
  lemma SearchOutcome(target: string, k: nat, text: string)
    requires |target| >= 1 && ValidateTarget(|target|, target).Ok? && ValidateTarget(|target|, text).Ok?
    ensures Pow2(|target|) >= 2.0
    ensures var size := Pow2(|target|);
            var cosine := Chebyshev(2 * k + 1, 1.0 - 2.0 / size);
            ChanceToRead(Iterations(target, k), OntoItself(|target|), |target|, text)
            == if text == target then (1.0 - cosine) / 2.0 else (1.0 + cosine) / 2.0 / (size - 1.0)
  {
    hide Pow2, Chebyshev, Probability, Iterations, ChanceToRead, TargetState;
    var size := Pow2(|target|);
    var x := TargetState(text);
    Pow2AtLeast2(|target|);
    CosineOf(size);
    OutcomeAt(target, size, 1.0 - 2.0 / size, k, x);
    ChanceIsProbability(Iterations(target, k), text);
    TargetIsRead(target, x);
    TargetIsRead(text, x);
  }

  /** The chance that the measurements print a text: the sum over all states printed so. */
  function ChanceToRead(gates: seq<Gate>, pairs: seq<(nat, nat)>, n: nat, text: string): real {
    Total(ReadAs(gates, pairs, text), n)
  }

  /** The chance of a state that is printed as the text, 0 of every other. */
  function ReadAs(gates: seq<Gate>, pairs: seq<(nat, nat)>, text: string): Amplitudes {
    x => if Readout(pairs, x) == text then Probability(gates, START, x) else 0.0
  }

  lemma ReadAsOne(gates: seq<Gate>, text: string, y: Basis)
    requires |y| == |text| && ValidateTarget(|text|, text).Ok?
    ensures ReadAs(gates, OntoItself(|text|), text)(y)
            == if y == TargetState(text) then Probability(gates, START, y) else 0.0
  {
    hide Readout, TargetState, Probability, OntoItself, ValidateTarget;
    TargetIsRead(text, y);
  }

  /** One state is printed as the text, so its chance is that of the text. */
  lemma ChanceIsProbability(gates: seq<Gate>, text: string)
    requires ValidateTarget(|text|, text).Ok?
    ensures ChanceToRead(gates, OntoItself(|text|), |text|, text) == Probability(gates, START, TargetState(text))
  {
    hide Readout, TargetState, Probability, Sum, OntoItself, ValidateTarget, Doubled, Pow2, ReadAs;
    var n, z := |text|, TargetState(text);
    var p := Probability(gates, START, z);
    var f := ReadAs(gates, OntoItself(n), text);
    forall y: Basis | |y| == n ensures f(y) == if y == z then p else 0.0 { ReadAsOne(gates, text, y); }
    SumTwoValued(f, z, p, 0.0, n, Zeros(n));
    assert Zeros(n)[n..] == z[n..];
    DoubledIsPow2(n, 0.0, Pow2(n));
  }

  lemma CosineOf(size: real)
    requires size >= 2.0
    ensures size * (1.0 - 2.0 / size) == size - 2.0
  {}

  lemma OutcomeAt(target: string, size: real, c: real, k: nat, x: Basis)
    requires |x| == |target| >= 1 && ValidateTarget(|target|, target).Ok?
    requires size == Pow2(|target|) >= 2.0 && size * c == size - 2.0
    ensures var cosine := Chebyshev(2 * k + 1, c);
            Probability(Iterations(target, k), START, x)
            == if x == TargetState(target) then (1.0 - cosine) / 2.0 else (1.0 + cosine) / 2.0 / (size - 1.0)
  {
    hide Pow2, Chebyshev, ChebyshevSine, Rotated, Probability, AtAngle, Iterations, Share;
    ReadingChance(target, |target|, size, k, x);
    RotationAngle(size, c, k);
    Shares(size, Rotated(size, k), Chebyshev(2 * k + 1, c), ChebyshevSine(2 * k + 1, c));
  }

  lemma Shares(size: real, u: Turn, cosine: real, sine: real)
    requires size >= 2.0 && AtAngle(size, u, cosine, sine)
    ensures Share(u.t, size) == (1.0 - cosine) / 2.0
    ensures Share(u.r, size) == (1.0 + cosine) / 2.0 / (size - 1.0)
  {
    ShareOf(size, u.t, 1.0 - cosine);
    ShareOfOthers(size, u.r, 1.0 + cosine);
  }

  lemma ShareOf(size: real, c: real, v: real)
    requires size >= 2.0 && 2.0 * (c * c) == size * v
    ensures Share(c, size) == v / 2.0
  {
    var p := Share(c, size);
    assert p * size == c * c;
  }

  lemma ShareOfOthers(size: real, c: real, v: real)
    requires size >= 2.0 && 2.0 * ((size - 1.0) * (c * c)) == size * v
    ensures Share(c, size) == v / 2.0 / (size - 1.0)
  {
    var p := Share(c, size);
    assert p * size == c * c;
    assert 2.0 * ((size - 1.0) * (p * size)) == size * (2.0 * ((size - 1.0) * p));
    assert 2.0 * ((size - 1.0) * p) == v;
    assert p * (size - 1.0) == v / 2.0;
  }

  /** For every circuit of fitting gates, the chances of all readings add up to 1. */
  lemma ChancesAddUp(n: nat, gates: seq<Gate>, chance: Amplitudes)
    requires AllFit(gates, n) && forall x: Basis :: |x| == n ==> chance(x) == Probability(gates, START, x)
    ensures Total(chance, n) == 1.0
  {
    var h := Pow2(HCount(gates));
    Pow2Add(HCount(gates), 0);
    SquaresConserved(n, gates, START);
    StartIsNormal(n);
    SumDivided(chance, Squared(After(gates, START)), h, n, Zeros(n));
  }

  lemma StartIsNormal(n: nat)
    ensures Total(Squared(START), n) == 1.0
  {
    var squares := Squared(START);
    forall y: Basis | |y| == n ensures squares(y) == if y == Zeros(n) then 1.0 else 0.0 {
      if forall i :: 0 <= i < n ==> !y[i] { assert y == Zeros(n); }
    }
    SumTwoValued(squares, Zeros(n), 1.0, 0.0, n, Zeros(n));
    DoubledIsPow2(n, 0.0, Pow2(n));
  }

  lemma {:induction false} SumDivided(f: Amplitudes, g: Amplitudes, h: real, k: nat, x: Basis)
    requires k <= |x| && h >= 1.0 && forall y: Basis :: |y| == |x| ==> f(y) == g(y) / h
    ensures Sum(f, k, x) == Sum(g, k, x) / h
  {
    if k > 0 {
      SumDivided(f, g, h, k - 1, x[k - 1 := false]);
      SumDivided(f, g, h, k - 1, x[k - 1 := true]);
    }
  }
}
