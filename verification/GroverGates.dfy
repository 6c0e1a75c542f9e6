/**
 Gate lists and what they do to amplitudes. A basis state is the list of its bits, qubit 0
 first. The Hadamard gate is taken without its factor 1/sqrt(2); the factors are counted
 instead, so that a probability is an amplitude squared over 2 to the number of Hadamards.
 */
module GroverGates {

  datatype Gate = H(qubit: nat) | X(qubit: nat) | Z(qubit: nat) | MCX(controls: seq<nat>, target: nat)

  type Basis = seq<bool>
  type Amplitudes = Basis -> real

  predicate Fits(g: Gate, n: nat) {
    match g
    case MCX(controls, target) => target < n && target !in controls && forall i ::
      0 <= i < |controls| ==> controls[i] < n
    case _ => g.qubit < n
  }

  predicate AllFit(gates: seq<Gate>, n: nat) {
    forall i :: 0 <= i < |gates| ==> Fits(gates[i], n)
  }

  /** v with the sign -1 when the bit is set. */
  function Signed(b: bool, v: real): real { if b then -v else v }

  predicate AllSet(controls: seq<nat>, x: Basis) {
    forall i :: 0 <= i < |controls| ==> controls[i] < |x| && x[controls[i]]
  }

  /**
   The amplitude of x after the gates, started from the amplitudes a. A gate that does not
   fit the register does nothing; circuits built here contain none (AllFit).
   */
  function Amp(gates: seq<Gate>, a: Amplitudes, x: Basis): real
    decreases |gates|
  {
    if gates == [] then a(x)
    else
      var init, g := gates[..|gates| - 1], gates[|gates| - 1];
      if !Fits(g, |x|) then Amp(init, a, x)
      else
        match g
        case H(q) => Amp(init, a, x[q := false]) + Signed(x[q], Amp(init, a, x[q := true]))
        case X(q) => Amp(init, a, x[q := !x[q]])
        case Z(q) => Signed(x[q], Amp(init, a, x))
        case MCX(controls, t) => Amp(init, a, if AllSet(controls, x) then x[t := !x[t]] else x)
  }

  /** The amplitudes after the gates. */
  function After(gates: seq<Gate>, a: Amplitudes): Amplitudes { x => Amp(gates, a, x) }

  lemma AmpSnoc(gates: seq<Gate>, g: Gate, a: Amplitudes, x: Basis)
    ensures !Fits(g, |x|) ==> Amp(gates + [g], a, x) == Amp(gates, a, x)
    ensures Fits(g, |x|) && g.H? ==>
      Amp(gates + [g], a, x)
        == Amp(gates, a, x[g.qubit := false]) + Signed(x[g.qubit], Amp(gates, a, x[g.qubit := true]))
    ensures Fits(g, |x|) && g.X? ==> Amp(gates + [g], a, x) == Amp(gates, a, x[g.qubit := !x[g.qubit]])
    ensures Fits(g, |x|) && g.Z? ==> Amp(gates + [g], a, x) == Signed(x[g.qubit], Amp(gates, a, x))
    ensures Fits(g, |x|) && g.MCX? ==>
      Amp(gates + [g], a, x) == Amp(gates, a, if AllSet(g.controls, x) then x[g.target := !x[g.target]] else x)
  {
    assert (gates + [g])[..|gates|] == gates;
  }

  /** Running more gates only depends on the amplitudes reached so far. */
  lemma {:induction false} Compose(gates: seq<Gate>, more: seq<Gate>, a: Amplitudes, x: Basis)
    ensures Amp(gates + more, a, x) == Amp(more, After(gates, a), x)
    decreases |more|
  {
    if more == [] {
      assert gates + more == gates;
    } else {
      var init, g := more[..|more| - 1], more[|more| - 1];
      assert gates + more == (gates + init) + [g];
      AmpSnoc(gates + init, g, a, x);
      Compose(gates, init, a, x);
      if Fits(g, |x|) {
        match g {
          case H(q) =>
            Compose(gates, init, a, x[q := false]);
            Compose(gates, init, a, x[q := true]);
          case X(q) => Compose(gates, init, a, x[q := !x[q]]);
          case Z(q) =>
          case MCX(controls, t) => Compose(gates, init, a, x[t := !x[t]]);
        }
      }
    }
  }

  /** Gates act linearly. */
  lemma {:induction false} Congruent(gates: seq<Gate>, a: Amplitudes, b: Amplitudes, x: Basis)
    requires forall y: Basis :: |y| == |x| ==> a(y) == b(y)
    ensures Amp(gates, a, x) == Amp(gates, b, x)
    decreases |gates|
  {
    if gates != [] {
      var init, g := gates[..|gates| - 1], gates[|gates| - 1];
      Congruent(init, a, b, x);
      if Fits(g, |x|) && !g.Z? {
        var q := if g.MCX? then g.target else g.qubit;
        Congruent(init, a, b, x[q := false]);
        Congruent(init, a, b, x[q := true]);
      }
    }
  }

  lemma {:induction false} Additive(gates: seq<Gate>, a: Amplitudes, b: Amplitudes, c: Amplitudes, x: Basis)
    requires forall y: Basis :: |y| == |x| ==> c(y) == a(y) + b(y)
    ensures Amp(gates, c, x) == Amp(gates, a, x) + Amp(gates, b, x)
    decreases |gates|
  {
    if gates != [] {
      var init, g := gates[..|gates| - 1], gates[|gates| - 1];
      Additive(init, a, b, c, x);
      if Fits(g, |x|) && !g.Z? {
        var q := if g.MCX? then g.target else g.qubit;
        Additive(init, a, b, c, x[q := false]);
        Additive(init, a, b, c, x[q := true]);
      }
    }
  }

  // ---------- sums over basis states ----------

  function Pow2(k: nat): real { if k == 0 then 1.0 else 2.0 * Pow2(k - 1) }

  lemma {:induction false} Pow2Add(j: nat, k: nat)
    ensures Pow2(j + k) == Pow2(j) * Pow2(k)
    ensures Pow2(j) >= 1.0
  {
    if j > 0 { Pow2Add(j - 1, k); } else if k > 0 { Pow2Add(0, k - 1); }
  }

  /** v doubled k times. */
  function Doubled(k: nat, v: real): real { if k == 0 then v else 2.0 * Doubled(k - 1, v) }

  lemma {:induction false} DoubledIsPow2(k: nat, v: real, size: real)
    requires size == Pow2(k)
    ensures Doubled(k, v) == size * v
  {
    if k > 0 { DoubledIsPow2(k - 1, v, Pow2(k - 1)); }
  }

  lemma {:induction false} DoubledTwice(j: nat, k: nat, v: real)
    ensures Doubled(j, Doubled(k, v)) == Doubled(j + k, v)
  {
    if j > 0 { DoubledTwice(j - 1, k, v); }
  }

  /** The sum of f over all settings of the bits below k, the others as in x. */
  function Sum(f: Amplitudes, k: nat, x: Basis): real
    requires k <= |x|
  {
    if k == 0 then f(x) else Sum(f, k - 1, x[k - 1 := false]) + Sum(f, k - 1, x[k - 1 := true])
  }

  function Zeros(n: nat): (x: Basis)
    ensures |x| == n && forall i :: 0 <= i < n ==> !x[i]
  {
    seq(n, i => false)
  }

  /** The sum over all n-bit states. */
  function Total(f: Amplitudes, n: nat): real { Sum(f, n, Zeros(n)) }

  lemma {:induction false} SumEqual(f: Amplitudes, g: Amplitudes, k: nat, x: Basis)
    requires k <= |x| && forall y: Basis :: |y| == |x| ==> f(y) == g(y)
    ensures Sum(f, k, x) == Sum(g, k, x)
  {
    if k > 0 {
      SumEqual(f, g, k - 1, x[k - 1 := false]);
      SumEqual(f, g, k - 1, x[k - 1 := true]);
    }
  }

  lemma {:induction false} SumDoubled(f: Amplitudes, g: Amplitudes, k: nat, x: Basis)
    requires k <= |x| && forall y: Basis :: |y| == |x| ==> f(y) == g(y) + g(y)
    ensures Sum(f, k, x) == 2.0 * Sum(g, k, x)
  {
    if k > 0 {
      SumDoubled(f, g, k - 1, x[k - 1 := false]);
      SumDoubled(f, g, k - 1, x[k - 1 := true]);
    }
  }

  /** f and g have the same sum on every pair of states that differ in bit q only. */
  ghost predicate PairSums(f: Amplitudes, g: Amplitudes, q: nat, n: nat)
    requires q < n
  {
    forall x: Basis :: |x| == n ==> f(x[q := false]) + f(x[q := true]) == g(x[q := false]) + g(x[q := true])
  }

  lemma UpdatesCommute(x: Basis, i: nat, j: nat)
    requires i < |x| && j < |x| && i != j
    ensures x[i := false][j := false] == x[j := false][i := false]
    ensures x[i := false][j := true] == x[j := true][i := false]
    ensures x[i := true][j := false] == x[j := false][i := true]
    ensures x[i := true][j := true] == x[j := true][i := true]
  {}

  lemma {:induction false} PairBelow(f: Amplitudes, g: Amplitudes, q: nat, k: nat, x: Basis)
    requires k <= q < |x| && PairSums(f, g, q, |x|)
    ensures Sum(f, k, x[q := false]) + Sum(f, k, x[q := true]) == Sum(g, k, x[q := false]) + Sum(g, k, x[q := true])
  {
    hide PairSums, Sum;
    if k == 0 {
      PairAtZero(f, g, q, x);
    } else {
      PairBelow(f, g, q, k - 1, x[k - 1 := false]);
      PairBelow(f, g, q, k - 1, x[k - 1 := true]);
      SumStep(f, k, q, x, false);
      SumStep(f, k, q, x, true);
      SumStep(g, k, q, x, false);
      SumStep(g, k, q, x, true);
    }
  }

  lemma PairAtZero(f: Amplitudes, g: Amplitudes, q: nat, x: Basis)
    requires q < |x| && PairSums(f, g, q, |x|)
    ensures Sum(f, 0, x[q := false]) + Sum(f, 0, x[q := true]) == Sum(g, 0, x[q := false]) + Sum(g, 0, x[q := true])
  {}

  /** One more bit summed over, below another one that is fixed. */
  lemma SumStep(f: Amplitudes, k: nat, q: nat, x: Basis, b: bool)
    requires 1 <= k <= q < |x|
    ensures Sum(f, k, x[q := b])
            == Sum(f, k - 1, x[k - 1 := false][q := b]) + Sum(f, k - 1, x[k - 1 := true][q := b])
  {
    assert x[q := b][k - 1 := false] == x[k - 1 := false][q := b];
    assert x[q := b][k - 1 := true] == x[k - 1 := true][q := b];
  }

  lemma {:induction false} PairAbove(f: Amplitudes, g: Amplitudes, q: nat, k: nat, x: Basis)
    requires q < k <= |x| && PairSums(f, g, q, |x|)
    ensures Sum(f, k, x) == Sum(g, k, x)
  {
    hide PairSums;
    if k == q + 1 {
      PairBelow(f, g, q, q, x);
    } else {
      PairAbove(f, g, q, k - 1, x[k - 1 := false]);
      PairAbove(f, g, q, k - 1, x[k - 1 := true]);
    }
  }

  // ---------- every circuit conserves probability ----------

  function HCount(gates: seq<Gate>): nat {
    if gates == [] then 0 else HCount(gates[..|gates| - 1]) + if gates[|gates| - 1].H? then 1 else 0
  }

  lemma {:induction false} HCountAppend(a: seq<Gate>, b: seq<Gate>)
    ensures HCount(a + b) == HCount(a) + HCount(b)
  {
    if b == [] {
      assert a + b == a;
    } else {
      HCountAppend(a, b[..|b| - 1]);
      assert (a + b)[..|a + b| - 1] == a + b[..|b| - 1];
    }
  }

  function Squared(f: Amplitudes): Amplitudes { x => f(x) * f(x) }

  /** The square of an amplitude over 2 to the number of Hadamards behind it. */
  function Chance(amplitude: real, hadamards: nat): real {
    Pow2Add(hadamards, 0);
    amplitude * amplitude / Pow2(hadamards)
  }

  /** The chance of reading x after running the gates from the amplitudes a. */
  function Probability(gates: seq<Gate>, a: Amplitudes, x: Basis): real {
    Chance(Amp(gates, a, x), HCount(gates))
  }

  lemma ZKeepsSquares(n: nat, gates: seq<Gate>, q: nat, a: Amplitudes)
    requires q < n
    ensures Total(Squared(After(gates + [Z(q)], a)), n) == Total(Squared(After(gates, a)), n)
  {
    hide Amp;
    forall x: Basis | |x| == n ensures Squared(After(gates + [Z(q)], a))(x) == Squared(After(gates, a))(x) {
      AmpSnoc(gates, Z(q), a, x);
      SquareSigns(Amp(gates, a, x), 0.0);
    }
    SumEqual(Squared(After(gates + [Z(q)], a)), Squared(After(gates, a)), n, Zeros(n));
  }

  /** A Not or a controlled Not only exchanges amplitudes in pairs. */
  lemma NotKeepsSquares(n: nat, gates: seq<Gate>, g: Gate, a: Amplitudes)
    requires Fits(g, n) && (g.X? || g.MCX?)
    ensures Total(Squared(After(gates + [g], a)), n) == Total(Squared(After(gates, a)), n)
  {
    hide Amp, Fits, Sum;
    var q := if g.MCX? then g.target else g.qubit;
    assert q < n by { FitsOwn(g, n); }
    var before, after := Squared(After(gates, a)), Squared(After(gates + [g], a));
    forall x: Basis | |x| == n
      ensures after(x[q := false]) + after(x[q := true]) == before(x[q := false]) + before(x[q := true])
    {
      GateOnPair(gates, g, a, x);
    }
    PairAbove(after, before, q, n, Zeros(n));
  }

  lemma FitsOwn(g: Gate, n: nat)
    requires Fits(g, n)
    ensures (if g.MCX? then g.target else g.qubit) < n
  {}

  /** A Hadamard doubles the squares of every pair. */
  lemma HDoublesSquares(n: nat, gates: seq<Gate>, q: nat, a: Amplitudes)
    requires q < n
    ensures Total(Squared(After(gates + [H(q)], a)), n) == 2.0 * Total(Squared(After(gates, a)), n)
  {
    hide Amp, Sum;
    var before, after := Squared(After(gates, a)), Squared(After(gates + [H(q)], a));
    var doubled: Amplitudes := x => before(x) + before(x);
    forall x: Basis | |x| == n
      ensures after(x[q := false]) + after(x[q := true]) == doubled(x[q := false]) + doubled(x[q := true])
    {
      GateOnPair(gates, H(q), a, x);
      SquareSigns(Amp(gates, a, x[q := false]), Amp(gates, a, x[q := true]));
    }
    PairAbove(after, doubled, q, n, Zeros(n));
    SumDoubled(doubled, before, n, Zeros(n));
  }

  lemma OneGateKeepsSquares(n: nat, gates: seq<Gate>, g: Gate, a: Amplitudes)
    requires Fits(g, n)
    ensures Total(Squared(After(gates + [g], a)), n) == (if g.H? then 2.0 else 1.0) * Total(Squared(After(gates, a)), n)
  {
    hide Total, Squared, After;
    match g
    case H(q) => HDoublesSquares(n, gates, q, a);
    case Z(q) => ZKeepsSquares(n, gates, q, a);
    case _ => NotKeepsSquares(n, gates, g, a);
  }

  lemma SquareSigns(u: real, v: real)
    ensures (u + v) * (u + v) + (u - v) * (u - v) == (u * u + u * u) + (v * v + v * v)
    ensures (-u) * (-u) == u * u
  {}

  /** What a gate other than Z does to the two states that differ in its own bit. */
  lemma GateOnPair(gates: seq<Gate>, g: Gate, a: Amplitudes, x: Basis)
    requires Fits(g, |x|) && !g.Z?
    ensures var q := if g.MCX? then g.target else g.qubit;
            var u, v := Amp(gates, a, x[q := false]), Amp(gates, a, x[q := true]);
            var u', v' := Amp(gates + [g], a, x[q := false]), Amp(gates + [g], a, x[q := true]);
            if g.H? then u' == u + v && v' == u - v else (u' == u && v' == v) || (u' == v && v' == u)
  {
    var q := if g.MCX? then g.target else g.qubit;
    var x0, x1 := x[q := false], x[q := true];
    AmpSnoc(gates, g, a, x0);
    AmpSnoc(gates, g, a, x1);
    assert x0[q := true] == x1 && x1[q := false] == x0 && x0[q := false] == x0 && x1[q := true] == x1;
    if g.MCX? {
      forall i | 0 <= i < |g.controls| ensures g.controls[i] < |x| && x0[g.controls[i]] == x1[g.controls[i]] {
        assert g.controls[i] in g.controls;
      }
      assert AllSet(g.controls, x0) == AllSet(g.controls, x1);
    }
  }

  /** The squares of the amplitudes grow by exactly one factor 2 per Hadamard: probabilities are conserved. */
  lemma {:induction false} SquaresConserved(n: nat, gates: seq<Gate>, a: Amplitudes)
    requires AllFit(gates, n)
    ensures Total(Squared(After(gates, a)), n) == Pow2(HCount(gates)) * Total(Squared(a), n)
    decreases |gates|
  {
    if gates == [] {
      SumEqual(Squared(After(gates, a)), Squared(a), n, Zeros(n));
    } else {
      var init, g := gates[..|gates| - 1], gates[|gates| - 1];
      SquaresConserved(n, init, a);
      OneGateKeepsSquares(n, init, g, a);
      assert gates == init + [g];
    }
  }

  // ---------- layers ----------

  /** A Hadamard on each of the first k qubits. */
  function HLayer(k: nat): (gates: seq<Gate>)
    ensures |gates| == k
    ensures forall i :: 0 <= i < k ==> gates[i] == H(i)
  {
    if k == 0 then [] else HLayer(k - 1) + [H(k - 1)]
  }

  /** A Not on each of the first k qubits that the mask selects. */
  function XLayer(mask: seq<bool>, k: nat): (gates: seq<Gate>)
    requires k <= |mask|
    ensures AllFit(gates, k)
  {
    if k == 0 then [] else if mask[k - 1] then XLayer(mask, k - 1) + [X(k - 1)] else XLayer(mask, k - 1)
  }

  function Flip(x: Basis, mask: seq<bool>, k: nat): (y: Basis)
    requires k <= |mask| && k <= |x|
    ensures |y| == |x|
    ensures forall i :: 0 <= i < |x| ==> y[i] == if i < k && mask[i] then !x[i] else x[i]
  {
    seq(|x|, i requires 0 <= i < |x| => if i < k && mask[i] then !x[i] else x[i])
  }

  lemma {:induction false} XLayerFlips(mask: seq<bool>, k: nat, a: Amplitudes, x: Basis)
    requires k <= |mask| && k <= |x|
    ensures Amp(XLayer(mask, k), a, x) == a(Flip(x, mask, k))
    decreases k
  {
    hide Amp, Flip, XLayer;
    FlipStep(x, mask, k);
    XLayerStep(mask, k);
    if k == 0 {
      NoGates(a, x);
    } else {
      if mask[k - 1] { AmpSnoc(XLayer(mask, k - 1), X(k - 1), a, x); }
      XLayerFlips(mask, k - 1, a, if mask[k - 1] then x[k - 1 := !x[k - 1]] else x);
    }
  }

  lemma XLayerStep(mask: seq<bool>, k: nat)
    requires k <= |mask|
    ensures XLayer(mask, k) ==
            if k == 0 then [] else if mask[k - 1] then XLayer(mask, k - 1) + [X(k - 1)] else XLayer(mask, k - 1)
  {}

  lemma NoGates(a: Amplitudes, x: Basis)
    ensures Amp([], a, x) == a(x)
  {}

  lemma FlipStep(x: Basis, mask: seq<bool>, k: nat)
    requires k <= |mask| && k <= |x|
    ensures Flip(x, mask, k)
            == if k == 0 then x else Flip(if mask[k - 1] then x[k - 1 := !x[k - 1]] else x, mask, k - 1)
  {}

  lemma HSnoc(gates: seq<Gate>, q: nat, a: Amplitudes, x: Basis)
    requires q < |x|
    ensures Amp(gates + [H(q)], a, x) == Amp(gates, a, x[q := false]) + Signed(x[q], Amp(gates, a, x[q := true]))
  {
    hide Amp, Signed;
    AmpSnoc(gates, H(q), a, x);
  }

  /** The amplitude at x after Hadamards on two qubits, as a sum over the four states they reach. */
  function FromFour(f: Amplitudes, i: nat, j: nat, x: Basis): real
    requires i < |x| && j < |x|
  {
    f(x[i := false][j := false]) + Signed(x[j], f(x[i := false][j := true]))
    + Signed(x[i], f(x[i := true][j := false]) + Signed(x[j], f(x[i := true][j := true])))
  }

  lemma HTwice(gates: seq<Gate>, i: nat, j: nat, a: Amplitudes, x: Basis)
    requires i < |x| && j < |x| && i != j
    ensures Amp(gates + [H(j)] + [H(i)], a, x) == FromFour(After(gates, a), i, j, x)
  {
    hide Amp;
    HSnoc(gates + [H(j)], i, a, x);
    HSnoc(gates, j, a, x[i := false]);
    HSnoc(gates, j, a, x[i := true]);
  }

  /** Hadamards on two qubits may change places. */
  lemma HSwapped(gates: seq<Gate>, i: nat, j: nat, a: Amplitudes, x: Basis)
    requires i < |x| && j < |x| && i != j
    ensures Amp(gates + [H(j)] + [H(i)], a, x) == Amp(gates + [H(i)] + [H(j)], a, x)
  {
    hide Amp;
    HTwice(gates, i, j, a, x);
    HTwice(gates, j, i, a, x);
    UpdatesCommute(x, i, j);
  }

  /** A Hadamard on another qubit moves past a layer. */
  lemma {:induction false} HCommutes(gates: seq<Gate>, k: nat, q: nat, a: Amplitudes, x: Basis)
    requires k <= q < |x|
    ensures Amp(gates + [H(q)] + HLayer(k), a, x) == Amp(gates + HLayer(k) + [H(q)], a, x)
    decreases k
  {
    hide Amp, Signed;
    if k == 0 {
      assert gates + [H(q)] + HLayer(k) == gates + HLayer(k) + [H(q)];
    } else {
      var j := k - 1;
      var layer := HLayer(j);
      HCommutes(gates, j, q, a, x[j := false]);
      HCommutes(gates, j, q, a, x[j := true]);
      HSnoc(gates + [H(q)] + layer, j, a, x);
      HSnoc(gates + layer + [H(q)], j, a, x);
      HSwapped(gates + layer, j, q, a, x);
      LayerSnoc(gates, k);
      LayerSnoc(gates + [H(q)], k);
    }
  }

  lemma LayerSnoc(gates: seq<Gate>, k: nat)
    requires k >= 1
    ensures gates + HLayer(k) == gates + HLayer(k - 1) + [H(k - 1)]
  {}

  /** A layer of Hadamards applied twice multiplies by 2 per qubit. */
  lemma {:induction false} HLayerTwice(k: nat, a: Amplitudes, x: Basis)
    requires k <= |x|
    ensures Amp(HLayer(k) + HLayer(k), a, x) == Doubled(k, a(x))
    decreases k
  {
    if k > 0 {
      var q := k - 1;
      var once, twice := HLayer(q), HLayer(q) + HLayer(q);
      assert HLayer(k) + HLayer(k) == (once + [H(q)] + HLayer(q)) + [H(q)];
      AmpSnoc(once + [H(q)] + HLayer(q), H(q), a, x);
      HCommutes(once, q, q, a, x[q := false]);
      HCommutes(once, q, q, a, x[q := true]);
      GateOnPair(twice, H(q), a, x);
      HLayerTwice(q, a, x);
      assert x == x[q := x[q]];
    }
  }

  /** On a state whose low bits are zero a layer sums the amplitudes. */
  lemma {:induction false} HLayerSums(k: nat, a: Amplitudes, x: Basis)
    requires k <= |x| && forall i :: 0 <= i < k ==> !x[i]
    ensures Amp(HLayer(k), a, x) == Sum(a, k, x)
    decreases k
  {
    if k > 0 {
      AmpSnoc(HLayer(k - 1), H(k - 1), a, x);
      HLayerSums(k - 1, a, x[k - 1 := false]);
      HLayerSums(k - 1, a, x[k - 1 := true]);
    }
  }

  /** The amplitudes that are d on the all-zero state and 0 elsewhere. */
  function Spike(d: real): Amplitudes {
    x => if forall i :: 0 <= i < |x| ==> !x[i] then d else 0.0
  }

  /** From the all-zero state a full layer gives every state the same amplitude. */
  lemma {:induction false} HLayerOnSpike(k: nat, d: real, x: Basis)
    requires k <= |x|
    ensures Amp(HLayer(k), Spike(d), x) == if forall i :: k <= i < |x| ==> !x[i] then d else 0.0
    decreases k
  {
    if k > 0 {
      var q := k - 1;
      var x0, x1 := x[q := false], x[q := true];
      AmpSnoc(HLayer(q), H(q), Spike(d), x);
      HLayerOnSpike(q, d, x0);
      HLayerOnSpike(q, d, x1);
      assert x1[q];
      if forall i :: k <= i < |x| ==> !x[i] {
        assert forall i :: q <= i < |x| ==> !x0[i];
      } else {
        var i :| k <= i < |x| && x[i];
        assert x0[i];
      }
    }
  }
}
