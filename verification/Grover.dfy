/** Grover's search as a circuit builder, and what the emitted circuits mean. */
module Grover {
  import opened Basics
  import opened GroverGates
  import opened GroverCount

  datatype Error = LengthMismatch | NotABit

  function ValidateTarget(nQubits: int, target: string): Result<(), Error> {
    if |target| != nQubits then Err(LengthMismatch)
    else if exists i :: 0 <= i < |target| && target[i] !in "01" then Err(NotABit)
    else Ok(())
  }

  /** Qubit q reads the target string from its end. */
  function BitForQubit(target: string, q: nat): char
    requires q < |target|
  {
    target[|target| - 1 - q]
  }

  /** The qubits the oracle inverts: those whose bit is 0. */
  function OracleMask(target: string): (mask: seq<bool>)
    ensures |mask| == |target|
    ensures forall q :: 0 <= q < |mask| ==> mask[q] == (BitForQubit(target, q) == '0')
  {
    seq(|target|, q requires 0 <= q < |target| => BitForQubit(target, q) == '0')
  }

  function Ones(n: nat): (mask: seq<bool>)
    ensures |mask| == n && forall i :: 0 <= i < n ==> mask[i]
  {
    seq(n, i => true)
  }

  /** The basis state the target string names. */
  function TargetState(target: string): (x: Basis)
    ensures |x| == |target|
    ensures forall q :: 0 <= q < |x| ==> x[q] == (BitForQubit(target, q) == '1')
  {
    seq(|target|, q requires 0 <= q < |target| => BitForQubit(target, q) == '1')
  }

  function Upto(k: nat): (s: seq<nat>)
    ensures |s| == k && forall i :: 0 <= i < k ==> s[i] == i
  {
    seq(k, i => i)
  }

  /** Qubit q is read into classical bit q. */
  function OntoItself(k: nat): (pairs: seq<(nat, nat)>)
    ensures |pairs| == k && forall q :: 0 <= q < k ==> pairs[q] == (q, q)
  {
    if k == 0 then [] else OntoItself(k - 1) + [(k - 1, k - 1)]
  }

  // ---------- the emitted gate lists ----------

  function MultiControlledZ(n: nat): seq<Gate>
    requires n >= 1
  {
    if n == 1 then [Z(0)] else [H(n - 1), MCX(Upto(n - 1), n - 1), H(n - 1)]
  }

  function Oracle(target: string): seq<Gate>
    requires |target| >= 1
  {
    XLayer(OracleMask(target), |target|) + MultiControlledZ(|target|) + XLayer(OracleMask(target), |target|)
  }

  function Diffuser(n: nat): seq<Gate>
    requires n >= 1
  {
    HLayer(n) + XLayer(Ones(n), n) + MultiControlledZ(n) + XLayer(Ones(n), n) + HLayer(n)
  }

  function Iterations(target: string, k: nat): seq<Gate>
    requires k > 0 ==> |target| >= 1
  {
    if k == 0 then HLayer(|target|) else Iterations(target, k - 1) + Oracle(target) + Diffuser(|target|)
  }

  /** A circuit under construction. */
  class Circuit {
    const nQubits: nat
    var gates: seq<Gate>
    var measured: seq<(nat, nat)>

    constructor (n: nat)
      ensures nQubits == n && gates == [] && measured == []
    {
      nQubits := n;
      gates, measured := [], [];
    }

    method Append(g: Gate)
      requires Fits(g, nQubits)
      modifies `gates
      ensures gates == old(gates) + [g]
    {
      gates := gates + [g];
    }

    /** `circuit.h(range(k))`. */
    method HAll(k: nat)
      requires k <= nQubits
      modifies `gates
      ensures gates == old(gates) + HLayer(k)
    {
      for q := 0 to k
        invariant gates == old(gates) + HLayer(q)
      {
        Append(H(q));
      }
    }

    /** `circuit.measure(range(k), range(k))`. */
    method MeasureAll(k: nat)
      requires k <= nQubits
      modifies `measured
      ensures measured == old(measured) + OntoItself(k)
    {
      for q := 0 to k
        invariant measured == old(measured) + OntoItself(q)
      {
        measured := measured + [(q, q)];
      }
    }

    /** A Not on every qubit below k that the mask selects. */
    method XWhere(mask: seq<bool>, k: nat)
      requires k <= nQubits && k <= |mask|
      modifies `gates
      ensures gates == old(gates) + XLayer(mask, k)
    {
      for q := 0 to k
        invariant gates == old(gates) + XLayer(mask, q)
      {
        if mask[q] { Append(X(q)); }
      }
    }
  }

  method ApplyMultiControlledZ(circuit: Circuit, n: nat)
    requires 1 <= n <= circuit.nQubits
    modifies circuit`gates
    ensures circuit.gates == old(circuit.gates) + MultiControlledZ(n)
  {
    if n == 1 {
      circuit.Append(Z(0));
      return;
    }
    circuit.Append(H(n - 1));
    circuit.Append(MCX(Upto(n - 1), n - 1));
    circuit.Append(H(n - 1));
  }

  method ApplyPhaseOracle(circuit: Circuit, target: string)
    requires 1 <= |target| <= circuit.nQubits
    modifies circuit`gates
    ensures circuit.gates == old(circuit.gates) + Oracle(target)
  {
    var n := |target|;
    circuit.XWhere(OracleMask(target), n);
    ApplyMultiControlledZ(circuit, n);
    circuit.XWhere(OracleMask(target), n);
  }

  method ApplyDiffuser(circuit: Circuit, n: nat)
    requires 1 <= n <= circuit.nQubits
    modifies circuit`gates
    ensures circuit.gates == old(circuit.gates) + Diffuser(n)
  {
    circuit.HAll(n);
    circuit.XWhere(Ones(n), n);
    ApplyMultiControlledZ(circuit, n);
    circuit.XWhere(Ones(n), n);
    circuit.HAll(n);
  }

  /** The circuit and how many iterations it makes. */
  method BuildGroverCircuit(m: Math, nQubits: int, target: string) returns (r: Result<(Circuit, nat), Error>)
    requires Exact(m)
    ensures r.Err? ==> ValidateTarget(nQubits, target) == Err(r.error)
    ensures r.Ok? ==>
            ValidateTarget(nQubits, target).Ok? && fresh(r.value.0) && r.value.1 == OptimalIterations(m, nQubits)
    ensures r.Ok? ==> r.value.0.nQubits == nQubits && r.value.0.gates == Iterations(target, r.value.1)
    ensures r.Ok? ==> r.value.0.measured == OntoItself(nQubits)
  {
    var valid := ValidateTarget(nQubits, target);
    if valid.Err? { return Err(valid.error); }
    var iterations := OptimalIterations(m, nQubits);
    var circuit := new Circuit(nQubits);
    circuit.HAll(nQubits);
    for i := 0 to iterations
      invariant circuit.gates == Iterations(target, i) && circuit.measured == []
    {
      ApplyPhaseOracle(circuit, target);
      ApplyDiffuser(circuit, nQubits);
    }
    circuit.MeasureAll(nQubits);
    r := Ok((circuit, iterations));
  }

  // ---------- what a measurement prints ----------

  function Digit(b: bool): char { if b then '1' else '0' }

  /** A classical register as it is printed: its last bit first. */
  function Printed(bits: seq<bool>): string {
    if bits == [] then "" else Printed(bits[1..]) + [Digit(bits[0])]
  }

  /** What the measurements leave in classical bit c: the qubit last read into it. */
  function BitRead(pairs: seq<(nat, nat)>, x: Basis, c: nat): bool {
    if pairs == [] then false
    else
      var last := pairs[|pairs| - 1];
      if last.1 == c then last.0 < |x| && x[last.0] else BitRead(pairs[..|pairs| - 1], x, c)
  }

  /** The text printed when the state x is measured, for as many classical bits as qubits. */
  function Readout(pairs: seq<(nat, nat)>, x: Basis): string {
    Printed(seq(|x|, c requires 0 <= c < |x| => BitRead(pairs, x, c)))
  }

  lemma {:induction false} BitReadOntoItself(k: nat, x: Basis, c: nat)
    requires k <= |x|
    ensures BitRead(OntoItself(k), x, c) == (c < k && x[c])
  {
    if k > 0 {
      var pairs := OntoItself(k);
      assert pairs[..k - 1] == OntoItself(k - 1) && pairs[k - 1] == (k - 1, k - 1);
      BitReadOntoItself(k - 1, x, c);
    }
  }

  /** The character at each place of a printed register. */
  lemma {:induction false} PrintedAt(bits: seq<bool>)
    ensures |Printed(bits)| == |bits|
    ensures forall i :: 0 <= i < |bits| ==> Printed(bits)[i] == Digit(bits[|bits| - 1 - i])
  {
    if bits != [] { PrintedAt(bits[1..]); }
  }

  /** Every qubit measured into its own bit prints the state. */
  lemma ReadoutOntoItself(x: Basis)
    ensures Readout(OntoItself(|x|), x) == Printed(x)
  {
    hide BitRead, OntoItself, Printed;
    var bits := seq(|x|, c requires 0 <= c < |x| => BitRead(OntoItself(|x|), x, c));
    forall c | 0 <= c < |x| ensures bits[c] == x[c] { BitReadOntoItself(|x|, x, c); }
    assert bits == x;
  }

  /** The state the oracle is built for is the one that is printed as the target string. */
  lemma TargetIsRead(target: string, x: Basis)
    requires |x| == |target| && ValidateTarget(|target|, target).Ok?
    ensures x == TargetState(target) <==> Readout(OntoItself(|x|), x) == target
  {
    hide OntoItself, Readout, Printed, TargetState;
    ReadoutOntoItself(x);
    PrintedAt(x);
    if x == TargetState(target) {
      SamePlaces(target, x);
    } else {
      var q :| 0 <= q < |x| && x[q] != TargetState(target)[q];
      var i := |x| - 1 - q;
      assert target[i] in "01" && Printed(x)[i] == Digit(x[q]);
    }
  }

  lemma SamePlaces(target: string, x: Basis)
    requires |x| == |target| && ValidateTarget(|target|, target).Ok? && x == TargetState(target)
    ensures Printed(x) == target
  {
    hide Printed, TargetState;
    PrintedAt(x);
    forall i | 0 <= i < |x| ensures Printed(x)[i] == target[i] {
      var q := |x| - 1 - i;
      assert target[i] in "01" && x[q] == (BitForQubit(target, q) == '1');
    }
  }

  /** The targets accepted are exactly the texts that n measured qubits can print. */
  lemma ValidTargets(n: nat, target: string)
    ensures ValidateTarget(n, target).Ok? <==> exists x: Basis :: |x| == n && Readout(OntoItself(n), x) == target
    ensures ValidateTarget(n, target) == Err(LengthMismatch) <==> |target| != n
  {
    hide OntoItself, Readout, Printed, TargetState;
    if ValidateTarget(n, target).Ok? {
      TargetIsRead(target, TargetState(target));
    }
    if x: Basis :| |x| == n && Readout(OntoItself(n), x) == target {
      ReadoutOntoItself(x);
      PrintedAt(x);
      assert forall i :: 0 <= i < n ==> target[i] == Printed(x)[i];
    }
  }

  // ---------- what the pieces do ----------

  predicate AllOnes(x: Basis) { forall i :: 0 <= i < |x| ==> x[i] }

  /** The Hadamards that cancel inside the multi-controlled Z leave a factor 2, except on one qubit. */
  function Fold(n: nat, v: real): real { if n == 1 then v else 2.0 * v }

  /** The multi-controlled Z negates the all-ones state and nothing else. */
  lemma MultiControlledZNegatesAllOnes(n: nat, a: Amplitudes, x: Basis)
    requires |x| == n >= 1
    ensures Amp(MultiControlledZ(n), a, x) == Fold(n, if AllOnes(x) then -a(x) else a(x))
  {
    if n == 1 {
      AmpSnoc([], Z(0), a, x);
    } else {
      ControlsSet(x);
      ControlledSandwich(MultiControlledZ(n), Upto(n - 1), n - 1, a, x);
    }
  }

  /** A controlled Not between two Hadamards on its target negates the states with target and controls set. */
  lemma ControlledSandwich(gates: seq<Gate>, controls: seq<nat>, t: nat, a: Amplitudes, x: Basis)
    requires t < |x| && Fits(MCX(controls, t), |x|) && gates == [H(t), MCX(controls, t), H(t)]
    requires AllSet(controls, x[t := false]) == AllSet(controls, x[t := true])
    ensures Amp(gates, a, x) == if x[t] && AllSet(controls, x[t := true]) then -2.0 * a(x) else 2.0 * a(x)
  {
    var x0, x1 := x[t := false], x[t := true];
    var first: seq<Gate> := [H(t)];
    var second := first + [MCX(controls, t)];
    assert gates == second + [H(t)];
    AmpSnoc(second, H(t), a, x);
    AmpSnoc(first, MCX(controls, t), a, x0);
    AmpSnoc(first, MCX(controls, t), a, x1);
    GateOnPair([], H(t), a, x);
    assert [] + [H(t)] == first;
    assert x0[t := true] == x1 && x1[t := false] == x0 && x == (if x[t] then x1 else x0);
  }

  /** All bits are set when the last one and the controls are; the controls do not depend on the last bit. */
  lemma ControlsSet(x: Basis)
    requires |x| >= 1
    ensures var t := |x| - 1;
            && Fits(MCX(Upto(t), t), |x|)
            && AllSet(Upto(t), x[t := false]) == AllSet(Upto(t), x[t := true])
            && AllOnes(x) == (x[t] && AllSet(Upto(t), x[t := true]))
  {
    var t := |x| - 1;
    LowBitsSet(x, false);
    LowBitsSet(x, true);
  }

  lemma LowBitsSet(x: Basis, b: bool)
    requires |x| >= 1
    ensures var t := |x| - 1; AllSet(Upto(t), x[t := b]) == forall i :: 0 <= i < t ==> x[i]
  {
    var t := |x| - 1;
    var y := x[t := b];
    if AllSet(Upto(t), y) {
      forall i | 0 <= i < t ensures x[i] { assert Upto(t)[i] == i && y[i]; }
    }
  }

  /** Nots before and after move the negated state to the complement of the mask. */
  lemma Conjugated(mask: seq<bool>, a: Amplitudes, x: Basis)
    requires |x| == |mask| >= 1
    ensures var n := |x|;
            Amp(XLayer(mask, n) + MultiControlledZ(n) + XLayer(mask, n), a, x)
            == Fold(n, if forall i :: 0 <= i < n ==> x[i] != mask[i] then -a(x) else a(x))
  {
    var n := |x|;
    var flips, mcz := XLayer(mask, n), MultiControlledZ(n);
    var y := Flip(x, mask, n);
    Compose(flips + mcz, flips, a, x);
    XLayerFlips(mask, n, After(flips + mcz, a), x);
    Compose(flips, mcz, a, y);
    MultiControlledZNegatesAllOnes(n, After(flips, a), y);
    XLayerFlips(mask, n, a, y);
    assert Flip(y, mask, n) == x;
  }

  /** The oracle negates exactly the state that is read as the target. */
  lemma OracleNegatesTarget(target: string, a: Amplitudes, x: Basis)
    requires |x| == |target| >= 1 && ValidateTarget(|target|, target).Ok?
    ensures Amp(Oracle(target), a, x)
            == Fold(|x|, if Readout(OntoItself(|x|), x) == target then -a(x) else a(x))
  {
    OracleNegatesState(target, a, x);
    TargetIsRead(target, x);
  }

  lemma OracleNegatesState(target: string, a: Amplitudes, x: Basis)
    requires |x| == |target| >= 1 && ValidateTarget(|target|, target).Ok?
    ensures Amp(Oracle(target), a, x) == Fold(|x|, if x == TargetState(target) then -a(x) else a(x))
  {
    var n := |x|;
    var mask := OracleMask(target);
    Conjugated(mask, a, x);
    forall q | 0 <= q < n ensures mask[q] != TargetState(target)[q] {
      assert target[n - 1 - q] in "01";
    }
    if forall i :: 0 <= i < n ==> x[i] != mask[i] {
      assert x == TargetState(target);
    }
  }

  /** The diffuser takes twice the mean from every amplitude; 2 to the n of its Hadamards, and Fold, are left over. */
  lemma DiffuserSubtractsTwiceTheMean(n: nat, a: Amplitudes, total: real, x: Basis)
    requires |x| == n >= 1 && total == Total(a, n)
    ensures Amp(Diffuser(n), a, x) == Fold(n, Doubled(n, a(x)) - 2.0 * total)
  {
    hide Amp, Sum, XLayer, MultiControlledZ, Doubled;
    var doubled := Doubled(n, a(x));
    var layer, inner := HLayer(n), XLayer(Ones(n), n) + MultiControlledZ(n) + XLayer(Ones(n), n);
    assert Diffuser(n) == layer + inner + layer;
    var once := After(layer, a);
    Compose(layer + inner, layer, a, x);
    HLayerSums(n, a, Zeros(n));
    var d := Fold(n, -2.0 * total);
    var folded: Amplitudes := y => Fold(n, once(y));
    forall y: Basis | |y| == n ensures Amp(layer + inner, a, y) == folded(y) + Spike(d)(y) {
      Compose(layer, inner, a, y);
      InnerOfDiffuser(n, once, total, y);
    }
    Additive(layer, folded, Spike(d), After(layer + inner, a), x);
    HLayerOnSpike(n, d, x);
    FoldedLayer(n, once, folded, x);
    Compose(layer, layer, a, x);
    HLayerTwice(n, a, x);
    FoldAdds(n, doubled, -2.0 * total);
    assert Amp(Diffuser(n), a, x) == Fold(n, doubled) + d;
  }

  lemma FoldAdds(n: nat, u: real, v: real)
    ensures Fold(n, u) + Fold(n, v) == Fold(n, u + v)
  {}

  /** Between the two Hadamard layers only the all-zero state is negated. */
  lemma InnerOfDiffuser(n: nat, b: Amplitudes, total: real, y: Basis)
    requires |y| == n >= 1 && total == b(Zeros(n))
    ensures Amp(XLayer(Ones(n), n) + MultiControlledZ(n) + XLayer(Ones(n), n), b, y)
            == Fold(n, b(y)) + Spike(Fold(n, -2.0 * total))(y)
  {
    Conjugated(Ones(n), b, y);
    if y == Zeros(n) {
      FoldAdds(n, b(y), -2.0 * b(y));
    } else {
      var i :| 0 <= i < n && y[i];
      assert y[i] == Ones(n)[i];
    }
  }

  lemma FoldedLayer(n: nat, b: Amplitudes, folded: Amplitudes, x: Basis)
    requires |x| == n >= 1 && forall y: Basis :: |y| == n ==> folded(y) == Fold(n, b(y))
    ensures Amp(HLayer(n), folded, x) == Fold(n, Amp(HLayer(n), b, x))
  {
    if n == 1 {
      Congruent(HLayer(n), folded, b, x);
    } else {
      Additive(HLayer(n), b, b, folded, x);
    }
  }
}
