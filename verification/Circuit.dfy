/** Boolean circuits as gate lists. Wire `w` is input `w` when `w` is below the
    number of inputs, and the output of gate `w - inputs` otherwise. */
module Circuit {

  datatype Gate =
    | XorGate(a: nat, b: nat)
    | AndGate(a: nat, b: nat)
    | InvGate(a: nat)
    | ConstGate(v: bool)

  /** Every operand of `g` is one of the first `n` wires. */
  predicate ReadsBelow(g: Gate, n: nat) {
    match g
    case XorGate(a, b) => a < n && b < n
    case AndGate(a, b) => a < n && b < n
    case InvGate(a) => a < n
    case ConstGate(_) => true
  }

  predicate WellFormed(gates: seq<Gate>, inputs: nat) {
    forall i :: 0 <= i < |gates| ==> ReadsBelow(gates[i], inputs + i)
  }

  function GateValue(g: Gate, w: seq<bool>): bool
    requires ReadsBelow(g, |w|)
  {
    match g
    case XorGate(a, b) => w[a] != w[b]
    case AndGate(a, b) => w[a] && w[b]
    case InvGate(a) => !w[a]
    case ConstGate(v) => v
  }

  lemma WellFormedTail(gates: seq<Gate>, inputs: nat)
    requires WellFormed(gates, inputs) && gates != []
    ensures ReadsBelow(gates[0], inputs) && WellFormed(gates[1..], inputs + 1)
  {
    assert ReadsBelow(gates[0], inputs + 0);
    forall i | 0 <= i < |gates[1..]|
      ensures ReadsBelow(gates[1..][i], inputs + 1 + i)
    {
      assert ReadsBelow(gates[i + 1], inputs + (i + 1));
    }
  }

  lemma WellFormedConcat(g: seq<Gate>, h: seq<Gate>, inputs: nat)
    requires WellFormed(g, inputs) && WellFormed(h, inputs + |g|)
    ensures WellFormed(g + h, inputs)
  {
    forall i | 0 <= i < |g + h|
      ensures ReadsBelow((g + h)[i], inputs + i)
    {
      if i < |g| {
        assert ReadsBelow(g[i], inputs + i);
      } else {
        assert ReadsBelow(h[i - |g|], inputs + |g| + (i - |g|));
      }
    }
  }

  /** The values of all wires after the gates ran in order, starting from `w`. */
  function Eval(gates: seq<Gate>, w: seq<bool>): (r: seq<bool>)
    requires WellFormed(gates, |w|)
    ensures |r| == |w| + |gates|
    ensures forall i :: 0 <= i < |w| ==> r[i] == w[i]
    decreases |gates|
  {
    if gates == [] then w
    else
      WellFormedTail(gates, |w|);
      Eval(gates[1..], w + [GateValue(gates[0], w)])
  }

  /** Running two gate lists one after the other. */
  lemma {:induction false} EvalConcat(g: seq<Gate>, h: seq<Gate>, w: seq<bool>)
    requires WellFormed(g, |w|) && WellFormed(h, |w| + |g|)
    ensures WellFormed(g + h, |w|)
    ensures Eval(g + h, w) == Eval(h, Eval(g, w))
    decreases |g|
  {
    WellFormedConcat(g, h, |w|);
    if g == [] {
      assert g + h == h;
    } else {
      WellFormedTail(g, |w|);
      assert (g + h)[1..] == g[1..] + h;
      EvalConcat(g[1..], h, w + [GateValue(g[0], w)]);
    }
  }

  /** The first gates of a list run the same on their own. */
  lemma EvalPrefix(g: seq<Gate>, h: seq<Gate>, w: seq<bool>)
    requires WellFormed(g + h, |w|)
    ensures WellFormed(g, |w|)
    ensures Eval(g, w) <= Eval(g + h, w)
  {
    forall i | 0 <= i < |g| ensures ReadsBelow(g[i], |w| + i) {
      assert g[i] == (g + h)[i];
    }
    forall i | 0 <= i < |h| ensures ReadsBelow(h[i], |w| + |g| + i) {
      assert h[i] == (g + h)[|g| + i];
    }
    EvalConcat(g, h, w);
  }

  lemma ReadsBelowMore(g: Gate, n: nat, n': nat)
    requires ReadsBelow(g, n) && n <= n'
    ensures ReadsBelow(g, n')
  {}

  /** Every gate's wire ends up as the gate's function of its operand wires. */
  lemma {:induction false} GateEquation(gates: seq<Gate>, w: seq<bool>, i: nat)
    requires WellFormed(gates, |w|) && i < |gates|
    ensures ReadsBelow(gates[i], |w| + |gates|)
    ensures Eval(gates, w)[|w| + i] == GateValue(gates[i], Eval(gates, w))
    decreases |gates|
  {
    WellFormedTail(gates, |w|);
    assert ReadsBelow(gates[i], |w| + i);
    ReadsBelowMore(gates[i], |w| + i, |w| + |gates|);
    var w1 := w + [GateValue(gates[0], w)];
    if i > 0 {
      assert gates[1..][i - 1] == gates[i];
      GateEquation(gates[1..], w1, i - 1);
    }
  }

  /** The value of wire `w` of the circuit on input `x`; false for a wire it does not have. */
  function WireValue(gates: seq<Gate>, x: seq<bool>, w: nat): bool {
    WellFormed(gates, |x|) && w < |x| + |gates| && Eval(gates, x)[w]
  }

  function WireValues(gates: seq<Gate>, x: seq<bool>, ws: seq<nat>): (r: seq<bool>)
    ensures |r| == |ws|
    ensures forall i :: 0 <= i < |ws| ==> r[i] == WireValue(gates, x, ws[i])
  {
    seq(|ws|, i requires 0 <= i < |ws| => WireValue(gates, x, ws[i]))
  }

  /** Later gates keep the value of every earlier wire. */
  lemma ValueKept(g: seq<Gate>, g': seq<Gate>, x: seq<bool>, w: nat)
    requires WellFormed(g', |x|) && g <= g' && w < |x| + |g|
    ensures WireValue(g', x, w) == WireValue(g, x, w)
  {
    assert g + g'[|g|..] == g';
    EvalPrefix(g, g'[|g|..], x);
  }

  lemma ValuesKept(g: seq<Gate>, g': seq<Gate>, x: seq<bool>, ws: seq<nat>)
    requires WellFormed(g', |x|) && g <= g' && Within(ws, |x| + |g|)
    ensures WireValues(g', x, ws) == WireValues(g, x, ws)
  {
    forall i | 0 <= i < |ws|
      ensures WireValue(g', x, ws[i]) == WireValue(g, x, ws[i])
    {
      ValueKept(g, g', x, ws[i]);
    }
  }

  /** The value of the wire that gate `i` drives. */
  function GateOutput(g: Gate, gates: seq<Gate>, x: seq<bool>): bool {
    match g
    case XorGate(a, b) => WireValue(gates, x, a) != WireValue(gates, x, b)
    case AndGate(a, b) => WireValue(gates, x, a) && WireValue(gates, x, b)
    case InvGate(a) => !WireValue(gates, x, a)
    case ConstGate(v) => v
  }

  lemma WireEquation(gates: seq<Gate>, x: seq<bool>, i: nat)
    requires WellFormed(gates, |x|) && i < |gates|
    ensures WireValue(gates, x, |x| + i) == GateOutput(gates[i], gates, x)
  {
    GateEquation(gates, x, i);
  }

  /** `ws` selects existing wires. */
  predicate Within(ws: seq<nat>, n: nat) {
    forall i :: 0 <= i < |ws| ==> ws[i] < n
  }

  function Select(ws: seq<nat>, w: seq<bool>): (r: seq<bool>)
    requires Within(ws, |w|)
    ensures |r| == |ws|
    ensures forall i :: 0 <= i < |ws| ==> r[i] == w[ws[i]]
  {
    seq(|ws|, i requires 0 <= i < |ws| => w[ws[i]])
  }

  function Ands(gates: seq<Gate>): nat {
    if gates == [] then 0 else (if gates[0].AndGate? then 1 else 0) + Ands(gates[1..])
  }

  function Consts(gates: seq<Gate>): nat {
    if gates == [] then 0 else (if gates[0].ConstGate? then 1 else 0) + Consts(gates[1..])
  }
}
