/** A circuit-building backend: each operation records a gate and returns its wire. */
module Backend {
  import opened Circuit

  class Recorder {
    const inputs: nat
    var gates: seq<Gate>

    constructor (inputs: nat)
      ensures this.inputs == inputs && gates == []
    {
      this.inputs := inputs;
      gates := [];
    }

    ghost predicate Valid()
      reads this
    {
      WellFormed(gates, inputs)
    }

    ghost predicate Has(ws: seq<nat>)
      reads this
    {
      Within(ws, inputs + |gates|)
    }

    method Emit(g: Gate) returns (w: nat)
      modifies this
      ensures gates == old(gates) + [g] && w == inputs + |old(gates)|
    {
      w := inputs + |gates|;
      gates := gates + [g];
    }

    method XorWires(a: nat, b: nat) returns (w: nat)
      modifies this
      ensures gates == old(gates) + [XorGate(a, b)] && w == inputs + |old(gates)|
    {
      w := Emit(XorGate(a, b));
    }

    method AndWires(a: nat, b: nat) returns (w: nat)
      modifies this
      ensures gates == old(gates) + [AndGate(a, b)] && w == inputs + |old(gates)|
    {
      w := Emit(AndGate(a, b));
    }

    method Constant(v: bool) returns (w: nat)
      modifies this
      ensures gates == old(gates) + [ConstGate(v)] && w == inputs + |old(gates)|
    {
      w := Emit(ConstGate(v));
    }
  }

  /** One more gate on existing wires. */
  lemma Appended(g: seq<Gate>, x: Gate, n: nat)
    requires WellFormed(g, n) && ReadsBelow(x, n + |g|)
    ensures WellFormed(g + [x], n)
  {
    assert WellFormed([x], n + |g|);
    WellFormedConcat(g, [x], n);
  }

  /** What an appended gate's wire carries, in terms of the circuit before it. */
  lemma AppendedValue(g: seq<Gate>, x: Gate, input: seq<bool>)
    requires WellFormed(g, |input|) && ReadsBelow(x, |input| + |g|)
    ensures WireValue(g + [x], input, |input| + |g|) == GateOutput(x, g, input)
  {
    Appended(g, x, |input|);
    WireEquation(g + [x], input, |g|);
    match x {
      case XorGate(a, b) =>
        ValueKept(g, g + [x], input, a);
        ValueKept(g, g + [x], input, b);
      case AndGate(a, b) =>
        ValueKept(g, g + [x], input, a);
        ValueKept(g, g + [x], input, b);
      case InvGate(a) =>
        ValueKept(g, g + [x], input, a);
      case ConstGate(v) =>
    }
  }
}
