/** The generator of the SHA-256 compression circuit: a builder that appends gates, and
    the u32 helpers that use it. Every contract speaks of all inputs of the circuit. */
module CompressBuilder {
  import opened Bits
  import opened Words
  import opened Sha256
  import Circuit

  datatype GateKind = Inv | Xor2 | And2

  /** `in2` is unused by an inverter. */
  datatype Gate = Gate(kind: GateKind, in1: nat, in2: nat, out: nat)

  function Lower(g: Gate): Circuit.Gate {
    match g.kind
    case Inv => Circuit.InvGate(g.in1)
    case Xor2 => Circuit.XorGate(g.in1, g.in2)
    case And2 => Circuit.AndGate(g.in1, g.in2)
  }

  function Lowered(gates: seq<Gate>): (r: seq<Circuit.Gate>)
    ensures |r| == |gates|
  {
    seq(|gates|, i requires 0 <= i < |gates| => Lower(gates[i]))
  }

  /** Gate `i` drives wire `n + i` and reads earlier wires only. */
  predicate Sequential(gates: seq<Gate>, n: nat) {
    && (forall i :: 0 <= i < |gates| ==> gates[i].out == n + i)
    && Circuit.WellFormed(Lowered(gates), n)
  }

  /** The value of wire `w` of the circuit on `input`. */
  function Val(gates: seq<Gate>, input: seq<bool>, w: nat): bool {
    Sequential(gates, |input|) && Circuit.WireValue(Lowered(gates), input, w)
  }

  /** The bits on the wires `ws`. */
  function ReadAll(gates: seq<Gate>, ws: seq<nat>, input: seq<bool>): (r: seq<bool>)
    ensures |r| == |ws|
    ensures forall i :: 0 <= i < |ws| ==> r[i] == Val(gates, input, ws[i])
  {
    seq(|ws|, i requires 0 <= i < |ws| => Val(gates, input, ws[i]))
  }

  type U32 = ws: seq<nat> | |ws| == 32 witness seq(32, _ => 0)

  /** The 32-bit word on the wires `ws`. */
  function Read(gates: seq<Gate>, ws: U32, input: seq<bool>): Word {
    ReadAll(gates, ws, input)
  }

  /** Appending gates keeps the value of every earlier wire. */
  lemma ValKept(g: seq<Gate>, g': seq<Gate>, input: seq<bool>, w: nat)
    requires Sequential(g', |input|) && g <= g' && w < |input| + |g|
    ensures Sequential(g, |input|)
    ensures Val(g', input, w) == Val(g, input, w)
  {
    var n, more := |input|, g'[|g|..];
    var lg, lm, lg' := Lowered(g), Lowered(more), Lowered(g');
    assert lg' == lg + lm;
    forall i | 0 <= i < |g| ensures Circuit.ReadsBelow(lg[i], n + i) && g[i].out == n + i {
      assert lg[i] == lg'[i] && g[i] == g'[i];
    }
    forall i | 0 <= i < |more| ensures Circuit.ReadsBelow(lm[i], n + |g| + i) {
      assert lm[i] == lg'[|g| + i];
    }
    Circuit.EvalConcat(lg, lm, input);
  }

  lemma ReadKept(g: seq<Gate>, g': seq<Gate>, ws: seq<nat>, input: seq<bool>)
    requires Sequential(g', |input|) && g <= g' && Circuit.Within(ws, |input| + |g|)
    ensures ReadAll(g', ws, input) == ReadAll(g, ws, input)
  {
    forall i | 0 <= i < |ws|
      ensures Val(g', input, ws[i]) == Val(g, input, ws[i])
    {
      ValKept(g, g', input, ws[i]);
    }
  }

  lemma AppendedGate(g: seq<Gate>, x: Gate, n: nat)
    requires Sequential(g, n) && x.out == n + |g| && Circuit.ReadsBelow(Lower(x), n + |g|)
    ensures Sequential(g + [x], n)
  {
    assert Lowered(g + [x]) == Lowered(g) + [Lower(x)];
    assert Circuit.WellFormed([Lower(x)], n + |g|);
    Circuit.WellFormedConcat(Lowered(g), [Lower(x)], n);
  }

  function BitFunction(kind: GateKind, x: bool, y: bool): bool {
    match kind
    case Inv => !x
    case Xor2 => x != y
    case And2 => x && y
  }

  /** Every gate's wire carries the gate's function of its operand wires. */
  lemma WireEquation(g: seq<Gate>, i: nat, input: seq<bool>)
    requires Sequential(g, |input|) && i < |g|
    ensures g[i].out == |input| + i
    ensures Val(g, input, g[i].out) == BitFunction(g[i].kind, Val(g, input, g[i].in1), Val(g, input, g[i].in2))
  {
    Circuit.GateEquation(Lowered(g), input, i);
  }

  // ---------------------------------------------------------------- the builder

  class Builder {
    ghost const inputs: nat
    var nextWire: nat
    var gates: seq<Gate>
    var zero: nat
    var one: nat

    /** Gates are sequential, and they start with the two constants. */
    ghost predicate Valid()
      reads this
    {
      && inputs > 0
      && Sequential(gates, inputs)
      && nextWire == inputs + |gates|
      && |gates| >= 2
      && gates[0] == Gate(Xor2, 0, 0, zero) && gates[1] == Gate(Inv, zero, 0, one)
    }

    ghost predicate Has(ws: U32)
      reads this
    {
      Circuit.Within(ws, inputs + |gates|)
    }

    constructor (nInputBits: nat)
      requires nInputBits > 0
      ensures Valid() && inputs == nInputBits && |gates| == 2
    {
      inputs := nInputBits;
      zero, one := nInputBits, nInputBits + 1;
      nextWire := nInputBits + 2;
      gates := [Gate(Xor2, 0, 0, nInputBits), Gate(Inv, nInputBits, 0, nInputBits + 1)];
      new;
      assert Lowered(gates) == [Circuit.XorGate(0, 0), Circuit.InvGate(nInputBits)];
    }

    method AllocWire() returns (w: nat)
      modifies this`nextWire
      ensures w == old(nextWire) && nextWire == old(nextWire) + 1
    {
      w := nextWire;
      nextWire := nextWire + 1;
    }

    /** Appends one gate on a new wire. */
    method Push(kind: GateKind, in1: nat, in2: nat) returns (out: nat)
      requires Valid() && in1 < nextWire && in2 < nextWire
      modifies this`nextWire, this`gates
      ensures Valid()
      ensures gates == old(gates) + [Gate(kind, in1, in2, out)] && out == old(nextWire)
    {
      out := AllocWire();
      var g := Gate(kind, in1, in2, out);
      AppendedGate(gates, g, inputs);
      gates := gates + [g];
    }

    /** `result[0]` is bit 31; each wire is one of the two constant wires. */
    method ConstantU32(value: nat) returns (out: U32)
      requires Valid()
      ensures Has(out)
      ensures forall input | |input| == inputs :: Read(gates, out, input) == FromNat(32, value)
    {
      var ws: seq<nat> := [];
      while |ws| < 32
        invariant |ws| <= 32
        invariant forall i :: 0 <= i < |ws| ==> ws[i] == if FromNat(32, value)[i] then one else zero
      {
        var i := |ws|;
        FromNatBit(32, value, i);
        var bit := (value / Pow2(31 - i)) % 2;
        ws := ws + [if bit == 1 then one else zero];
      }
      out := ws;
      ghost var u: U32 := ws;
      forall input: seq<bool> | |input| == inputs
        ensures Read(gates, u, input) == FromNat(32, value)
      {
        ConstantWires(input);
        Ext(Read(gates, u, input), FromNat(32, value));
      }
    }

    lemma ConstantWires(input: seq<bool>)
      requires Valid() && |input| == inputs
      ensures !Val(gates, input, zero) && Val(gates, input, one)
    {
      WireEquation(gates, 0, input);
      WireEquation(gates, 1, input);
    }
  }

  // ---------------------------------------------------------------- u32 helpers

  /** In `g`, over `n` inputs, the word on `out` is `f` of the words on `a` and `c`. */
  ghost predicate Gives(g: seq<Gate>, n: nat, f: (Word, Word) -> Word, a: U32, c: U32, out: U32) {
    && Circuit.Within(a, n + |g|) && Circuit.Within(c, n + |g|) && Circuit.Within(out, n + |g|)
    && forall input: seq<bool> | |input| == n :: Read(g, out, input) == f(Read(g, a, input), Read(g, c, input))
  }

  /** Later gates do not disturb what the wires give. */
  lemma GivesKept(g: seq<Gate>, g': seq<Gate>, n: nat, f: (Word, Word) -> Word, a: U32, c: U32, out: U32)
    requires Gives(g, n, f, a, c, out) && g <= g' && Sequential(g', n)
    ensures Gives(g', n, f, a, c, out)
  {
    forall input: seq<bool> | |input| == n
      ensures Read(g', out, input) == f(Read(g', a, input), Read(g', c, input))
    {
      ReadKept(g, g', a, input);
      ReadKept(g, g', c, input);
      ReadKept(g, g', out, input);
    }
  }

  function WordFunction(kind: GateKind): (Word, Word) -> Word {
    match kind
    case Inv => (x: Word, y: Word) => NotW(x)
    case Xor2 => XorW
    case And2 => AndW
  }

  /** The wires `ws` carry the gate function of the first bits of `a` and `c`. */
  ghost predicate Mapped(g: seq<Gate>, n: nat, kind: GateKind, a: U32, c: U32, ws: seq<nat>) {
    && |ws| <= 32
    && Circuit.Within(a, n + |g|) && Circuit.Within(c, n + |g|) && Circuit.Within(ws, n + |g|)
    && forall input: seq<bool>, i | |input| == n && 0 <= i < |ws| :: MappedBit(g, input, kind, a[i], c[i], ws[i])
  }

  predicate MappedBit(g: seq<Gate>, input: seq<bool>, kind: GateKind, x: nat, y: nat, out: nat) {
    Val(g, input, out) == BitFunction(kind, Val(g, input, x), Val(g, input, y))
  }

  lemma MappedBitKept(g: seq<Gate>, g': seq<Gate>, input: seq<bool>, kind: GateKind, x: nat, y: nat, out: nat)
    requires MappedBit(g, input, kind, x, y, out) && g <= g' && Sequential(g', |input|)
    requires x < |input| + |g| && y < |input| + |g| && out < |input| + |g|
    ensures MappedBit(g', input, kind, x, y, out)
  {
    ValKept(g, g', input, x);
    ValKept(g, g', input, y);
    ValKept(g, g', input, out);
  }

  lemma MappedStep(g: seq<Gate>, g': seq<Gate>, n: nat, kind: GateKind, a: U32, c: U32, ws: seq<nat>, in2: nat)
    requires Mapped(g, n, kind, a, c, ws) && |ws| < 32
    requires kind.Inv? || in2 == c[|ws|]
    requires g' == g + [Gate(kind, a[|ws|], in2, n + |g|)] && Sequential(g', n)
    ensures Mapped(g', n, kind, a, c, ws + [n + |g|])
  {
    var ws' := ws + [n + |g|];
    forall input: seq<bool>, i | |input| == n && 0 <= i < |ws'|
      ensures MappedBit(g', input, kind, a[i], c[i], ws'[i])
    {
      if i == |ws| {
        WireEquation(g', |g|, input);
      } else {
        MappedBitKept(g, g', input, kind, a[i], c[i], ws[i]);
      }
    }
  }

  lemma MappedGives(g: seq<Gate>, n: nat, kind: GateKind, a: U32, c: U32, ws: U32)
    requires Mapped(g, n, kind, a, c, ws)
    ensures Gives(g, n, WordFunction(kind), a, c, ws)
  {
    forall input: seq<bool> | |input| == n
      ensures Read(g, ws, input) == WordFunction(kind)(Read(g, a, input), Read(g, c, input))
    {
      forall i | 0 <= i < 32
        ensures Read(g, ws, input)[i] == BitFunction(kind, Read(g, a, input)[i], Read(g, c, input)[i])
      {
        assert MappedBit(g, input, kind, a[i], c[i], ws[i]);
      }
      BitFunctionWord(kind, Read(g, a, input), Read(g, c, input), Read(g, ws, input));
    }
  }

  lemma BitFunctionWord(kind: GateKind, x: Word, y: Word, r: Word)
    requires forall i :: 0 <= i < 32 ==> r[i] == BitFunction(kind, x[i], y[i])
    ensures r == WordFunction(kind)(x, y)
  {
    Ext(r, WordFunction(kind)(x, y));
  }

  /** One gate per bit. */
  method Bitwise(b: Builder, kind: GateKind, a: U32, c: U32) returns (out: U32)
    requires b.Valid() && b.Has(a) && b.Has(c)
    modifies b
    ensures b.Valid() && old(b.gates) <= b.gates
    ensures Gives(b.gates, b.inputs, WordFunction(kind), a, c, out)
  {
    var ws: seq<nat> := [];
    while |ws| < 32
      invariant |ws| <= 32 && b.Valid() && old(b.gates) <= b.gates
      invariant Mapped(b.gates, b.inputs, kind, a, c, ws)
    {
      ghost var g := b.gates;
      var in2 := if kind.Inv? then 0 else c[|ws|];
      var w := b.Push(kind, a[|ws|], in2);
      MappedStep(g, b.gates, b.inputs, kind, a, c, ws, in2);
      ws := ws + [w];
    }
    out := ws;
    MappedGives(b.gates, b.inputs, kind, a, c, out);
  }

  method XorU32(b: Builder, a: U32, c: U32) returns (out: U32)
    requires b.Valid() && b.Has(a) && b.Has(c)
    modifies b
    ensures b.Valid() && old(b.gates) <= b.gates
    ensures Gives(b.gates, b.inputs, XorW, a, c, out)
  {
    out := Bitwise(b, Xor2, a, c);
  }

  method AndU32(b: Builder, a: U32, c: U32) returns (out: U32)
    requires b.Valid() && b.Has(a) && b.Has(c)
    modifies b
    ensures b.Valid() && old(b.gates) <= b.gates
    ensures Gives(b.gates, b.inputs, AndW, a, c, out)
  {
    out := Bitwise(b, And2, a, c);
  }

  method NotU32(b: Builder, a: U32) returns (out: U32)
    requires b.Valid() && b.Has(a)
    modifies b
    ensures b.Valid() && old(b.gates) <= b.gates
    ensures Gives(b.gates, b.inputs, (x: Word, y: Word) => NotW(x), a, a, out)
  {
    out := Bitwise(b, Inv, a, a);
  }

  /** Rotation is rewiring. */
  function RotrU32(a: U32, amount: nat): (out: U32)
    ensures forall k :: 0 <= k < 32 ==> out[k] == a[(k + 32 - amount % 32) % 32]
  {
    seq(32, k requires 0 <= k < 32 => a[(k + 32 - amount % 32) % 32])
  }

  /** Rewired wires read as the rotated word; the amount counts modulo 32. */
  lemma RotrReads(gates: seq<Gate>, a: U32, amount: nat, input: seq<bool>)
    ensures Read(gates, RotrU32(a, amount), input) == Rotr(amount % 32, Read(gates, a, input))
  {
    var n, x, out := amount % 32, Read(gates, a, input), RotrU32(a, amount);
    forall k | 0 <= k < 32
      ensures Read(gates, out, input)[k] == Rotr(n, x)[k]
    {
      if k < n {
        assert (k + 32 - n) % 32 == k + 32 - n;
        assert Shl(32 - n, x)[k] == x[k + 32 - n];
      } else {
        assert (k + 32 - n) % 32 == k - n;
        assert Shr(n, x)[k] == x[k - n];
      }
    }
    Ext(Read(gates, out, input), Rotr(n, x));
  }

  /** Amounts below the word size, which are all that SHA-256 uses. */
  lemma SmallRotrReads(gates: seq<Gate>, a: U32, n: nat, input: seq<bool>)
    requires n < 32
    ensures Read(gates, RotrU32(a, n), input) == Rotr(n, Read(gates, a, input))
  {
    RotrReads(gates, a, n, input);
  }

  method ShrU32(b: Builder, a: U32, n: nat) returns (out: U32)
    requires b.Valid() && b.Has(a)
    ensures b.Has(out)
    ensures forall input | |input| == b.inputs ::
      Read(b.gates, out, input) == Shr(if n <= 32 then n else 32, Read(b.gates, a, input))
  {
    out := seq(32, k requires 0 <= k < 32 reads b => if k >= n then a[k - n] else b.zero);
    ghost var u := out;
    forall input: seq<bool> | |input| == b.inputs
      ensures Read(b.gates, u, input) == Shr(if n <= 32 then n else 32, Read(b.gates, a, input))
    {
      b.ConstantWires(input);
      Ext(Read(b.gates, u, input), Shr(if n <= 32 then n else 32, Read(b.gates, a, input)));
    }
  }

  // ---------------------------------------------------------------- the adder

  /** The five gates of a full adder. */
  method FullAdderGates(b: Builder, x: nat, y: nat, carry: nat) returns (s: nat, carry': nat)
    requires b.Valid() && x < b.nextWire && y < b.nextWire && carry < b.nextWire
    modifies b
    ensures b.Valid() && old(b.gates) <= b.gates
    ensures s < b.nextWire && carry' < b.nextWire
    ensures FullAdder(b.gates, b.inputs, x, y, carry, s, carry')
  {
    ghost var k := |b.gates|;
    var t1 := b.Push(Xor2, x, y);
    s := b.Push(Xor2, t1, carry);
    var t2 := b.Push(And2, x, y);
    var t3 := b.Push(And2, t1, carry);
    carry' := b.Push(Xor2, t2, t3);
    FiveGates(b.gates, b.inputs, k, x, y, carry);
  }

  ghost predicate FullAdder(g: seq<Gate>, n: nat, x: nat, y: nat, carry: nat, s: nat, carry': nat) {
    forall input: seq<bool> | |input| == n :: FullAdderBits(g, input, x, y, carry, s, carry')
  }

  predicate FullAdderBits(g: seq<Gate>, input: seq<bool>, x: nat, y: nat, carry: nat, s: nat, carry': nat) {
    var t1 := Val(g, input, x) != Val(g, input, y);
    && Val(g, input, s) == (t1 != Val(g, input, carry))
    && Val(g, input, carry') == ((Val(g, input, x) && Val(g, input, y)) != (t1 && Val(g, input, carry)))
  }

  lemma FiveGates(g: seq<Gate>, n: nat, k: nat, x: nat, y: nat, carry: nat)
    requires Sequential(g, n) && |g| == k + 5
    requires g[k] == Gate(Xor2, x, y, n + k) && g[k + 1] == Gate(Xor2, n + k, carry, n + k + 1)
    requires g[k + 2] == Gate(And2, x, y, n + k + 2) && g[k + 3] == Gate(And2, n + k, carry, n + k + 3)
    requires g[k + 4] == Gate(Xor2, n + k + 2, n + k + 3, n + k + 4)
    ensures FullAdder(g, n, x, y, carry, n + k + 1, n + k + 4)
  {
    forall input: seq<bool> | |input| == n
      ensures FullAdderBits(g, input, x, y, carry, n + k + 1, n + k + 4)
    {
      WireEquation(g, k, input);
      WireEquation(g, k + 1, input);
      WireEquation(g, k + 2, input);
      WireEquation(g, k + 3, input);
      WireEquation(g, k + 4, input);
    }
  }

  /** The adder has summed the bits from `i` on: its wires carry the ripple of the two suffixes. */
  ghost predicate Summed(g: seq<Gate>, n: nat, x: U32, y: U32, i: nat, ws: seq<nat>, carry: nat) {
    && i < 32 && |ws| == 32 - i
    && Circuit.Within(x, n + |g|) && Circuit.Within(y, n + |g|) && Circuit.Within(ws, n + |g|) && carry < n + |g|
    && forall input: seq<bool> | |input| == n :: SummedBits(g, input, x, y, i, ws, carry)
  }

  predicate SummedBits(g: seq<Gate>, input: seq<bool>, x: U32, y: U32, i: nat, ws: seq<nat>, carry: nat)
    requires i < 32
  {
    (ReadAll(g, ws, input), Val(g, input, carry)) == Ripple(Read(g, x, input)[i..], Read(g, y, input)[i..])
  }

  lemma SummedKept(g: seq<Gate>, g': seq<Gate>, input: seq<bool>, x: U32, y: U32, i: nat, ws: seq<nat>, carry: nat)
    requires g <= g' && Sequential(g', |input|) && i < 32 && SummedBits(g, input, x, y, i, ws, carry)
    requires Circuit.Within(x, |input| + |g|) && Circuit.Within(y, |input| + |g|)
    requires Circuit.Within(ws, |input| + |g|) && carry < |input| + |g|
    ensures SummedBits(g', input, x, y, i, ws, carry)
  {
    ReadKept(g, g', x, input);
    ReadKept(g, g', y, input);
    ReadKept(g, g', ws, input);
    ValKept(g, g', input, carry);
  }

  /** The half adder of the last bit. */
  lemma HalfAdder(g: seq<Gate>, n: nat, k: nat, x: U32, y: U32)
    requires Sequential(g, n) && |g| == k + 2 && Circuit.Within(x, n + k) && Circuit.Within(y, n + k)
    requires g[k] == Gate(Xor2, x[31], y[31], n + k) && g[k + 1] == Gate(And2, x[31], y[31], n + k + 1)
    ensures Summed(g, n, x, y, 31, [n + k], n + k + 1)
  {
    forall input: seq<bool> | |input| == n
      ensures SummedBits(g, input, x, y, 31, [n + k], n + k + 1)
    {
      WireEquation(g, k, input);
      WireEquation(g, k + 1, input);
      assert ReadAll(g, [n + k], input) == [Val(g, input, n + k)];
    }
  }

  /** One more full adder extends the ripple by one bit to the left. */
  lemma FullAdderStep(g: seq<Gate>, g': seq<Gate>, n: nat, x: U32, y: U32, i: nat, ws: seq<nat>, carry: nat, s: nat,
                      carry': nat)
    requires i < 31 && Summed(g, n, x, y, i + 1, ws, carry) && g <= g' && Sequential(g', n)
    requires s < n + |g'| && carry' < n + |g'| && FullAdder(g', n, x[i], y[i], carry, s, carry')
    ensures Summed(g', n, x, y, i, [s] + ws, carry')
  {
    forall input: seq<bool> | |input| == n
      ensures SummedBits(g', input, x, y, i, [s] + ws, carry')
    {
      SummedKept(g, g', input, x, y, i + 1, ws, carry);
      assert FullAdderBits(g', input, x[i], y[i], carry, s, carry');
      FullAdderValue(g', input, x, y, i, ws, carry, s, carry');
    }
  }

  lemma FullAdderValue(g: seq<Gate>, input: seq<bool>, x: U32, y: U32, i: nat, ws: seq<nat>, carry: nat, s: nat,
                       carry': nat)
    requires i < 31 && SummedBits(g, input, x, y, i + 1, ws, carry)
    requires FullAdderBits(g, input, x[i], y[i], carry, s, carry')
    ensures SummedBits(g, input, x, y, i, [s] + ws, carry')
  {
    var vx, vy := Read(g, x, input)[i..], Read(g, y, input)[i..];
    assert vx[1..] == Read(g, x, input)[i + 1..] && vy[1..] == Read(g, y, input)[i + 1..];
    assert ReadAll(g, [s] + ws, input) == [Val(g, input, s)] + ReadAll(g, ws, input);
  }

  lemma SummedGives(g: seq<Gate>, n: nat, x: U32, y: U32, ws: U32, carry: nat)
    requires Summed(g, n, x, y, 0, ws, carry)
    ensures Gives(g, n, AddW, x, y, ws)
  {
    forall input: seq<bool> | |input| == n
      ensures Read(g, ws, input) == AddW(Read(g, x, input), Read(g, y, input))
    {
      var vx, vy := Read(g, x, input), Read(g, y, input);
      assert SummedBits(g, input, x, y, 0, ws, carry);
      assert vx[0..] == vx && vy[0..] == vy;
      RippleIsAddMod(vx, vy);
    }
  }

  /** The ripple-carry adder: a half adder for the last bit, full adders up to the first. */
  method AddU32(b: Builder, x: U32, y: U32) returns (sum: U32)
    requires b.Valid() && b.Has(x) && b.Has(y)
    modifies b
    ensures b.Valid() && old(b.gates) <= b.gates
    ensures Gives(b.gates, b.inputs, AddW, x, y, sum)
  {
    ghost var k := |b.gates|;
    var low := b.Push(Xor2, x[31], y[31]);
    var carry := b.Push(And2, x[31], y[31]);
    var ws: seq<nat> := [low];
    var i := 31;
    HalfAdder(b.gates, b.inputs, k, x, y);
    while i > 0
      invariant 0 <= i <= 31
      invariant b.Valid() && old(b.gates) <= b.gates
      invariant Summed(b.gates, b.inputs, x, y, i, ws, carry)
    {
      i := i - 1;
      ghost var g, carry0 := b.gates, carry;
      var s;
      s, carry := FullAdderGates(b, x[i], y[i], carry);
      FullAdderStep(g, b.gates, b.inputs, x, y, i, ws, carry0, s, carry);
      ws := [s] + ws;
    }
    sum := ws;
    SummedGives(b.gates, b.inputs, x, y, sum, carry);
  }
}
