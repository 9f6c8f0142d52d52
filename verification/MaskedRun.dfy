/** The XOR/mask wrapper around a circuit, and a masked run of it through the two parties:
    the garbler keeps a random mask, the evaluator the masked output. */
module MaskedRun {
  import opened Bits
  import opened Bytes
  import opened Circuit
  import opened Network
  import opened Parties
  import opened JointRun
  import opened Backend
  import Compression
  import Sha256

  // ---------------------------------------------------------------- the wrapped circuit

  /** A circuit with the wires it returns. */
  datatype BinaryCircuit = BinaryCircuit(gates: seq<Gate>, outs: seq<nat>)

  predicate ValidCircuit(c: BinaryCircuit, inputs: nat) {
    WellFormed(c.gates, inputs) && Within(c.outs, inputs + |c.gates|)
  }

  function Output(c: BinaryCircuit, x: seq<bool>): (r: seq<bool>)
    requires ValidCircuit(c, |x|)
    ensures |r| == |c.outs|
  {
    Select(c.outs, Eval(c.gates, x))
  }

  function ShiftGate(g: Gate, n: nat): Gate {
    match g
    case XorGate(a, b) => XorGate(n + a, n + b)
    case AndGate(a, b) => AndGate(n + a, n + b)
    case InvGate(a) => InvGate(n + a)
    case ConstGate(v) => ConstGate(v)
  }

  function Shift(gates: seq<Gate>, n: nat): (r: seq<Gate>)
    ensures |r| == |gates|
    ensures forall i :: 0 <= i < |gates| ==> r[i] == ShiftGate(gates[i], n)
  {
    seq(|gates|, i requires 0 <= i < |gates| => ShiftGate(gates[i], n))
  }

  /** The gates that add the two parties' shares of `s` inputs; each party's region has `gb` wires. */
  function Combine(s: nat, gb: nat): (r: seq<Gate>)
    ensures |r| == s
  {
    seq(s, i requires 0 <= i < s => XorGate(i, gb + i))
  }

  /** The gates that add the two masks and then the output wires `outs`, from wire `first` on. */
  function MaskOutputs(s: nat, gb: nat, outs: seq<nat>, n: nat, first: nat): (r: seq<Gate>)
    ensures |r| == 2 * |outs|
  {
    seq(2 * |outs|, i requires 0 <= i < 2 * |outs| =>
      if i % 2 == 0 then XorGate(s + i / 2, gb + s + i / 2) else XorGate(n + outs[i / 2], first + i - 1))
  }

  /** The wrapper around `inner`, which has `s` inputs: shares added, inner gates, masks added. */
  function Wrapped(inner: BinaryCircuit, s: nat): BinaryCircuit {
    var m := |inner.outs|;
    var gb := s + m;
    var n := 2 * gb;
    var first := n + s + |inner.gates|;
    BinaryCircuit(Combine(s, gb) + Shift(inner.gates, n) + MaskOutputs(s, gb, inner.outs, n, first),
                  seq(m, i requires 0 <= i < m => first + 2 * i + 1))
  }

  /** The inner circuit on consecutive wires starting at `n`. */
  method ExecuteInner(inner: seq<Gate>, n: nat, backend: Recorder)
    modifies backend
    ensures backend.gates == old(backend.gates) + Shift(inner, n)
  {
    var i := 0;
    while i < |inner|
      invariant i <= |inner| && backend.gates == old(backend.gates) + Shift(inner, n)[..i]
    {
      var w := backend.Emit(ShiftGate(inner[i], n));
      i := i + 1;
    }
    assert Shift(inner, n)[..i] == Shift(inner, n);
  }

  /** Each share wire of the garbler's region is added to the evaluator's. */
  method CombineShares(s: nat, gb: nat, backend: Recorder)
    requires backend.gates == []
    modifies backend
    ensures backend.gates == Combine(s, gb)
  {
    var i := 0;
    while i < s
      invariant i <= s && backend.gates == Combine(s, gb)[..i]
    {
      var w := backend.XorWires(i, gb + i);
      i := i + 1;
    }
  }

  /** Both mask wires and the output wire are added, output by output. */
  method AddMasks(s: nat, gb: nat, innerOuts: seq<nat>, n: nat, first: nat, backend: Recorder) returns (outs: seq<nat>)
    requires backend.inputs + |backend.gates| == first
    modifies backend
    ensures backend.gates == old(backend.gates) + MaskOutputs(s, gb, innerOuts, n, first)
    ensures outs == seq(|innerOuts|, i requires 0 <= i < |innerOuts| => first + 2 * i + 1)
  {
    ghost var tail := MaskOutputs(s, gb, innerOuts, n, first);
    outs := [];
    var i := 0;
    while i < |innerOuts|
      invariant i <= |innerOuts| && backend.gates == old(backend.gates) + tail[..2 * i]
      invariant outs == seq(i, j requires 0 <= j < i => first + 2 * j + 1)
    {
      var mask := backend.XorWires(s + i, gb + s + i);
      var w := backend.XorWires(n + innerOuts[i], mask);
      assert tail[2 * i] == XorGate(s + i, gb + s + i) && tail[2 * i + 1] == XorGate(n + innerOuts[i], mask);
      outs := outs + [w];
      i := i + 1;
    }
    assert tail[..2 * i] == tail;
  }

  /** The wrapper executed on a backend. */
  method ExecuteWrapped(inner: BinaryCircuit, s: nat, backend: Recorder) returns (outs: seq<nat>)
    requires backend.gates == [] && backend.inputs == 2 * (s + |inner.outs|)
    modifies backend
    ensures BinaryCircuit(backend.gates, outs) == Wrapped(inner, s)
  {
    var gb, n := s + |inner.outs|, 2 * (s + |inner.outs|);
    CombineShares(s, gb, backend);
    ExecuteInner(inner.gates, n, backend);
    outs := AddMasks(s, gb, inner.outs, n, n + s + |inner.gates|, backend);
  }

  // ---------------------------------------------------------------- what it computes

  lemma {:induction false} ShiftEval(gates: seq<Gate>, pre: seq<bool>, v: seq<bool>)
    requires WellFormed(gates, |v|)
    ensures WellFormed(Shift(gates, |pre|), |pre| + |v|)
    ensures Eval(Shift(gates, |pre|), pre + v) == pre + Eval(gates, v)
    decreases |gates|
  {
    var sh := Shift(gates, |pre|);
    forall i | 0 <= i < |gates| ensures ReadsBelow(sh[i], |pre| + |v| + i) {
      assert ReadsBelow(gates[i], |v| + i);
    }
    if gates != [] {
      WellFormedTail(gates, |v|);
      assert sh[1..] == Shift(gates[1..], |pre|);
      var b := GateValue(gates[0], v);
      ShiftEval(gates[1..], pre, v + [b]);
      assert GateValue(sh[0], pre + v) == b;
      assert (pre + v) + [b] == pre + (v + [b]);
    }
  }

  lemma CombineEval(s: nat, gb: nat, x: seq<bool>)
    requires s <= gb && |x| == 2 * gb
    ensures WellFormed(Combine(s, gb), |x|)
    ensures Eval(Combine(s, gb), x) == x + Xor(x[..s], x[gb..gb + s])
  {
    var g := Combine(s, gb);
    var e := Eval(g, x);
    var r := x + Xor(x[..s], x[gb..gb + s]);
    forall i | 0 <= i < |e| ensures e[i] == r[i] {
      if i >= |x| {
        GateEquation(g, x, i - |x|);
      }
    }
    Ext(e, r);
  }

  lemma MaskOutputsValid(s: nat, gb: nat, outs: seq<nat>, n: nat, first: nat)
    requires s + |outs| <= gb && 2 * gb <= n && n <= first && Within(outs, first - n)
    ensures WellFormed(MaskOutputs(s, gb, outs, n, first), first)
  {}

  /** The three stages of the wrapper are well formed, one after the other. */
  lemma StagesValid(inner: BinaryCircuit, s: nat, gb: nat, n: nat, first: nat)
    requires ValidCircuit(inner, s) && gb == s + |inner.outs| && n == 2 * gb && first == n + s + |inner.gates|
    ensures WellFormed(Combine(s, gb), n) && WellFormed(Shift(inner.gates, n), n + s)
    ensures WellFormed(Combine(s, gb) + Shift(inner.gates, n), n)
    ensures WellFormed(MaskOutputs(s, gb, inner.outs, n, first), first)
  {
    ShiftEval(inner.gates, Zeros(n), Zeros(s));
    WellFormedConcat(Combine(s, gb), Shift(inner.gates, n), n);
    MaskOutputsValid(s, gb, inner.outs, n, first);
  }

  lemma WrappedValid(inner: BinaryCircuit, s: nat, n: nat)
    requires ValidCircuit(inner, s) && n == 2 * (s + |inner.outs|)
    ensures ValidCircuit(Wrapped(inner, s), n)
  {
    var gb := s + |inner.outs|;
    var first := n + s + |inner.gates|;
    StagesValid(inner, s, gb, n, first);
    WellFormedConcat(Combine(s, gb) + Shift(inner.gates, n), MaskOutputs(s, gb, inner.outs, n, first), n);
  }

  /** The wires before the masking gates: the inputs, the combined shares, the inner wires. */
  lemma InnerWires(inner: BinaryCircuit, s: nat, gb: nat, x: seq<bool>, v: seq<bool>)
    requires ValidCircuit(inner, s) && gb == s + |inner.outs| && |x| == 2 * gb
    requires v == Xor(x[..s], x[gb..gb + s])
    requires WellFormed(Wrapped(inner, s).gates, |x|)
    ensures x + Eval(inner.gates, v) <= Eval(Wrapped(inner, s).gates, x)
  {
    var g1, g2 := Combine(s, gb), Shift(inner.gates, |x|);
    var g3 := MaskOutputs(s, gb, inner.outs, |x|, |x| + s + |inner.gates|);
    assert Wrapped(inner, s).gates == g1 + g2 + g3;
    InnerStages(g1, g2, g3, inner.gates, x, v, s, gb);
  }

  lemma InnerStages(g1: seq<Gate>, g2: seq<Gate>, g3: seq<Gate>, inner: seq<Gate>, x: seq<bool>, v: seq<bool>, s: nat,
                    gb: nat)
    requires s <= gb && |x| == 2 * gb && WellFormed(inner, s)
    requires v == Xor(x[..s], x[gb..gb + s])
    requires g1 == Combine(s, gb) && g2 == Shift(inner, |x|)
    requires WellFormed(g1 + g2 + g3, |x|)
    ensures x + Eval(inner, v) <= Eval(g1 + g2 + g3, x)
  {
    CombineEval(s, gb, x);
    ShiftEval(inner, x, v);
    EvalConcat(g1, g2, x);
    EvalPrefix(g1 + g2, g3, x);
  }

  /** The wrapper's output is the inner circuit's output on the added shares, plus both masks. */
  lemma WrappedOutput(inner: BinaryCircuit, s: nat, a: seq<bool>, p: seq<bool>, b: seq<bool>, q: seq<bool>)
    requires ValidCircuit(inner, s) && |a| == |b| == s && |p| == |q| == |inner.outs|
    ensures ValidCircuit(Wrapped(inner, s), |a + p + b + q|)
    ensures Output(Wrapped(inner, s), a + p + b + q) == Xor(Output(inner, Xor(a, b)), Xor(p, q))
  {
    var x, gb := a + p + b + q, s + |inner.outs|;
    assert x[..s] == a && x[gb..gb + s] == b && x[s..gb] == p && x[gb + s..] == q;
    WrappedOutputAt(inner, s, gb, x);
  }

  lemma WrappedOutputAt(inner: BinaryCircuit, s: nat, gb: nat, x: seq<bool>)
    requires ValidCircuit(inner, s) && gb == s + |inner.outs| && |x| == 2 * gb
    ensures ValidCircuit(Wrapped(inner, s), |x|)
    ensures Output(Wrapped(inner, s), x) == Xor(Output(inner, Xor(x[..s], x[gb..gb + s])), Xor(x[s..gb], x[gb + s..]))
  {
    var v := Xor(x[..s], x[gb..gb + s]);
    WrappedWires(inner, s, gb, x, v);
    MasksAdded(Wrapped(inner, s), inner, s, gb, x, v);
  }

  lemma WrappedWires(inner: BinaryCircuit, s: nat, gb: nat, x: seq<bool>, v: seq<bool>)
    requires ValidCircuit(inner, s) && gb == s + |inner.outs| && |x| == 2 * gb
    requires v == Xor(x[..s], x[gb..gb + s])
    ensures ValidCircuit(Wrapped(inner, s), |x|)
    ensures AddsMasks(Wrapped(inner, s), inner, s, gb)
    ensures x + Eval(inner.gates, v) <= Eval(Wrapped(inner, s).gates, x)
  {
    hide AddsMasks, Wrapped, Eval, Xor;
    WrappedValid(inner, s, |x|);
    InnerWires(inner, s, gb, x, v);
    WrappedMasks(inner, s);
  }

  /** Output `i` of `c` is the second of two XOR gates: the masks, then the inner output. */
  ghost predicate AddsMasks(c: BinaryCircuit, inner: BinaryCircuit, s: nat, gb: nat) {
    && |c.outs| == |inner.outs|
    && forall i :: 0 <= i < |inner.outs| ==> AddsMask(c, inner, s, gb, i)
  }

  predicate AddsMask(c: BinaryCircuit, inner: BinaryCircuit, s: nat, gb: nat, i: nat)
    requires i < |inner.outs| == |c.outs|
  {
    var k := s + |inner.gates| + 2 * i;
    && k + 1 < |c.gates| && c.outs[i] == 2 * gb + k + 1
    && c.gates[k] == XorGate(s + i, gb + s + i)
    && c.gates[k + 1] == XorGate(2 * gb + inner.outs[i], 2 * gb + k)
  }

  lemma WrappedMasks(inner: BinaryCircuit, s: nat)
    ensures AddsMasks(Wrapped(inner, s), inner, s, s + |inner.outs|)
  {
    var c, gb := Wrapped(inner, s), s + |inner.outs|;
    forall i | 0 <= i < |inner.outs|
      ensures AddsMask(c, inner, s, gb, i)
    {
      MaskingGatesAt(inner, s, i);
    }
  }

  lemma MasksAdded(c: BinaryCircuit, inner: BinaryCircuit, s: nat, gb: nat, x: seq<bool>, v: seq<bool>)
    requires ValidCircuit(inner, s) && gb == s + |inner.outs| && |x| == 2 * gb && |v| == s
    requires ValidCircuit(c, |x|) && AddsMasks(c, inner, s, gb)
    requires x + Eval(inner.gates, v) <= Eval(c.gates, x)
    ensures Output(c, x) == Xor(Output(inner, v), Xor(x[s..gb], x[gb + s..]))
  {
    forall i | 0 <= i < |inner.outs|
      ensures Output(c, x)[i] == (Output(inner, v)[i] != (x[s..gb][i] != x[gb + s..][i]))
    {
      assert AddsMask(c, inner, s, gb, i);
      MaskAdded(c, inner, s, gb, x, v, i);
    }
    Ext(Output(c, x), Xor(Output(inner, v), Xor(x[s..gb], x[gb + s..])));
  }

  lemma MaskAdded(c: BinaryCircuit, inner: BinaryCircuit, s: nat, gb: nat, x: seq<bool>, v: seq<bool>, i: nat)
    requires ValidCircuit(inner, s) && gb == s + |inner.outs| && |x| == 2 * gb && |v| == s
    requires ValidCircuit(c, |x|) && i < |inner.outs| == |c.outs| && AddsMask(c, inner, s, gb, i)
    requires x + Eval(inner.gates, v) <= Eval(c.gates, x)
    ensures Output(c, x)[i] == (Output(inner, v)[i] != (x[s + i] != x[gb + s + i]))
  {
    hide Eval;
    KnownWires(inner, x, v, i);
    OutputBit(c, x, x + Eval(inner.gates, v), i, s + |inner.gates| + 2 * i, s + i, gb + s + i, |x| + inner.outs[i]);
  }

  /** Output `i` of `c`, driven by the second of two XOR gates. */
  lemma OutputBit(c: BinaryCircuit, x: seq<bool>, known: seq<bool>, i: nat, k: nat, p: nat, q: nat, out: nat)
    requires ValidCircuit(c, |x|) && i < |c.outs| && c.outs[i] == |x| + k + 1
    requires k + 1 < |c.gates| && known <= Eval(c.gates, x)
    requires p < |known| && q < |known| && out < |known|
    requires c.gates[k] == XorGate(p, q) && c.gates[k + 1] == XorGate(out, |x| + k)
    ensures Output(c, x)[i] == (known[out] != (known[p] != known[q]))
  {
    WireEquation(c.gates, x, k);
    WireEquation(c.gates, x, k + 1);
    KnownValue(c.gates, x, known, p);
    KnownValue(c.gates, x, known, q);
    KnownValue(c.gates, x, known, out);
  }

  lemma KnownValue(g: seq<Gate>, x: seq<bool>, known: seq<bool>, w: nat)
    requires WellFormed(g, |x|) && known <= Eval(g, x) && w < |known|
    ensures WireValue(g, x, w) == known[w]
  {}

  /** The inner circuit's output `i` is one of the known wires. */
  lemma KnownWires(inner: BinaryCircuit, x: seq<bool>, v: seq<bool>, i: nat)
    requires ValidCircuit(inner, |v|) && i < |inner.outs|
    ensures (x + Eval(inner.gates, v))[|x| + inner.outs[i]] == Output(inner, v)[i]
  {}

  /** Where the two gates of output bit `i` are. */
  lemma MaskingGatesAt(inner: BinaryCircuit, s: nat, i: nat)
    requires i < |inner.outs|
    ensures
      var gb, k := s + |inner.outs|, s + |inner.gates| + 2 * i;
      var g := Wrapped(inner, s).gates;
      && k + 1 < |g|
      && g[k] == XorGate(s + i, gb + s + i)
      && g[k + 1] == XorGate(2 * gb + inner.outs[i], 2 * gb + k)
      && i < |Wrapped(inner, s).outs| && Wrapped(inner, s).outs[i] == 2 * gb + k + 1
  {
    var gb := s + |inner.outs|;
    var g3 := MaskOutputs(s, gb, inner.outs, 2 * gb, 2 * gb + s + |inner.gates|);
    assert g3[2 * i] == XorGate(s + i, gb + s + i);
  }

  // ---------------------------------------------------------------- bytes of the result

  /** Output bits to `n` bytes: missing bits are zero, bits past `8 * n` are dropped. */
  method BitsToBytes(bits: seq<bool>, n: nat) returns (out: seq<Byte>)
    ensures out == Pack((bits + Zeros(8 * n))[..8 * n])
  {
    ghost var padded := (bits + Zeros(8 * n))[..8 * n];
    out := [];
    while |out| < n
      invariant |out| <= n && out == Pack(padded[..8 * |out|])
    {
      ghost var at := 8 * |out|;
      var b := ByteFromBits(bits, 8 * |out|);
      ChunkOfPadded(bits, 8 * n, at);
      PackSnoc(padded[..at], padded[at..at + 8]);
      out := out + [b];
    }
    assert padded[..8 * n] == padded;
  }

  lemma ChunkOfPadded(bits: seq<bool>, n: nat, at: nat)
    requires at + 8 <= n
    ensures
      var padded := (bits + Zeros(n))[..n];
      && padded[..at] + padded[at..at + 8] == padded[..at + 8]
      && padded[at..at + 8] == (bits + Zeros(at + 8))[at..at + 8]
  {
    var padded := (bits + Zeros(n))[..n];
    Ext(padded[at..at + 8], (bits + Zeros(at + 8))[at..at + 8]);
  }

  /** What the client returns: 32 bytes are made, and the first `|vals| / 8` kept. */
  method ClientShare(vals: seq<bool>) returns (share: seq<Byte>)
    requires |vals| % 8 == 0 && |vals| <= 256
    ensures share == Pack(vals)
  {
    var full := BitsToBytes(vals, 32);
    assert (vals + Zeros(256))[..256] == vals + Zeros(256 - |vals|);
    PackTake(vals, Zeros(256 - |vals|));
    share := full[..|vals| / 8];
  }

  lemma {:induction false} PackTake(bits: seq<bool>, pad: seq<bool>)
    requires |bits| % 8 == 0 && |pad| % 8 == 0
    ensures Pack(bits + pad)[..|bits| / 8] == Pack(bits)
    decreases |bits|
  {
    if bits != [] {
      assert (bits + pad)[..8] == bits[..8] && (bits + pad)[8..] == bits[8..] + pad;
      PackTake(bits[8..], pad);
    }
  }

  /** The input bits of a byte share: each byte from its top bit down. */
  method BytesToBits(bytes: seq<Byte>) returns (bits: seq<bool>)
    ensures bits == Unpack(bytes)
  {
    bits := [];
    var k := 0;
    while k < |bytes|
      invariant k <= |bytes| && bits + Unpack(bytes[k..]) == Unpack(bytes)
    {
      var chunk: seq<bool>, i := [], 8;
      while i > 0
        invariant 0 <= i <= 8 && chunk == ByteBits(bytes[k])[..8 - i]
      {
        i := i - 1;
        Words.FromNatBit(8, bytes[k], 7 - i);
        chunk := chunk + [(bytes[k] / Words.Pow2(i)) % 2 == 1];
      }
      assert bytes[k..][1..] == bytes[k + 1..];
      bits := bits + chunk;
      k := k + 1;
    }
  }

  /** Bit `j` of the chunk goes to position `7 - j`. */
  method ByteFromBits(bits: seq<bool>, at: nat) returns (b: Byte)
    ensures b == ByteOf((bits + Zeros(at + 8))[at..at + 8])
  {
    ghost var c := (bits + Zeros(at + 8))[at..at + 8];
    var v, j := 0, 0;
    while j < 8
      invariant j <= 8 && v == Words.ToNat(c[..j]) * Words.Pow2(8 - j)
    {
      Words.ToNatSnoc(c[..j], c[j]);
      Weigh(Words.ToNat(c[..j]), c[j], Words.Pow2(7 - j));
      assert c[..j] + [c[j]] == c[..j + 1];
      if at + j < |bits| && bits[at + j] {
        v := v + Words.Pow2(7 - j);
      }
      j := j + 1;
    }
    assert c[..8] == c;
    Words.ToNatBound(c);
    b := v;
  }

  lemma Weigh(v: nat, bit: bool, w: nat)
    ensures (2 * v + (if bit then 1 else 0)) * w == v * (2 * w) + (if bit then w else 0)
  {}

  lemma {:induction false} PackSnoc(x: seq<bool>, c: seq<bool>)
    requires |x| % 8 == 0 && |c| == 8
    ensures Pack(x + c) == Pack(x) + [ByteOf(c)]
    decreases |x|
  {
    if x == [] {
      assert x + c == c && c[..8] == c && c[8..] == [];
    } else {
      assert (x + c)[..8] == x[..8] && (x + c)[8..] == x[8..] + c;
      PackSnoc(x[8..], c);
    }
  }

  // ---------------------------------------------------------------- the joint run

  function AsInputs(bits: seq<bool>): (r: seq<nat>)
    ensures |r| == |bits|
    ensures Boolean(r) && BitsFromInputs(r) == bits
  {
    seq(|bits|, i requires 0 <= i < |bits| => if bits[i] then 1 else 0)
  }

  /** The garbler's inputs: its share bits, then the bits of its random mask. */
  function NotaryInputs(a: seq<bool>, mask: seq<Byte>): seq<nat> {
    AsInputs(a + Unpack(mask))
  }

  /** The evaluator's inputs: its share bits, then zeros. */
  function ClientInputs(b: seq<bool>, maskBits: nat): seq<nat> {
    AsInputs(b + Zeros(maskBits))
  }

  /** `c`, `gin` and `ein` are the wrapper of `inner` and the two parties' inputs to it. */
  ghost predicate Masking(inner: BinaryCircuit, a: seq<bool>, mask: seq<Byte>, b: seq<bool>, c: BinaryCircuit,
                          gin: seq<nat>, ein: seq<nat>) {
    && |a| == |b| && ValidCircuit(inner, |a|) && |inner.outs| == 8 * |mask|
    && c == Wrapped(inner, |a|) && gin == NotaryInputs(a, mask) && ein == ClientInputs(b, 8 * |mask|)
  }

  /** What the two parties return from a finished run are XOR shares of `v`. */
  predicate SharesOf(mask: seq<Byte>, s: Net<GbState, (EvState, seq<bool>)>, v: seq<bool>)
    requires |v| == 8 * |mask|
  {
    && Finished(s)
    && |s.q.value.1| == 8 * |mask|
    && XorBytes(mask, Pack(s.q.value.1)) == Pack(v)
  }

  lemma CorrectShares(u: Setup, c: BinaryCircuit, gin: seq<nat>, ein: seq<nat>, mask: seq<Byte>, v: seq<bool>,
                      s: Net<GbState, (EvState, seq<bool>)>)
    requires ValidCircuit(c, |gin| + |ein|) && Correct(u, c.gates, c.outs, gin, ein, s)
    requires |v| == |c.outs| == 8 * |mask|
    requires XorBytes(mask, Pack(Output(c, BitsFromInputs(gin) + BitsFromInputs(ein)))) == Pack(v)
    ensures SharesOf(mask, s, v)
  {}

  /** When the clear output of `c` is the mask plus `v`, a run of `c` ends in shares of `v`. */
  lemma RunShares(c: BinaryCircuit, gin: seq<nat>, ein: seq<nat>, mask: seq<Byte>, v: seq<bool>,
                  u: Setup, soFar: seq<Move>)
    returns (rest: seq<Move>)
    requires HonestSetup(u, c.gates, |gin| + |ein|)
    requires Boolean(gin) && Boolean(ein) && ValidCircuit(c, |gin| + |ein|)
    requires |v| == |c.outs| == 8 * |mask|
    requires XorBytes(mask, Pack(Output(c, BitsFromInputs(gin) + BitsFromInputs(ein)))) == Pack(v)
    requires Schedule(Start(u, c.gates, c.outs, gin, ein), soFar)
    ensures
      var now := Run(Start(u, c.gates, c.outs, gin, ein), soFar);
      && !Aborted(now)
      && Schedule(now, rest)
      && SharesOf(mask, Run(now, rest), v)
      && (Quiescent(now) ==> rest == [])
  {
    rest := EveryRunIsCorrect(u, c.gates, c.outs, gin, ein, soFar);
    CorrectShares(u, c, gin, ein, mask, v, Run(Run(Start(u, c.gates, c.outs, gin, ein), soFar), rest));
  }

  /** A masked run, end to end. Whatever the interleaving, no party aborts, the run can be
      completed, and once complete the notary's mask and the client's bytes are XOR shares of
      the inner circuit's output on the added input shares. */
  lemma MaskedRunShares(inner: BinaryCircuit, a: seq<bool>, mask: seq<Byte>, b: seq<bool>,
                        c: BinaryCircuit, gin: seq<nat>, ein: seq<nat>,
                        u: Setup, soFar: seq<Move>)
    returns (rest: seq<Move>)
    requires Masking(inner, a, mask, b, c, gin, ein)
    requires HonestSetup(u, c.gates, |gin| + |ein|)
    requires Schedule(Start(u, c.gates, c.outs, gin, ein), soFar)
    ensures
      var now := Run(Start(u, c.gates, c.outs, gin, ein), soFar);
      && !Aborted(now)
      && Schedule(now, rest)
      && SharesOf(mask, Run(now, rest), Output(inner, Xor(a, b)))
      && (Quiescent(now) ==> rest == [])
  {
    MaskedOutput(inner, a, mask, b, c, gin, ein);
    rest := RunShares(c, gin, ein, mask, Output(inner, Xor(a, b)), u, soFar);
  }

  /** The clear evaluation of the wrapper on the two parties' inputs, packed, is the other share. */
  lemma MaskedOutput(inner: BinaryCircuit, a: seq<bool>, mask: seq<Byte>, b: seq<bool>, c: BinaryCircuit,
                     gin: seq<nat>, ein: seq<nat>)
    requires Masking(inner, a, mask, b, c, gin, ein)
    ensures Boolean(gin) && Boolean(ein) && ValidCircuit(c, |gin| + |ein|) && |c.outs| == |inner.outs|
    ensures XorBytes(mask, Pack(Output(c, BitsFromInputs(gin) + BitsFromInputs(ein)))) == Pack(Output(inner, Xor(a, b)))
  {
    var p, q := Unpack(mask), Zeros(8 * |mask|);
    WrappedOutput(inner, |a|, a, p, b, q);
    assert (a + p) + (b + q) == a + p + b + q;
    MaskedOutputShares(mask, Output(inner, Xor(a, b)));
  }

  lemma PackMasked(v: seq<bool>, m: seq<bool>)
    requires |v| == |m| && |m| % 8 == 0
    ensures Pack(Xor(v, Xor(m, Zeros(|m|)))) == XorBytes(Pack(v), Pack(m))
  {
    XorZero(m);
    PackXor(v, m);
  }

  lemma MaskedOutputShares(mask: seq<Byte>, v: seq<bool>)
    requires |v| == 8 * |mask|
    ensures XorBytes(mask, Pack(Xor(v, Xor(Unpack(mask), Zeros(8 * |mask|))))) == Pack(v)
  {
    var m := Unpack(mask);
    assert |v| == |m|;
    PackMasked(v, m);
    PackUnpack(mask);
    XorBytesCancel(Pack(v), mask);
  }

  /** The written SHA-256 circuit as the inner circuit: it returns its last 256 wires. */
  function Sha256Circuit(gates: seq<Gate>): BinaryCircuit
    requires |gates| >= 256
  {
    BinaryCircuit(gates, seq(256, i requires 0 <= i < 256 => 512 + |gates| + i))
  }

  /** A masked run of the generated compression circuit gives XOR shares of the compression
      of the added chaining values and blocks. */
  lemma CompressRunShares(gates: seq<Gate>, iv: (seq<Byte>, seq<Byte>), block: (seq<Byte>, seq<Byte>),
                          mask: seq<Byte>, c: BinaryCircuit, gin: seq<nat>, ein: seq<nat>,
                          u: Setup, soFar: seq<Move>)
    returns (rest: seq<Move>)
    requires Compression.IsSha256Compress(gates)
    requires |iv.0| == |iv.1| == 32 && |block.0| == |block.1| == 64 && |mask| == 32
    requires Masking(Sha256Circuit(gates), Unpack(iv.0 + block.0), mask, Unpack(iv.1 + block.1), c, gin, ein)
    requires HonestSetup(u, c.gates, |gin| + |ein|)
    requires Schedule(Start(u, c.gates, c.outs, gin, ein), soFar)
    ensures
      var now := Run(Start(u, c.gates, c.outs, gin, ein), soFar);
      && !Aborted(now)
      && Schedule(now, rest)
      && SharesOf(mask, Run(now, rest),
                  Sha256.CompressBits(Unpack(XorBytes(iv.0, iv.1)), Unpack(XorBytes(block.0, block.1))))
      && (Quiescent(now) ==> rest == [])
  {
    CompressOutput(gates, iv, block);
    rest := MaskedRunShares(Sha256Circuit(gates), Unpack(iv.0 + block.0), mask, Unpack(iv.1 + block.1), c, gin, ein,
                            u, soFar);
  }

  lemma CompressOutput(gates: seq<Gate>, iv: (seq<Byte>, seq<Byte>), block: (seq<Byte>, seq<Byte>))
    requires Compression.IsSha256Compress(gates)
    requires |iv.0| == |iv.1| == 32 && |block.0| == |block.1| == 64
    ensures ValidCircuit(Sha256Circuit(gates), 768)
    ensures Output(Sha256Circuit(gates), Xor(Unpack(iv.0 + block.0), Unpack(iv.1 + block.1)))
         == Sha256.CompressBits(Unpack(XorBytes(iv.0, iv.1)), Unpack(XorBytes(block.0, block.1)))
  {
    var h, m := Unpack(XorBytes(iv.0, iv.1)), Unpack(XorBytes(block.0, block.1));
    var x := Xor(Unpack(iv.0 + block.0), Unpack(iv.1 + block.1));
    UnpackXor(iv.0 + block.0, iv.1 + block.1);
    XorBytesConcat(iv.0, iv.1, block.0, block.1);
    UnpackConcat(XorBytes(iv.0, iv.1), XorBytes(block.0, block.1));
    assert x == h + m;
    assert Compression.CompressesAt(gates, h, m);
    var e := Eval(gates, x);
    Ext(Output(Sha256Circuit(gates), x), e[512 + |gates|..]);
  }
}
