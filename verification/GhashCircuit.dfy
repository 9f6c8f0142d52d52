/** The GHASH circuits: the multiplication and the chain executed on a backend, and what
    they compute on every input. */
module GhashCircuit {
  import opened Bits
  import opened Circuit
  import opened Backend
  import opened Ghash

  type Wires = ws: seq<nat> | |ws| == 128 witness seq(128, _ => 0)

  function BlockOn(g: seq<Gate>, x: seq<bool>, ws: Wires): Block {
    WireValues(g, x, ws)
  }

  /** On every input the wires `out` of `g` carry `z` plus bit `xi` times `v`. */
  ghost predicate Added(g: seq<Gate>, n: nat, xi: nat, v: Wires, z: Wires, out: Wires) {
    && xi < n + |g| && Within(v, n + |g|) && Within(z, n + |g|) && Within(out, n + |g|)
    && forall x: seq<bool> | |x| == n ::
         BlockOn(g, x, out) == Xor(BlockOn(g, x, z), Times(WireValue(g, x, xi), BlockOn(g, x, v)))
  }

  /** The first bits of `out` are added, the others are still those of `z`. */
  ghost predicate PartlyAdded(g: seq<Gate>, n: nat, xi: nat, v: Wires, z: Wires, out: Wires, j: nat) {
    && xi < n + |g| && Within(v, n + |g|) && Within(z, n + |g|) && Within(out, n + |g|)
    && (forall k :: j <= k < 128 ==> out[k] == z[k])
    && forall x: seq<bool>, k | |x| == n && 0 <= k < j <= 128 :: AddedBit(g, x, xi, v[k], z[k], out[k])
  }

  predicate AddedBit(g: seq<Gate>, x: seq<bool>, xi: nat, v: nat, z: nat, out: nat) {
    WireValue(g, x, out) == (WireValue(g, x, z) != (WireValue(g, x, xi) && WireValue(g, x, v)))
  }

  lemma AddedBitKept(g: seq<Gate>, g': seq<Gate>, x: seq<bool>, xi: nat, v: nat, z: nat, out: nat)
    requires AddedBit(g, x, xi, v, z, out) && g <= g' && WellFormed(g', |x|)
    requires xi < |x| + |g| && v < |x| + |g| && z < |x| + |g| && out < |x| + |g|
    ensures AddedBit(g', x, xi, v, z, out)
  {
    ValueKept(g, g', x, xi);
    ValueKept(g, g', x, v);
    ValueKept(g, g', x, z);
    ValueKept(g, g', x, out);
  }

  lemma AddedStep(g: seq<Gate>, g': seq<Gate>, n: nat, xi: nat, v: Wires, z: Wires, out: Wires, j: nat)
    requires j < 128 && PartlyAdded(g, n, xi, v, z, out, j)
    requires WellFormed(g', n) && |g'| == |g| + 2 && g <= g'
    requires g'[|g|] == AndGate(xi, v[j]) && g'[|g| + 1] == XorGate(z[j], n + |g|)
    ensures PartlyAdded(g', n, xi, v, z, out[j := n + |g| + 1], j + 1)
  {
    var out' := out[j := n + |g| + 1];
    forall x: seq<bool>, k | |x| == n && 0 <= k < j + 1
      ensures AddedBit(g', x, xi, v[k], z[k], out'[k])
    {
      if k == j {
        WireEquation(g', x, |g|);
        WireEquation(g', x, |g| + 1);
      } else {
        AddedBitKept(g, g', x, xi, v[k], z[k], out[k]);
      }
    }
  }

  lemma AllAdded(g: seq<Gate>, n: nat, xi: nat, v: Wires, z: Wires, out: Wires)
    requires PartlyAdded(g, n, xi, v, z, out, 128)
    ensures Added(g, n, xi, v, z, out)
  {
    forall x: seq<bool> | |x| == n
      ensures BlockOn(g, x, out) == Xor(BlockOn(g, x, z), Times(WireValue(g, x, xi), BlockOn(g, x, v)))
    {
      forall k | 0 <= k < 128
        ensures BlockOn(g, x, out)[k] == (BlockOn(g, x, z)[k] != (WireValue(g, x, xi) && BlockOn(g, x, v)[k]))
      {
        assert AddedBit(g, x, xi, v[k], z[k], out[k]);
      }
      Ext(BlockOn(g, x, out), Xor(BlockOn(g, x, z), Times(WireValue(g, x, xi), BlockOn(g, x, v))));
    }
  }

  /** The inner loop: every bit of `v`, ANDed with `xi`, is added to `z`. */
  method AddMultiple(backend: Recorder, xi: nat, v: Wires, z: Wires) returns (out: Wires)
    requires backend.Valid() && xi < backend.inputs + |backend.gates| && backend.Has(v) && backend.Has(z)
    modifies backend
    ensures backend.Valid() && old(backend.gates) <= backend.gates
    ensures Added(backend.gates, backend.inputs, xi, v, z, out)
  {
    out := z;
    var j := 0;
    while j < 128
      invariant j <= 128 && backend.Valid() && old(backend.gates) <= backend.gates
      invariant PartlyAdded(backend.gates, backend.inputs, xi, v, z, out, j)
    {
      ghost var g := backend.gates;
      Appended(g, AndGate(xi, v[j]), backend.inputs);
      var xv := backend.AndWires(xi, v[j]);
      Appended(backend.gates, XorGate(out[j], xv), backend.inputs);
      var zj := backend.XorWires(out[j], xv);
      AddedStep(g, backend.gates, backend.inputs, xi, v, z, out, j);
      out := out[j := zj];
      j := j + 1;
    }
    AllAdded(backend.gates, backend.inputs, xi, v, z, out);
  }

  // ---------------------------------------------------------------- shift and reduce

  /** On every input the wires `out` carry `v` times x. */
  ghost predicate Shifted(g: seq<Gate>, n: nat, v: Wires, out: Wires) {
    && Within(v, n + |g|) && Within(out, n + |g|)
    && forall x: seq<bool> | |x| == n :: BlockOn(g, x, out) == MulX(BlockOn(g, x, v))
  }

  /** `zero` is a wire that carries false on every input. */
  ghost predicate IsZero(g: seq<Gate>, n: nat, zero: nat) {
    zero < n + |g| && forall x: seq<bool> | |x| == n :: !WireValue(g, x, zero)
  }

  method ShiftReduceWires(backend: Recorder, v: Wires, zero: nat) returns (out: Wires)
    requires backend.Valid() && backend.Has(v) && IsZero(backend.gates, backend.inputs, zero)
    modifies backend
    ensures backend.Valid() && old(backend.gates) <= backend.gates
    ensures Shifted(backend.gates, backend.inputs, v, out)
  {
    var lsb := v[127];
    ghost var g0, n := backend.gates, backend.inputs;
    Appended(backend.gates, XorGate(zero, lsb), n);
    var w0 := backend.XorWires(zero, lsb);
    Appended(backend.gates, XorGate(v[0], lsb), n);
    var w1 := backend.XorWires(v[0], lsb);
    Appended(backend.gates, XorGate(v[1], lsb), n);
    var w2 := backend.XorWires(v[1], lsb);
    Appended(backend.gates, XorGate(v[6], lsb), n);
    var w7 := backend.XorWires(v[6], lsb);
    out := ([zero] + v[..127])[0 := w0][1 := w1][2 := w2][7 := w7];
    ReducedWires(g0, backend.gates, n, v, zero, out);
  }

  lemma ReducedWires(g0: seq<Gate>, g: seq<Gate>, n: nat, v: Wires, zero: nat, out: Wires)
    requires WellFormed(g, n) && g0 <= g && |g| == |g0| + 4 && Within(v, n + |g0|) && IsZero(g0, n, zero)
    requires g[|g0|] == XorGate(zero, v[127]) && g[|g0| + 1] == XorGate(v[0], v[127])
    requires g[|g0| + 2] == XorGate(v[1], v[127]) && g[|g0| + 3] == XorGate(v[6], v[127])
    requires out[0] == n + |g0| && out[1] == n + |g0| + 1 && out[2] == n + |g0| + 2 && out[7] == n + |g0| + 3
    requires forall k :: 0 < k < 128 && k != 1 && k != 2 && k != 7 ==> out[k] == v[k - 1]
    ensures Shifted(g, n, v, out)
  {
    forall x: seq<bool> | |x| == n
      ensures BlockOn(g, x, out) == MulX(BlockOn(g, x, v))
    {
      ValueKept(g0, g, x, zero);
      FeedbackWires(g, x, |g0|, v, zero);
      ReducedBlock(BlockOn(g, x, v), BlockOn(g, x, out));
    }
  }

  /** The four gates that feed the last coefficient back. */
  lemma FeedbackWires(g: seq<Gate>, x: seq<bool>, k: nat, v: Wires, zero: nat)
    requires WellFormed(g, |x|) && |g| == k + 4 && !WireValue(g, x, zero)
    requires g[k] == XorGate(zero, v[127]) && g[k + 1] == XorGate(v[0], v[127])
    requires g[k + 2] == XorGate(v[1], v[127]) && g[k + 3] == XorGate(v[6], v[127])
    ensures
      var lsb := WireValue(g, x, v[127]);
      && WireValue(g, x, |x| + k) == lsb
      && WireValue(g, x, |x| + k + 1) == (WireValue(g, x, v[0]) != lsb)
      && WireValue(g, x, |x| + k + 2) == (WireValue(g, x, v[1]) != lsb)
      && WireValue(g, x, |x| + k + 3) == (WireValue(g, x, v[6]) != lsb)
  {
    WireEquation(g, x, k);
    WireEquation(g, x, k + 1);
    WireEquation(g, x, k + 2);
    WireEquation(g, x, k + 3);
  }

  lemma ReducedBlock(b: Block, r: Block)
    requires r[0] == b[127] && r[1] == (b[0] != b[127]) && r[2] == (b[1] != b[127]) && r[7] == (b[6] != b[127])
    requires forall k :: 0 < k < 128 && k != 1 && k != 2 && k != 7 ==> r[k] == b[k - 1]
    ensures r == MulX(b)
  {
    Ext(r, MulX(b));
  }

  // ---------------------------------------------------------------- the product

  /** After `i` rounds the rest of the loop from the wires `z` and `v` gives the product. */
  ghost predicate Multiplying(g: seq<Gate>, n: nat, x: Wires, y: Wires, z: Wires, v: Wires, i: nat)
    requires i <= 128
  {
    && Within(x, n + |g|) && Within(y, n + |g|) && Within(z, n + |g|) && Within(v, n + |g|)
    && forall input: seq<bool> | |input| == n ::
         Accumulate(BlockOn(g, input, x)[i..], BlockOn(g, input, z), BlockOn(g, input, v))
         == Mul(BlockOn(g, input, x), BlockOn(g, input, y))
  }

  lemma MultiplyingKept(g: seq<Gate>, g': seq<Gate>, n: nat, x: Wires, y: Wires, z: Wires, v: Wires, i: nat)
    requires i <= 128 && Multiplying(g, n, x, y, z, v, i) && g <= g' && WellFormed(g', n)
    ensures Multiplying(g', n, x, y, z, v, i)
  {
    forall input: seq<bool> | |input| == n
      ensures Accumulate(BlockOn(g', input, x)[i..], BlockOn(g', input, z), BlockOn(g', input, v))
           == Mul(BlockOn(g', input, x), BlockOn(g', input, y))
    {
      ValuesKept(g, g', input, x);
      ValuesKept(g, g', input, y);
      ValuesKept(g, g', input, z);
      ValuesKept(g, g', input, v);
    }
  }

  lemma AddedKept(g: seq<Gate>, g': seq<Gate>, n: nat, xi: nat, v: Wires, z: Wires, out: Wires)
    requires Added(g, n, xi, v, z, out) && g <= g' && WellFormed(g', n)
    ensures Added(g', n, xi, v, z, out)
  {
    forall x: seq<bool> | |x| == n
      ensures BlockOn(g', x, out) == Xor(BlockOn(g', x, z), Times(WireValue(g', x, xi), BlockOn(g', x, v)))
    {
      ValueKept(g, g', x, xi);
      ValuesKept(g, g', x, v);
      ValuesKept(g, g', x, z);
      ValuesKept(g, g', x, out);
    }
  }

  lemma ZeroKept(g: seq<Gate>, g': seq<Gate>, n: nat, zero: nat)
    requires IsZero(g, n, zero) && g <= g' && WellFormed(g', n)
    ensures IsZero(g', n, zero)
  {
    forall x: seq<bool> | |x| == n
      ensures !WireValue(g', x, zero)
    {
      ValueKept(g, g', x, zero);
    }
  }

  lemma Multiplied(g: seq<Gate>, n: nat, x: Wires, y: Wires, z: Wires, v: Wires, i: nat, z': Wires, v': Wires)
    requires i < 128 && Multiplying(g, n, x, y, z, v, i)
    requires Added(g, n, x[i], v, z, z') && Shifted(g, n, v, v')
    ensures Multiplying(g, n, x, y, z', v', i + 1)
  {
    forall input: seq<bool> | |input| == n
      ensures Accumulate(BlockOn(g, input, x)[i + 1..], BlockOn(g, input, z'), BlockOn(g, input, v'))
           == Mul(BlockOn(g, input, x), BlockOn(g, input, y))
    {
      var b := BlockOn(g, input, x);
      assert b[i..][1..] == b[i + 1..] && b[i..][0] == WireValue(g, input, x[i]);
    }
  }

  ghost predicate IsProduct(g: seq<Gate>, n: nat, x: Wires, y: Wires, z: Wires) {
    && Within(x, n + |g|) && Within(y, n + |g|) && Within(z, n + |g|)
    && forall input: seq<bool> | |input| == n :: BlockOn(g, input, z) == Mul(BlockOn(g, input, x), BlockOn(g, input, y))
  }

  lemma StartMultiplying(g: seq<Gate>, n: nat, x: Wires, y: Wires, zero: nat)
    requires Within(x, n + |g|) && Within(y, n + |g|) && IsZero(g, n, zero)
    ensures Multiplying(g, n, x, y, seq(128, _ => zero), y, 0)
  {
    forall input: seq<bool> | |input| == n
      ensures Accumulate(BlockOn(g, input, x)[0..], BlockOn(g, input, seq(128, _ => zero)), BlockOn(g, input, y))
           == Mul(BlockOn(g, input, x), BlockOn(g, input, y))
    {
      Ext(BlockOn(g, input, seq(128, _ => zero)), Zeros(128));
      assert BlockOn(g, input, x)[0..] == BlockOn(g, input, x);
    }
  }

  method ZeroWire(backend: Recorder) returns (zero: nat)
    requires backend.Valid()
    modifies backend
    ensures backend.Valid() && old(backend.gates) <= backend.gates && IsZero(backend.gates, backend.inputs, zero)
  {
    ghost var g := backend.gates;
    zero := backend.Constant(false);
    Appended(g, ConstGate(false), backend.inputs);
    forall x: seq<bool> | |x| == backend.inputs
      ensures !WireValue(backend.gates, x, zero)
    {
      AppendedValue(g, ConstGate(false), x);
    }
  }

  /** The multiplication circuit computes the product, on every input. */
  method ExecuteMul(backend: Recorder, x: Wires, y: Wires) returns (z: Wires)
    requires backend.Valid() && backend.Has(x) && backend.Has(y)
    modifies backend
    ensures backend.Valid() && old(backend.gates) <= backend.gates
    ensures IsProduct(backend.gates, backend.inputs, x, y, z)
  {
    var zero := ZeroWire(backend);
    z := seq(128, _ => zero);
    var v, i := y, 0;
    ghost var n := backend.inputs;
    StartMultiplying(backend.gates, n, x, y, zero);
    while i < 128
      invariant i <= 128 && backend.Valid() && old(backend.gates) <= backend.gates
      invariant IsZero(backend.gates, n, zero) && Multiplying(backend.gates, n, x, y, z, v, i)
    {
      ghost var g0, z0, v0 := backend.gates, z, v;
      z := AddMultiple(backend, x[i], v, z);
      ghost var g1 := backend.gates;
      ZeroKept(g0, g1, n, zero);
      v := ShiftReduceWires(backend, v, zero);
      ghost var g := backend.gates;
      ZeroKept(g1, g, n, zero);
      AddedKept(g1, g, n, x[i], v0, z0, z);
      MultiplyingKept(g0, g, n, x, y, z0, v0, i);
      Multiplied(g, n, x, y, z0, v0, i, z, v);
      i := i + 1;
    }
    ProductDone(backend.gates, n, x, y, z, v);
  }

  lemma ProductDone(g: seq<Gate>, n: nat, x: Wires, y: Wires, z: Wires, v: Wires)
    requires Multiplying(g, n, x, y, z, v, 128)
    ensures IsProduct(g, n, x, y, z)
  {
    forall input: seq<bool> | |input| == n
      ensures BlockOn(g, input, z) == Mul(BlockOn(g, input, x), BlockOn(g, input, y))
    {
      assert BlockOn(g, input, x)[128..] == [];
    }
  }

  // ---------------------------------------------------------------- the chain

  /** Block `i` of a bit string. */
  function BlockAt(s: seq<bool>, i: nat): Block
    requires 128 * i + 128 <= |s|
  {
    s[128 * i..128 * i + 128]
  }

  function Blocks(s: seq<bool>, n: nat): (r: seq<Block>)
    requires 128 * n <= |s|
    ensures |r| == n
  {
    seq(n, i requires 0 <= i < n => BlockAt(s, i))
  }

  /** The chain's input: H, then the blocks. */
  function ChainOf(s: seq<bool>, n: nat): Block
    requires |s| == 128 * (n + 1)
  {
    GhashOf(BlockAt(s, 0), Blocks(s, n + 1)[1..])
  }

  function InputBlock(i: nat): (r: Wires)
    ensures forall j :: 0 <= j < 128 ==> r[j] == 128 * i + j
  {
    seq(128, j requires 0 <= j < 128 => 128 * i + j)
  }

  lemma InputBlockOn(g: seq<Gate>, s: seq<bool>, i: nat)
    requires WellFormed(g, |s|) && 128 * i + 128 <= |s|
    ensures BlockOn(g, s, InputBlock(i)) == BlockAt(s, i)
  {
    forall j | 0 <= j < 128
      ensures BlockOn(g, s, InputBlock(i))[j] == BlockAt(s, i)[j]
    {
      assert WireValue(g, s, 128 * i + j) == Eval(g, s)[128 * i + j];
    }
    Ext(BlockOn(g, s, InputBlock(i)), BlockAt(s, i));
  }

  /** After `i` blocks the rest of the chain from the wires `acc` gives the result. */
  ghost predicate Chaining(g: seq<Gate>, n: nat, acc: Wires, i: nat)
    requires i <= n
  {
    && Within(acc, 128 * (n + 1) + |g|)
    && forall s: seq<bool> | |s| == 128 * (n + 1) ::
         Chain(BlockAt(s, 0), BlockOn(g, s, acc), Blocks(s, n + 1)[i + 1..]) == ChainOf(s, n)
  }

  /** On every input the wires `out` carry the sum of `a` and `b`. */
  ghost predicate IsSum(g: seq<Gate>, n: nat, a: Wires, b: Wires, out: Wires) {
    && Within(a, n + |g|) && Within(b, n + |g|) && Within(out, n + |g|)
    && forall s: seq<bool> | |s| == n :: BlockOn(g, s, out) == Xor(BlockOn(g, s, a), BlockOn(g, s, b))
  }

  method AddBlocks(backend: Recorder, a: Wires, b: Wires) returns (out: Wires)
    requires backend.Valid() && backend.Has(a) && backend.Has(b)
    modifies backend
    ensures backend.Valid() && old(backend.gates) <= backend.gates
    ensures IsSum(backend.gates, backend.inputs, a, b, out)
  {
    ghost var g0, n := backend.gates, backend.inputs;
    var ws: seq<nat> := [];
    while |ws| < 128
      invariant |ws| <= 128 && backend.Valid() && g0 <= backend.gates && |backend.gates| == |g0| + |ws|
      invariant forall k :: 0 <= k < |ws| ==> backend.gates[|g0| + k] == XorGate(a[k], b[k]) && ws[k] == n + |g0| + k
    {
      Appended(backend.gates, XorGate(a[|ws|], b[|ws|]), n);
      var w := backend.XorWires(a[|ws|], b[|ws|]);
      ws := ws + [w];
    }
    out := ws;
    SumWires(g0, backend.gates, n, a, b, out);
  }

  lemma SumWires(g0: seq<Gate>, g: seq<Gate>, n: nat, a: Wires, b: Wires, out: Wires)
    requires WellFormed(g, n) && |g| == |g0| + 128 && Within(a, n + |g0|) && Within(b, n + |g0|)
    requires forall k :: 0 <= k < 128 ==> g[|g0| + k] == XorGate(a[k], b[k]) && out[k] == n + |g0| + k
    ensures IsSum(g, n, a, b, out)
  {
    forall s: seq<bool> | |s| == n
      ensures BlockOn(g, s, out) == Xor(BlockOn(g, s, a), BlockOn(g, s, b))
    {
      forall k | 0 <= k < 128
        ensures WireValue(g, s, out[k]) == (WireValue(g, s, a[k]) != WireValue(g, s, b[k]))
      {
        WireEquation(g, s, |g0| + k);
      }
      Ext(BlockOn(g, s, out), Xor(BlockOn(g, s, a), BlockOn(g, s, b)));
    }
  }

  lemma SumKept(g: seq<Gate>, g': seq<Gate>, n: nat, a: Wires, b: Wires, out: Wires)
    requires IsSum(g, n, a, b, out) && g <= g' && WellFormed(g', n)
    ensures IsSum(g', n, a, b, out)
  {
    forall s: seq<bool> | |s| == n
      ensures BlockOn(g', s, out) == Xor(BlockOn(g', s, a), BlockOn(g', s, b))
    {
      ValuesKept(g, g', s, a);
      ValuesKept(g, g', s, b);
      ValuesKept(g, g', s, out);
    }
  }

  lemma ChainStep(g0: seq<Gate>, g: seq<Gate>, n: nat, acc: Wires, i: nat, x: Wires, acc': Wires)
    requires i < n && Chaining(g0, n, acc, i) && g0 <= g && WellFormed(g, 128 * (n + 1))
    requires IsSum(g, 128 * (n + 1), acc, InputBlock(i + 1), x)
    requires IsProduct(g, 128 * (n + 1), x, InputBlock(0), acc')
    ensures Chaining(g, n, acc', i + 1)
  {
    forall s: seq<bool> | |s| == 128 * (n + 1)
      ensures Chain(BlockAt(s, 0), BlockOn(g, s, acc'), Blocks(s, n + 1)[i + 2..]) == ChainOf(s, n)
    {
      ValuesKept(g0, g, s, acc);
      InputBlockOn(g, s, 0);
      InputBlockOn(g, s, i + 1);
      ChainUnfolds(BlockAt(s, 0), BlockOn(g, s, acc), Blocks(s, n + 1), i + 1);
    }
  }

  lemma ChainUnfolds(h: Block, acc: Block, bs: seq<Block>, i: nat)
    requires i < |bs|
    ensures Chain(h, acc, bs[i..]) == Chain(h, Mul(Xor(acc, bs[i]), h), bs[i + 1..])
  {
    assert bs[i..][1..] == bs[i + 1..];
  }

  /** The wires `acc` of `g` carry GHASH of the input blocks. */
  ghost predicate IsChain(g: seq<Gate>, n: nat, acc: Wires) {
    && WellFormed(g, 128 * (n + 1)) && Within(acc, 128 * (n + 1) + |g|)
    && forall s: seq<bool> | |s| == 128 * (n + 1) :: WireValues(g, s, acc) == ChainOf(s, n)
  }

  /** The chain circuit computes GHASH of its input, for every number of blocks. */
  method ExecuteChain(backend: Recorder, nBlocks: nat) returns (acc: Wires)
    requires backend.gates == [] && backend.inputs == 128 * (nBlocks + 1)
    modifies backend
    ensures IsChain(backend.gates, nBlocks, acc)
  {
    var h := InputBlock(0);
    var zero := ZeroWire(backend);
    acc := seq(128, _ => zero);
    StartChain(backend.gates, nBlocks, zero);
    var blk := 0;
    while blk < nBlocks
      invariant blk <= nBlocks && backend.Valid() && Chaining(backend.gates, nBlocks, acc, blk)
    {
      ghost var g0, acc0 := backend.gates, acc;
      var x := AddBlocks(backend, acc, InputBlock(blk + 1));
      ghost var g1 := backend.gates;
      acc := ExecuteMul(backend, x, h);
      SumKept(g1, backend.gates, backend.inputs, acc0, InputBlock(blk + 1), x);
      ChainStep(g0, backend.gates, nBlocks, acc0, blk, x, acc);
      blk := blk + 1;
    }
    ChainDone(backend.gates, nBlocks, acc);
  }

  lemma StartChain(g: seq<Gate>, n: nat, zero: nat)
    requires WellFormed(g, 128 * (n + 1)) && IsZero(g, 128 * (n + 1), zero)
    ensures Chaining(g, n, seq(128, _ => zero), 0)
  {
    forall s: seq<bool> | |s| == 128 * (n + 1)
      ensures Chain(BlockAt(s, 0), BlockOn(g, s, seq(128, _ => zero)), Blocks(s, n + 1)[1..]) == ChainOf(s, n)
    {
      Ext(BlockOn(g, s, seq(128, _ => zero)), Zeros(128));
    }
  }

  lemma ChainDone(g: seq<Gate>, n: nat, acc: Wires)
    requires WellFormed(g, 128 * (n + 1)) && Chaining(g, n, acc, n)
    ensures IsChain(g, n, acc)
  {
    forall s: seq<bool> | |s| == 128 * (n + 1)
      ensures WireValues(g, s, acc) == ChainOf(s, n)
    {
      assert Blocks(s, n + 1)[n + 1..] == [];
    }
  }
}
