/** GHASH multiplication of section 6.3 of NIST SP 800-38D: bit `i` from the left is the
    coefficient of x^i, and products are reduced modulo x^128 + x^7 + x^2 + x + 1. */
module Ghash {
  import opened Bits

  type Block = s: seq<bool> | |s| == 128 witness Zeros(128)

  // ---------------------------------------------------------------- polynomials over GF(2)

  /** Coefficient-wise sum of polynomials of any degree. */
  function PolyAdd(a: seq<bool>, b: seq<bool>): (r: seq<bool>)
    ensures |r| == if |a| >= |b| then |a| else |b|
    ensures forall i :: 0 <= i < |r| ==> r[i] == (Coef(a, i) != Coef(b, i))
  {
    seq(if |a| >= |b| then |a| else |b|, i requires 0 <= i => Coef(a, i) != Coef(b, i))
  }

  function Coef(a: seq<bool>, i: nat): bool {
    i < |a| && a[i]
  }

  /** The schoolbook product. */
  function PolyMul(a: seq<bool>, b: seq<bool>): (r: seq<bool>)
    ensures |r| == |a| + |b|
  {
    if a == [] then Zeros(|b|)
    else PolyAdd(Times(a[0], b), [false] + PolyMul(a[1..], b))
  }

  /** x^128 + x^7 + x^2 + x + 1. */
  function Modulus(): (r: seq<bool>)
    ensures |r| == 129
  {
    seq(129, i => i in {0, 1, 2, 7, 128})
  }

  /** One step of long division: the leading coefficient is cancelled by a multiple of the modulus. */
  function CancelTop(p: seq<bool>): (r: seq<bool>)
    requires |p| > 128
    ensures |r| == |p| - 1
  {
    var n := |p| - 129;
    seq(|p| - 1, i requires 0 <= i < |p| - 1 => p[i] != (p[|p| - 1]
                                                         && (i == n || i == n + 1 || i == n + 2 || i == n + 7)))
  }

  /** The remainder of long division by the modulus. */
  function Mod(p: seq<bool>): Block
    requires |p| >= 128
    decreases |p|
  {
    if |p| == 128 then p else Mod(CancelTop(p))
  }

  /** The quotient of long division by the modulus. */
  function Quotient(p: seq<bool>): (q: seq<bool>)
    requires |p| >= 128
    ensures |q| == |p| - 128
    decreases |p|
  {
    if |p| == 128 then [] else Quotient(CancelTop(p)) + [p[|p| - 1]]
  }

  // ---------------------------------------------------------------- the bit-serial product

  /** Multiplication by x: one step to the right, and the modulus added when x^127 was set. */
  function MulX(v: Block): (r: Block)
    ensures forall i :: 0 <= i < 128 ==>
            r[i] == ((i > 0 && v[i - 1]) != (v[127] && (i == 0 || i == 1 || i == 2 || i == 7)))
  {
    seq(128, i requires 0 <= i < 128 => (i > 0 && v[i - 1]) != (v[127] && (i == 0 || i == 1 || i == 2 || i == 7)))
  }

  /** The loop: each bit of `x` adds the running multiple `v` of the other factor. */
  function Accumulate(x: seq<bool>, z: Block, v: Block): Block {
    if x == [] then z else Accumulate(x[1..], Xor(z, Times(x[0], v)), MulX(v))
  }

  function Mul(x: Block, y: Block): Block {
    Accumulate(x, Zeros(128), y)
  }

  /** The same product by Horner's rule. */
  function Horner(x: seq<bool>, y: Block): Block {
    if x == [] then Zeros(128) else Xor(Times(x[0], y), MulX(Horner(x[1..], y)))
  }

  lemma MulXLinear(u: Block, v: Block)
    ensures MulX(Xor(u, v)) == Xor(MulX(u), MulX(v))
  {
    Ext(MulX(Xor(u, v)), Xor(MulX(u), MulX(v)));
  }

  lemma MulXTimes(b: bool, v: Block)
    ensures MulX(Times(b, v)) == Times(b, MulX(v))
  {
    Ext(MulX(Times(b, v)), Times(b, MulX(v)));
  }

  lemma MulXZero()
    ensures MulX(Zeros(128)) == Zeros(128)
  {
    Ext(MulX(Zeros(128)), Zeros(128));
  }

  lemma {:induction false} HornerOfMulX(x: seq<bool>, y: Block)
    ensures Horner(x, MulX(y)) == MulX(Horner(x, y))
  {
    if x == [] {
      MulXZero();
    } else {
      HornerOfMulX(x[1..], y);
      MulXLinear(Times(x[0], y), MulX(Horner(x[1..], y)));
      MulXTimes(x[0], y);
    }
  }

  lemma {:induction false} AccumulateIsHorner(x: seq<bool>, z: Block, v: Block)
    ensures Accumulate(x, z, v) == Xor(z, Horner(x, v))
    decreases |x|
  {
    if x == [] {
      XorZero(z);
    } else {
      var t := Times(x[0], v);
      AccumulateIsHorner(x[1..], Xor(z, t), MulX(v));
      HornerOfMulX(x[1..], v);
      XorAssoc(z, t, MulX(Horner(x[1..], v)));
    }
  }

  lemma MulIsHorner(x: Block, y: Block)
    ensures Mul(x, y) == Horner(x, y)
  {
    AccumulateIsHorner(x, Zeros(128), y);
    XorZero(Horner(x, y));
  }

  // ---------------------------------------------------------------- the product is the remainder

  lemma CancelTopShift(p: seq<bool>)
    requires |p| > 128
    ensures CancelTop([false] + p) == [false] + CancelTop(p)
  {
    Ext(CancelTop([false] + p), [false] + CancelTop(p));
  }

  /** Multiplying a polynomial by x multiplies its remainder by x. */
  lemma {:induction false} ModShift(p: seq<bool>)
    requires |p| >= 128
    ensures Mod([false] + p) == MulX(Mod(p))
    decreases |p|
  {
    if |p| == 128 {
      Ext(CancelTop([false] + p), MulX(p));
    } else {
      CancelTopShift(p);
      ModShift(CancelTop(p));
    }
  }

  lemma {:induction false} ModLinear(p: seq<bool>, q: seq<bool>)
    requires |p| == |q| >= 128
    ensures Mod(Xor(p, q)) == Xor(Mod(p), Mod(q))
    decreases |p|
  {
    if |p| > 128 {
      Ext(CancelTop(Xor(p, q)), Xor(CancelTop(p), CancelTop(q)));
      ModLinear(CancelTop(p), CancelTop(q));
    }
  }

  /** High zero coefficients do not matter. */
  lemma {:induction false} ModPadded(p: seq<bool>, n: nat)
    requires |p| >= 128
    ensures Mod(p + Zeros(n)) == Mod(p)
  {
    if n == 0 {
      assert p + Zeros(0) == p;
    } else {
      Ext(CancelTop(p + Zeros(n)), p + Zeros(n - 1));
      ModPadded(p, n - 1);
    }
  }

  lemma AddPadded(a: Block, p: seq<bool>)
    requires |p| >= 128
    ensures PolyAdd(a, p) == Xor(a + Zeros(|p| - 128), p)
  {
    Ext(PolyAdd(a, p), Xor(a + Zeros(|p| - 128), p));
  }

  lemma {:induction false} HornerIsRemainder(x: seq<bool>, y: Block)
    ensures Horner(x, y) == Mod(PolyMul(x, y))
  {
    if x != [] {
      var p, t := [false] + PolyMul(x[1..], y), Times(x[0], y);
      HornerIsRemainder(x[1..], y);
      ModShift(PolyMul(x[1..], y));
      AddPadded(t, p);
      ModLinear(t + Zeros(|p| - 128), p);
      ModPadded(t, |p| - 128);
    }
  }

  /** The bit-serial product is the product of polynomials modulo x^128 + x^7 + x^2 + x + 1. */
  lemma MulIsRemainder(x: Block, y: Block)
    ensures Mul(x, y) == Mod(PolyMul(x, y))
  {
    MulIsHorner(x, y);
    HornerIsRemainder(x, y);
  }

  // ---------------------------------------------------------------- long division is division

  lemma SnocStep(t: seq<bool>, r: seq<bool>, w: seq<bool>, n: nat)
    requires |t| == |w| && |r| == n + |w|
    ensures PolyAdd(t, [false] + PolyAdd(r + [false], Zeros(n) + w))
            == PolyAdd(PolyAdd(t, [false] + r) + [false], Zeros(n + 1) + w)
  {
    var x, y := PolyAdd(r + [false], Zeros(n) + w), PolyAdd(t, [false] + r);
    Ext(PolyAdd(t, [false] + x), PolyAdd(y + [false], Zeros(n + 1) + w));
  }

  lemma {:induction false} PolyMulSnoc(q: seq<bool>, b: bool, m: seq<bool>)
    ensures PolyMul(q + [b], m) == PolyAdd(PolyMul(q, m) + [false], Zeros(|q|) + Times(b, m))
    decreases |q|
  {
    if q == [] {
      assert [b][1..] == [] && q + [b] == [b];
      Ext(PolyMul([b], m), PolyAdd(PolyMul(q, m) + [false], Zeros(0) + Times(b, m)));
    } else {
      assert (q + [b])[1..] == q[1..] + [b];
      PolyMulSnoc(q[1..], b, m);
      SnocStep(Times(q[0], m), PolyMul(q[1..], m), Times(b, m), |q| - 1);
    }
  }

  lemma CancelTopAdds(p: seq<bool>)
    requires |p| > 128
    ensures p == PolyAdd(CancelTop(p) + [false], Zeros(|p| - 129) + Times(p[|p| - 1], Modulus()))
  {
    Ext(p, PolyAdd(CancelTop(p) + [false], Zeros(|p| - 129) + Times(p[|p| - 1], Modulus())));
  }

  lemma DivisionStep(c: seq<bool>, p: seq<bool>, qm: seq<bool>, w: seq<bool>, r: Block)
    requires |p| > 128 && |c| == |p| - 1 && |qm| == |p| && |w| == |p|
    requires c + [false] == PolyAdd(qm, r) && p == PolyAdd(c + [false], w)
    ensures p + [false] == PolyAdd(PolyAdd(qm + [false], w), r)
  {
    var s := PolyAdd(qm + [false], w);
    forall i | 0 <= i < |p|
      ensures (p + [false])[i] == PolyAdd(s, r)[i]
    {
      assert (c + [false])[i] == (qm[i] != Coef(r, i));
      assert p[i] == ((c + [false])[i] != w[i]);
    }
    Ext(p + [false], PolyAdd(s, r));
  }

  /** Every polynomial is its quotient times the modulus plus its remainder. */
  lemma {:induction false} DivisionIdentity(p: seq<bool>)
    requires |p| >= 128
    ensures p + [false] == PolyAdd(PolyMul(Quotient(p), Modulus()), Mod(p))
    decreases |p|
  {
    if |p| == 128 {
      Ext(p + [false], PolyAdd(PolyMul([], Modulus()), p));
    } else {
      var c, m, b := CancelTop(p), Modulus(), p[|p| - 1];
      DivisionIdentity(c);
      CancelTopAdds(p);
      PolyMulSnoc(Quotient(c), b, m);
      DivisionStep(c, p, PolyMul(Quotient(c), m), Zeros(|p| - 129) + Times(b, m), Mod(c));
    }
  }

  lemma {:induction false} MultipleLeavesNothing(q: seq<bool>)
    ensures Mod(PolyMul(q, Modulus())) == Zeros(128)
  {
    if q == [] {
      assert PolyMul(q, Modulus()) == Zeros(128) + Zeros(1);
      ModPadded(Zeros(128), 1);
    } else {
      var r, t := PolyMul(q[1..], Modulus()), Times(q[0], Modulus());
      MultipleLeavesNothing(q[1..]);
      ModShift(r);
      MulXZero();
      Ext(CancelTop(t), Zeros(128));
      ModPadded(t, |q|);
      Ext(PolyMul(q, Modulus()), Xor(t + Zeros(|q|), [false] + r));
      ModLinear(t + Zeros(|q|), [false] + r);
      XorZero(Zeros(128));
    }
  }

  /** The remainder is the only polynomial of degree below 128 that differs from `p` by a
      multiple of the modulus. */
  lemma RemainderUnique(p: seq<bool>, q: seq<bool>, r: Block)
    requires |p| >= 128 && |q| == |p| - 128
    requires p + [false] == PolyAdd(PolyMul(q, Modulus()), r)
    ensures r == Mod(p)
  {
    var m := PolyMul(q, Modulus());
    MultipleLeavesNothing(q);
    ModPadded(p, 1);
    assert p + Zeros(1) == p + [false];
    ModPadded(r, |m| - 128);
    Ext(p + [false], Xor(r + Zeros(|m| - 128), m));
    ModLinear(r + Zeros(|m| - 128), m);
    XorZero(r);
  }

  // ---------------------------------------------------------------- algebra

  lemma {:induction false} HornerLinear(x: seq<bool>, x': seq<bool>, y: Block)
    requires |x| == |x'|
    ensures Horner(Xor(x, x'), y) == Xor(Horner(x, y), Horner(x', y))
    decreases |x|
  {
    if x == [] {
      XorZero(Zeros(128));
    } else {
      assert Xor(x, x')[1..] == Xor(x[1..], x'[1..]);
      HornerLinear(x[1..], x'[1..], y);
      var h, h' := Horner(x[1..], y), Horner(x'[1..], y);
      MulXLinear(h, h');
      TimesXor(x[0], x'[0], y);
      XorSwap(Times(x[0], y), Times(x'[0], y), MulX(h), MulX(h'));
    }
  }

  lemma {:induction false} HornerAdditive(x: seq<bool>, y: Block, y': Block)
    ensures Horner(x, Xor(y, y')) == Xor(Horner(x, y), Horner(x, y'))
    decreases |x|
  {
    if x == [] {
      XorZero(Zeros(128));
    } else {
      HornerAdditive(x[1..], y, y');
      var h, h' := Horner(x[1..], y), Horner(x[1..], y');
      MulXLinear(h, h');
      TimesOverXor(x[0], y, y');
      XorSwap(Times(x[0], y), Times(x[0], y'), MulX(h), MulX(h'));
    }
  }

  /** Multiplication distributes over addition on both sides. */
  lemma MulBilinear(x: Block, x': Block, y: Block, y': Block)
    ensures Mul(Xor(x, x'), y) == Xor(Mul(x, y), Mul(x', y))
    ensures Mul(x, Xor(y, y')) == Xor(Mul(x, y), Mul(x, y'))
  {
    MulIsHorner(Xor(x, x'), y);
    MulIsHorner(x, y);
    MulIsHorner(x', y);
    MulIsHorner(x, y');
    MulIsHorner(x, Xor(y, y'));
    HornerLinear(x, x', y);
    HornerAdditive(x, y, y');
  }

  /** The product can be unrolled along the second factor instead. */
  lemma RightStep(a: seq<bool>, b: seq<bool>, r: seq<bool>)
    requires a != [] && b != [] && |r| == |a| + |b| - 2
    ensures PolyAdd(Times(a[0], b), [false] + PolyAdd(Times(b[0], a[1..]), [false] + r))
         == PolyAdd(Times(b[0], a), [false] + PolyAdd(Times(a[0], b[1..]), [false] + r))
  {
    var x, y := PolyAdd(Times(b[0], a[1..]), [false] + r), PolyAdd(Times(a[0], b[1..]), [false] + r);
    Ext(PolyAdd(Times(a[0], b), [false] + x), PolyAdd(Times(b[0], a), [false] + y));
  }

  lemma {:induction false} PolyMulRight(a: seq<bool>, b: seq<bool>)
    requires b != []
    ensures PolyMul(a, b) == PolyAdd(Times(b[0], a), [false] + PolyMul(a, b[1..]))
    decreases |a|
  {
    if a == [] {
      Ext(PolyMul(a, b), PolyAdd(Times(b[0], a), [false] + PolyMul(a, b[1..])));
    } else {
      PolyMulRight(a[1..], b);
      RightStep(a, b, PolyMul(a[1..], b[1..]));
    }
  }

  lemma {:induction false} PolyMulNone(a: seq<bool>)
    ensures PolyMul(a, []) == Zeros(|a|)
  {
    if a != [] {
      PolyMulNone(a[1..]);
      Ext(PolyMul(a, []), Zeros(|a|));
    }
  }

  lemma {:induction false} PolyMulComm(a: seq<bool>, b: seq<bool>)
    ensures PolyMul(a, b) == PolyMul(b, a)
    decreases |b|
  {
    if b == [] {
      PolyMulNone(a);
    } else {
      PolyMulRight(a, b);
      PolyMulComm(a, b[1..]);
    }
  }

  lemma MulComm(x: Block, y: Block)
    ensures Mul(x, y) == Mul(y, x)
  {
    MulIsRemainder(x, y);
    MulIsRemainder(y, x);
    PolyMulComm(x, y);
  }

  lemma HornerMulX(y: Block, z: Block)
    ensures Horner(MulX(y), z) == MulX(Horner(y, z))
  {
    MulIsHorner(MulX(y), z);
    MulComm(MulX(y), z);
    MulIsHorner(z, MulX(y));
    HornerOfMulX(z, y);
    MulIsHorner(z, y);
    MulComm(z, y);
    MulIsHorner(y, z);
  }

  lemma {:induction false} HornerAssoc(x: seq<bool>, y: Block, z: Block)
    ensures Horner(Horner(x, y), z) == Horner(x, Horner(y, z))
    decreases |x|
  {
    if x == [] {
      HornerOfZero(128, z);
    } else {
      var h := Horner(x[1..], y);
      HornerAssoc(x[1..], y, z);
      HornerLinear(Times(x[0], y), MulX(h), z);
      HornerMulX(h, z);
      if !x[0] {
        HornerOfZero(128, z);
      }
    }
  }

  lemma {:induction false} HornerOfZero(n: nat, z: Block)
    ensures Horner(Zeros(n), z) == Zeros(128)
  {
    if n > 0 {
      assert Zeros(n)[1..] == Zeros(n - 1);
      HornerOfZero(n - 1, z);
      MulXZero();
      XorZero(Zeros(128));
    }
  }

  lemma MulAssoc(x: Block, y: Block, z: Block)
    ensures Mul(Mul(x, y), z) == Mul(x, Mul(y, z))
  {
    MulIsHorner(x, y);
    MulIsHorner(Mul(x, y), z);
    MulIsHorner(y, z);
    MulIsHorner(x, Mul(y, z));
    HornerAssoc(x, y, z);
  }

  function One(): Block {
    [true] + Zeros(127)
  }

  lemma MulOne(y: Block)
    ensures Mul(One(), y) == y && Mul(y, One()) == y
  {
    MulIsHorner(One(), y);
    assert One()[1..] == Zeros(127);
    HornerOfZero(127, y);
    MulXZero();
    XorZero(y);
    MulComm(One(), y);
  }

  lemma MulZero(y: Block)
    ensures Mul(Zeros(128), y) == Zeros(128)
  {
    MulIsHorner(Zeros(128), y);
    HornerOfZero(128, y);
  }

  // ---------------------------------------------------------------- the chain

  /** The chain of section 6.4: Y_i = (Y_{i-1} + X_i) * H, from `acc`. */
  function Chain(h: Block, acc: Block, blocks: seq<Block>): Block
    decreases |blocks|
  {
    if blocks == [] then acc else Chain(h, Mul(Xor(acc, blocks[0]), h), blocks[1..])
  }

  function GhashOf(h: Block, blocks: seq<Block>): Block {
    Chain(h, Zeros(128), blocks)
  }

  function Power(h: Block, n: nat): Block {
    if n == 0 then One() else Mul(h, Power(h, n - 1))
  }

  /** X_1 * H^n + X_2 * H^(n-1) + ... + X_n * H */
  function WeightedSum(h: Block, blocks: seq<Block>): Block {
    if blocks == [] then Zeros(128) else Xor(Mul(blocks[0], Power(h, |blocks|)), WeightedSum(h, blocks[1..]))
  }

  lemma {:induction false} ChainIsWeightedSum(h: Block, acc: Block, blocks: seq<Block>)
    ensures Chain(h, acc, blocks) == Xor(Mul(acc, Power(h, |blocks|)), WeightedSum(h, blocks))
    decreases |blocks|
  {
    if blocks == [] {
      MulOne(acc);
      XorZero(acc);
    } else {
      var n, b := |blocks|, blocks[0];
      var p := Power(h, n - 1);
      ChainIsWeightedSum(h, Mul(Xor(acc, b), h), blocks[1..]);
      MulAssoc(Xor(acc, b), h, p);
      MulBilinear(acc, b, Power(h, n), Zeros(128));
      XorAssoc(Mul(acc, Power(h, n)), Mul(b, Power(h, n)), WeightedSum(h, blocks[1..]));
    }
  }

  /** GHASH of the blocks X_1 .. X_n is the sum of X_i * H^(n-i+1). */
  lemma GhashIsWeightedSum(h: Block, blocks: seq<Block>)
    ensures GhashOf(h, blocks) == WeightedSum(h, blocks)
  {
    ChainIsWeightedSum(h, Zeros(128), blocks);
    MulZero(Power(h, |blocks|));
    XorZero(WeightedSum(h, blocks));
  }

  function XorLists(a: seq<Block>, b: seq<Block>): (r: seq<Block>)
    requires |a| == |b|
    ensures |r| == |a|
  {
    seq(|a|, i requires 0 <= i < |a| => Xor(a[i], b[i]))
  }

  /** The chain is linear in the accumulator and the blocks together. */
  lemma {:induction false} ChainLinear(h: Block, acc: Block, a: seq<Block>, acc': Block, a': seq<Block>)
    requires |a| == |a'|
    ensures Chain(h, Xor(acc, acc'), XorLists(a, a')) == Xor(Chain(h, acc, a), Chain(h, acc', a'))
    decreases |a|
  {
    if a != [] {
      assert XorLists(a, a')[1..] == XorLists(a[1..], a'[1..]);
      XorSwap(acc, acc', a[0], a'[0]);
      MulBilinear(Xor(acc, a[0]), Xor(acc', a'[0]), h, h);
      ChainLinear(h, Mul(Xor(acc, a[0]), h), a[1..], Mul(Xor(acc', a'[0]), h), a'[1..]);
    }
  }

  lemma GhashLinear(h: Block, a: seq<Block>, a': seq<Block>)
    requires |a| == |a'|
    ensures GhashOf(h, XorLists(a, a')) == Xor(GhashOf(h, a), GhashOf(h, a'))
  {
    ChainLinear(h, Zeros(128), a, Zeros(128), a');
    XorZero(Zeros(128));
  }

  // ---------------------------------------------------------------- the reference loops

  method MulReference(x: Block, y: Block) returns (z: Block)
    ensures z == Mul(x, y)
  {
    z := Zeros(128);
    var v, i := y, 0;
    while i < 128
      invariant i <= 128 && Accumulate(x[i..], z, v) == Mul(x, y)
    {
      assert x[i..][1..] == x[i + 1..];
      if x[i] {
        z := XorInto(z, v);
      }
      XorZero(z);
      v := ShiftReduce(v);
      i := i + 1;
    }
  }

  method XorInto(z: Block, v: Block) returns (r: Block)
    ensures r == Xor(z, v)
  {
    r := z;
    var j := 0;
    while j < 128
      invariant j <= 128
      invariant forall k :: 0 <= k < j ==> r[k] == (z[k] != v[k])
      invariant forall k :: j <= k < 128 ==> r[k] == z[k]
    {
      if v[j] {
        r := r[j := !r[j]];
      }
      j := j + 1;
    }
  }

  method ShiftReduce(v: Block) returns (r: Block)
    ensures r == MulX(v)
  {
    r := [false] + v[..127];
    if v[127] {
      r := r[0 := !r[0]];
      r := r[1 := !r[1]];
      r := r[2 := !r[2]];
      r := r[7 := !r[7]];
    }
    Ext(r, MulX(v));
  }

  method ChainReference(h: Block, blocks: seq<Block>) returns (acc: Block)
    ensures acc == GhashOf(h, blocks)
  {
    acc := Zeros(128);
    var i := 0;
    while i < |blocks|
      invariant i <= |blocks| && Chain(h, acc, blocks[i..]) == GhashOf(h, blocks)
    {
      assert blocks[i..][1..] == blocks[i + 1..];
      acc := MulReference(Xor(acc, blocks[i]), h);
      i := i + 1;
    }
  }
}
