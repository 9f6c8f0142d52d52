/** Bit strings, most significant bit first, and their XOR algebra. */
module Bits {

  function Zeros(n: nat): (r: seq<bool>)
    ensures |r| == n
    ensures forall i :: 0 <= i < n ==> !r[i]
  {
    seq(n, i => false)
  }

  function Xor(a: seq<bool>, b: seq<bool>): (r: seq<bool>)
    requires |a| == |b|
    ensures |r| == |a|
    ensures forall i :: 0 <= i < |a| ==> r[i] == (a[i] != b[i])
  {
    seq(|a|, i requires 0 <= i < |a| => a[i] != b[i])
  }

  /** The product of one bit and a bit string over GF(2). */
  function Times(b: bool, x: seq<bool>): (r: seq<bool>)
    ensures |r| == |x|
    ensures forall i :: 0 <= i < |x| ==> r[i] == (b && x[i])
  {
    if b then x else Zeros(|x|)
  }

  lemma Ext(a: seq<bool>, b: seq<bool>)
    requires |a| == |b|
    requires forall i :: 0 <= i < |a| ==> a[i] == b[i]
    ensures a == b
  {}

  lemma XorComm(a: seq<bool>, b: seq<bool>)
    requires |a| == |b|
    ensures Xor(a, b) == Xor(b, a)
  {
    Ext(Xor(a, b), Xor(b, a));
  }

  lemma XorAssoc(a: seq<bool>, b: seq<bool>, c: seq<bool>)
    requires |a| == |b| == |c|
    ensures Xor(Xor(a, b), c) == Xor(a, Xor(b, c))
  {
    Ext(Xor(Xor(a, b), c), Xor(a, Xor(b, c)));
  }

  lemma XorCancel(a: seq<bool>, b: seq<bool>)
    requires |a| == |b|
    ensures Xor(Xor(a, b), b) == a
    ensures Xor(b, Xor(a, b)) == a
  {
    Ext(Xor(Xor(a, b), b), a);
    Ext(Xor(b, Xor(a, b)), a);
  }

  lemma XorZero(a: seq<bool>)
    ensures Xor(a, Zeros(|a|)) == a && Xor(Zeros(|a|), a) == a
    ensures Xor(a, a) == Zeros(|a|)
  {
    Ext(Xor(a, Zeros(|a|)), a);
    Ext(Xor(Zeros(|a|), a), a);
    Ext(Xor(a, a), Zeros(|a|));
  }

  /** (a ^ b) ^ (c ^ d) == (a ^ c) ^ (b ^ d) */
  lemma XorSwap(a: seq<bool>, b: seq<bool>, c: seq<bool>, d: seq<bool>)
    requires |a| == |b| == |c| == |d|
    ensures Xor(Xor(a, b), Xor(c, d)) == Xor(Xor(a, c), Xor(b, d))
  {
    Ext(Xor(Xor(a, b), Xor(c, d)), Xor(Xor(a, c), Xor(b, d)));
  }

  lemma TimesXor(a: bool, b: bool, x: seq<bool>)
    ensures Xor(Times(a, x), Times(b, x)) == Times(a != b, x)
  {
    Ext(Xor(Times(a, x), Times(b, x)), Times(a != b, x));
  }

  lemma TimesOverXor(b: bool, x: seq<bool>, y: seq<bool>)
    requires |x| == |y|
    ensures Times(b, Xor(x, y)) == Xor(Times(b, x), Times(b, y))
  {
    Ext(Times(b, Xor(x, y)), Xor(Times(b, x), Times(b, y)));
  }
}
