/** Bytes and their bits, most significant first. */
module Bytes {
  import opened Bits
  import opened Words

  type Byte = n: nat | n < 256

  function ByteBits(b: Byte): (r: seq<bool>)
    ensures |r| == 8
  {
    FromNat(8, b)
  }

  function ByteOf(c: seq<bool>): Byte
    requires |c| == 8
  {
    ToNatBound(c);
    ToNat(c)
  }

  lemma ByteBitsInverse(b: Byte, c: seq<bool>)
    requires |c| == 8
    ensures ByteOf(ByteBits(b)) == b && ByteBits(ByteOf(c)) == c
  {
    assert Pow2(8) == 256;
    ToNatFromNat(8, b);
    FromNatToNat(c);
  }

  function Unpack(bytes: seq<Byte>): (r: seq<bool>)
    ensures |r| == 8 * |bytes| && |r| % 8 == 0
  {
    if bytes == [] then [] else ByteBits(bytes[0]) + Unpack(bytes[1..])
  }

  function Pack(bits: seq<bool>): (r: seq<Byte>)
    requires |bits| % 8 == 0
    ensures 8 * |r| == |bits|
  {
    if bits == [] then [] else [ByteOf(bits[..8])] + Pack(bits[8..])
  }

  lemma {:induction false} PackUnpack(bytes: seq<Byte>)
    ensures Pack(Unpack(bytes)) == bytes
  {
    if bytes != [] {
      var r := Unpack(bytes);
      assert r[..8] == ByteBits(bytes[0]) && r[8..] == Unpack(bytes[1..]);
      ByteBitsInverse(bytes[0], r[..8]);
      PackUnpack(bytes[1..]);
    }
  }

  lemma {:induction false} UnpackPack(bits: seq<bool>)
    requires |bits| % 8 == 0
    ensures Unpack(Pack(bits)) == bits
    decreases |bits|
  {
    if bits != [] {
      var p := Pack(bits);
      assert p[1..] == Pack(bits[8..]);
      ByteBitsInverse(0, bits[..8]);
      UnpackPack(bits[8..]);
      assert bits == bits[..8] + bits[8..];
    }
  }

  // ---------------------------------------------------------------- XOR of bytes

  function XorByte(a: Byte, b: Byte): Byte {
    ByteOf(Xor(ByteBits(a), ByteBits(b)))
  }

  function XorBytes(a: seq<Byte>, b: seq<Byte>): (r: seq<Byte>)
    requires |a| == |b|
    ensures |r| == |a|
    ensures forall i :: 0 <= i < |a| ==> r[i] == XorByte(a[i], b[i])
  {
    seq(|a|, i requires 0 <= i < |a| => XorByte(a[i], b[i]))
  }

  lemma {:induction false} UnpackXor(a: seq<Byte>, b: seq<Byte>)
    requires |a| == |b|
    ensures Unpack(XorBytes(a, b)) == Xor(Unpack(a), Unpack(b))
  {
    if a != [] {
      var r := XorBytes(a, b);
      assert r[1..] == XorBytes(a[1..], b[1..]);
      UnpackXor(a[1..], b[1..]);
      ByteBitsInverse(0, Xor(ByteBits(a[0]), ByteBits(b[0])));
      assert Xor(Unpack(a), Unpack(b))
          == Xor(ByteBits(a[0]), ByteBits(b[0])) + Xor(Unpack(a[1..]), Unpack(b[1..]));
    }
  }

  lemma PackXor(x: seq<bool>, y: seq<bool>)
    requires |x| == |y| && |x| % 8 == 0
    ensures Pack(Xor(x, y)) == XorBytes(Pack(x), Pack(y))
  {
    UnpackPack(x);
    UnpackPack(y);
    UnpackXor(Pack(x), Pack(y));
    PackUnpack(XorBytes(Pack(x), Pack(y)));
  }

  lemma XorByteLaws(a: Byte, b: Byte, c: Byte)
    ensures XorByte(a, b) == XorByte(b, a)
    ensures XorByte(XorByte(a, b), c) == XorByte(a, XorByte(b, c))
    ensures XorByte(XorByte(a, b), b) == a
    ensures XorByte(a, 0) == a && XorByte(0, a) == a && XorByte(a, a) == 0
  {
    var x, y, z := ByteBits(a), ByteBits(b), ByteBits(c);
    ByteBitsInverse(a, Xor(x, y));
    ByteBitsInverse(0, Xor(y, z));
    XorComm(x, y);
    XorAssoc(x, y, z);
    XorCancel(x, y);
    XorZero(x);
    ZeroByte();
  }

  lemma ZeroByte()
    ensures ByteBits(0) == Zeros(8) && ByteOf(Zeros(8)) == 0
  {
    Ext(ByteBits(0), Zeros(8));
    ByteBitsInverse(0, Zeros(8));
  }

  function ZeroBytes(n: nat): (r: seq<Byte>)
    ensures |r| == n
    ensures forall i :: 0 <= i < n ==> r[i] == 0
  {
    seq(n, i => 0)
  }

  lemma XorBytesComm(a: seq<Byte>, b: seq<Byte>)
    requires |a| == |b|
    ensures XorBytes(a, b) == XorBytes(b, a)
  {
    forall i | 0 <= i < |a| ensures XorByte(a[i], b[i]) == XorByte(b[i], a[i]) { XorByteLaws(a[i], b[i], 0); }
  }

  lemma XorBytesAssoc(a: seq<Byte>, b: seq<Byte>, c: seq<Byte>)
    requires |a| == |b| == |c|
    ensures XorBytes(XorBytes(a, b), c) == XorBytes(a, XorBytes(b, c))
  {
    forall i | 0 <= i < |a|
      ensures XorByte(XorByte(a[i], b[i]), c[i]) == XorByte(a[i], XorByte(b[i], c[i]))
    {
      XorByteLaws(a[i], b[i], c[i]);
    }
  }

  lemma XorBytesCancel(a: seq<Byte>, b: seq<Byte>)
    requires |a| == |b|
    ensures XorBytes(XorBytes(a, b), b) == a && XorBytes(b, XorBytes(a, b)) == a && XorBytes(b, XorBytes(b, a)) == a
  {
    forall i | 0 <= i < |a|
      ensures XorByte(XorByte(a[i], b[i]), b[i]) == a[i]
      ensures XorByte(b[i], XorByte(a[i], b[i])) == a[i]
      ensures XorByte(b[i], XorByte(b[i], a[i])) == a[i]
    {
      XorByteLaws(a[i], b[i], 0);
      XorByteLaws(b[i], a[i], 0);
      XorByteLaws(XorByte(a[i], b[i]), b[i], 0);
      XorByteLaws(b[i], XorByte(a[i], b[i]), 0);
      XorByteLaws(XorByte(b[i], a[i]), b[i], 0);
    }
  }

  lemma XorBytesZero(a: seq<Byte>)
    ensures XorBytes(a, ZeroBytes(|a|)) == a && XorBytes(ZeroBytes(|a|), a) == a
    ensures XorBytes(a, a) == ZeroBytes(|a|)
  {
    forall i | 0 <= i < |a|
      ensures XorByte(a[i], 0) == a[i] && XorByte(0, a[i]) == a[i] && XorByte(a[i], a[i]) == 0
    {
      XorByteLaws(a[i], 0, 0);
    }
  }

  /** (a ^ b) ^ (c ^ d) == (a ^ c) ^ (b ^ d) */
  lemma XorBytesSwap(a: seq<Byte>, b: seq<Byte>, c: seq<Byte>, d: seq<Byte>)
    requires |a| == |b| == |c| == |d|
    ensures XorBytes(XorBytes(a, b), XorBytes(c, d)) == XorBytes(XorBytes(a, c), XorBytes(b, d))
  {
    XorBytesAssoc(a, b, XorBytes(c, d));
    XorBytesAssoc(b, c, d);
    XorBytesComm(b, c);
    XorBytesAssoc(c, b, d);
    XorBytesAssoc(a, c, XorBytes(b, d));
  }

  lemma XorBytesConcat(a: seq<Byte>, b: seq<Byte>, c: seq<Byte>, d: seq<Byte>)
    requires |a| == |b| && |c| == |d|
    ensures XorBytes(a + c, b + d) == XorBytes(a, b) + XorBytes(c, d)
  {}

  lemma {:induction false} UnpackConcat(a: seq<Byte>, b: seq<Byte>)
    ensures Unpack(a + b) == Unpack(a) + Unpack(b)
  {
    if a == [] {
      assert a + b == b;
    } else {
      assert (a + b)[1..] == a[1..] + b;
      UnpackConcat(a[1..], b);
    }
  }

  // ---------------------------------------------------------------- big-endian integers

  /** The low `n` bytes of `v`, most significant first. */
  function BigEndian(n: nat, v: nat): (r: seq<Byte>)
    ensures |r| == n
  {
    if n == 0 then [] else BigEndian(n - 1, v / 256) + [v % 256]
  }

  function FromBigEndian(s: seq<Byte>): nat {
    if s == [] then 0 else 256 * FromBigEndian(s[..|s| - 1]) + s[|s| - 1]
  }

  function Pow256(n: nat): (r: nat)
    ensures r > 0
  {
    if n == 0 then 1 else 256 * Pow256(n - 1)
  }

  lemma {:induction false} BigEndianZero(n: nat)
    ensures BigEndian(n, 0) == ZeroBytes(n)
  {
    if n > 0 {
      BigEndianZero(n - 1);
      assert BigEndian(n, 0) == BigEndian(n - 1, 0) + [0];
    }
  }

  /** Reading back what was written, when the field is wide enough. */
  lemma {:induction false} BigEndianInverse(n: nat, v: nat)
    requires v < Pow256(n)
    ensures FromBigEndian(BigEndian(n, v)) == v
  {
    if n > 0 {
      BigEndianInverse(n - 1, v / 256);
      assert BigEndian(n, v)[..n - 1] == BigEndian(n - 1, v / 256);
    }
  }

  lemma {:induction false} FromBigEndianInverse(s: seq<Byte>)
    ensures FromBigEndian(s) < Pow256(|s|) && BigEndian(|s|, FromBigEndian(s)) == s
  {
    if s != [] {
      FromBigEndianInverse(s[..|s| - 1]);
    }
  }

  lemma Widths()
    ensures Pow256(1) == 0x100 && Pow256(2) == 0x1_0000 && Pow256(3) == 0x100_0000 && Pow256(4) == 0x1_0000_0000
    ensures Pow256(8) == 0x1_0000_0000_0000_0000
  {}
}
