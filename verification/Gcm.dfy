/** AES-GCM over an arbitrary block cipher: the reference of NIST SP 800-38D, and the same
    computed by two parties that hold XOR shares of the key. */
module Gcm {
  import opened Bytes
  import Ghash

  type Block = s: seq<Byte> | |s| == 16 witness ZeroBytes(16)
  type Nonce = s: seq<Byte> | |s| == 12 witness ZeroBytes(12)

  /** A block cipher: key, block. */
  type Cipher = (Block, Block) -> Block

  // ---------------------------------------------------------------- the reference

  function Head(s: seq<Byte>): (h: seq<Byte>)
    ensures |h| <= 16 && (s != [] ==> |h| > 0)
  {
    if |s| <= 16 then s else s[..16]
  }

  function Tail(s: seq<Byte>): (t: seq<Byte>)
    ensures |t| == |s| - |Head(s)| && s == Head(s) + t
  {
    if |s| <= 16 then [] else s[16..]
  }

  /** The pre-counter block of section 7.1 for a 96-bit nonce. */
  function PreCounter(nonce: Nonce): Block {
    nonce + [0, 0, 0, 1]
  }

  /** The incrementing function of section 6.2 on the last 32 bits. */
  function Inc32(b: Block): Block {
    b[..12] + BigEndian(4, (FromBigEndian(b[12..]) + 1) % 0x1_0000_0000)
  }

  /** The counter mode of section 6.5, from the initial counter block `icb` on. */
  function Gctr(e: Cipher, k: Block, icb: Block, p: seq<Byte>): (r: seq<Byte>)
    ensures |r| == |p|
    decreases |p|
  {
    if p == [] then []
    else XorBytes(Head(p), e(k, icb)[..|Head(p)|]) + Gctr(e, k, Inc32(icb), Tail(p))
  }

  /** What section 7.1 does to the plaintext, and section 7.2 to the ciphertext. */
  function CounterMode(e: Cipher, k: Block, nonce: Nonce, p: seq<Byte>): (r: seq<Byte>)
    ensures |r| == |p|
  {
    Gctr(e, k, Inc32(PreCounter(nonce)), p)
  }

  /** `s` followed by zeros to a whole number of blocks. */
  function PadToBlock(s: seq<Byte>): (r: seq<Byte>)
    ensures |r| % 16 == 0
  {
    s + ZeroBytes((16 - |s| % 16) % 16)
  }

  function Split(s: seq<Byte>): seq<Block>
    requires |s| % 16 == 0
    decreases |s|
  {
    if s == [] then [] else [s[..16]] + Split(s[16..])
  }

  /** GHASH on bytes. */
  function GhashBytes(h: Block, blocks: seq<Block>): Block {
    Pack(Ghash.GhashOf(Unpack(h), UnpackAll(blocks)))
  }

  function UnpackAll(blocks: seq<Block>): (r: seq<Ghash.Block>)
    ensures |r| == |blocks|
  {
    seq(|blocks|, i requires 0 <= i < |blocks| => Unpack(blocks[i]))
  }

  function LengthBlock(aadLen: nat, ctLen: nat): Block {
    BigEndian(8, 8 * aadLen) + BigEndian(8, 8 * ctLen)
  }

  /** The string that the tag covers. */
  function TagInput(aad: seq<Byte>, ct: seq<Byte>): (r: seq<Byte>)
    ensures |r| % 16 == 0
  {
    var a, c := PadToBlock(aad), PadToBlock(ct);
    WholeBlocks(a, c);
    WholeBlocks(a + c, LengthBlock(|aad|, |ct|));
    a + c + LengthBlock(|aad|, |ct|)
  }

  lemma WholeBlocks(a: seq<Byte>, b: seq<Byte>)
    requires |a| % 16 == 0 && |b| % 16 == 0
    ensures |a + b| % 16 == 0
  {}

  /** The tag of section 7.1 for a 96-bit nonce. */
  function Tag(e: Cipher, k: Block, nonce: Nonce, aad: seq<Byte>, ct: seq<Byte>): Block {
    var s := GhashBytes(e(k, ZeroBytes(16)), Split(TagInput(aad, ct)));
    XorBytes(s, e(k, PreCounter(nonce)))
  }

  /** The authenticated encryption of section 7.1. */
  function Encrypt(e: Cipher, k: Block, nonce: Nonce, aad: seq<Byte>, pt: seq<Byte>): (seq<Byte>, Block) {
    var ct := CounterMode(e, k, nonce, pt);
    (ct, Tag(e, k, nonce, aad, ct))
  }

  /** Counter mode undoes itself. */
  lemma {:induction false} GctrInverse(e: Cipher, k: Block, icb: Block, p: seq<Byte>)
    ensures Gctr(e, k, icb, Gctr(e, k, icb, p)) == p
    decreases |p|
  {
    if p != [] {
      var c := Gctr(e, k, icb, p);
      var ks := e(k, icb)[..|Head(p)|];
      assert Head(c) == XorBytes(Head(p), ks) && Tail(c) == Gctr(e, k, Inc32(icb), Tail(p));
      XorBytesCancel(Head(p), ks);
      GctrInverse(e, k, Inc32(icb), Tail(p));
    }
  }

  /** The length block holds both lengths in bits, eight bytes each. */
  lemma LengthsOf(aadLen: nat, ctLen: nat)
    requires 8 * aadLen < 0x1_0000_0000_0000_0000 && 8 * ctLen < 0x1_0000_0000_0000_0000
    ensures FromBigEndian(LengthBlock(aadLen, ctLen)[..8]) == 8 * aadLen
    ensures FromBigEndian(LengthBlock(aadLen, ctLen)[8..]) == 8 * ctLen
  {
    Widths();
    BigEndianInverse(8, 8 * aadLen);
    BigEndianInverse(8, 8 * ctLen);
    assert LengthBlock(aadLen, ctLen)[..8] == BigEndian(8, 8 * aadLen);
    assert LengthBlock(aadLen, ctLen)[8..] == BigEndian(8, 8 * ctLen);
  }

  // ---------------------------------------------------------------- the counter as a number

  /** The counter block that the code builds. */
  function CounterBlock(nonce: Nonce, ctr: nat): Block {
    nonce + BigEndian(4, ctr)
  }

  /** Counter mode with the counter as a number; only its low 32 bits enter. */
  function GctrFrom(e: Cipher, k: Block, nonce: Nonce, ctr: nat, p: seq<Byte>): (r: seq<Byte>)
    ensures |r| == |p|
    decreases |p|
  {
    if p == [] then []
    else XorBytes(Head(p), e(k, CounterBlock(nonce, ctr))[..|Head(p)|]) + GctrFrom(e, k, nonce, ctr + 1, Tail(p))
  }

  lemma {:induction false} LowBytes(n: nat, v: nat)
    ensures BigEndian(n, v) == BigEndian(n, v % Pow256(n)) && FromBigEndian(BigEndian(n, v)) == v % Pow256(n)
  {
    if n == 0 {
    } else {
      LowBytes(n - 1, v / 256);
      DivideWidth(v, Pow256(n - 1));
      BigEndianInverse(n, v % Pow256(n));
    }
  }

  lemma DivideWidth(v: nat, w: nat)
    requires w > 0
    ensures (v % (256 * w)) / 256 == (v / 256) % w && (v % (256 * w)) % 256 == v % 256
  {
    var q, r := v / (256 * w), v % (256 * w);
    assert v == 256 * (w * q) + r;
    assert v / 256 == w * q + r / 256;
    ModOf(w, q, r / 256);
  }

  lemma ModOf(w: nat, q: nat, r: nat)
    requires r < w
    ensures (w * q + r) % w == r
  {
    var q1, r1 := (w * q + r) / w, (w * q + r) % w;
    assert w * (q1 - q) == r - r1;
    assert q1 - q >= 1 ==> w * (q1 - q) >= w;
    assert q1 - q <= -1 ==> w * (q1 - q) + w <= 0;
  }

  lemma FirstCounter(nonce: Nonce)
    ensures CounterBlock(nonce, 1) == PreCounter(nonce)
  {
    BigEndianZero(3);
    assert BigEndian(4, 1) == BigEndian(3, 0) + [1] && ZeroBytes(3) == [0, 0, 0];
  }

  lemma IncrementedBytes(nonce: Nonce, last: seq<Byte>)
    requires |last| == 4
    ensures Inc32(nonce + last) == nonce + BigEndian(4, (FromBigEndian(last) + 1) % 0x1_0000_0000)
  {
    assert (nonce + last)[..12] == nonce && (nonce + last)[12..] == last;
  }

  lemma WrapAdd(ctr: nat)
    ensures (ctr % 0x1_0000_0000 + 1) % 0x1_0000_0000 == (ctr + 1) % 0x1_0000_0000
  {}

  /** The code's counter blocks are those of the standard: the first is the pre-counter block,
      and the next counter gives the incremented block, also where it wraps around. */
  lemma CounterBlocks(nonce: Nonce, ctr: nat)
    ensures CounterBlock(nonce, 1) == PreCounter(nonce)
    ensures CounterBlock(nonce, ctr + 1) == CounterBlock(nonce, (ctr + 1) % 0x1_0000_0000)
         == Inc32(CounterBlock(nonce, ctr))
  {
    hide BigEndian, FromBigEndian, Inc32, PreCounter;
    Widths();
    FirstCounter(nonce);
    LowBytes(4, ctr);
    LowBytes(4, ctr + 1);
    WrapAdd(ctr);
    IncrementedBytes(nonce, BigEndian(4, ctr));
  }

  lemma {:induction false} GctrFromIs(e: Cipher, k: Block, nonce: Nonce, ctr: nat, p: seq<Byte>)
    ensures GctrFrom(e, k, nonce, ctr, p) == Gctr(e, k, CounterBlock(nonce, ctr), p)
    decreases |p|
  {
    if p != [] {
      CounterBlocks(nonce, ctr);
      GctrFromIs(e, k, nonce, ctr + 1, Tail(p));
    }
  }

  lemma CounterModeIs(e: Cipher, k: Block, nonce: Nonce, p: seq<Byte>)
    ensures CounterMode(e, k, nonce, p) == GctrFrom(e, k, nonce, 2, p)
  {
    CounterBlocks(nonce, 1);
    GctrFromIs(e, k, nonce, 2, p);
  }

  // ---------------------------------------------------------------- blocks, one at a time

  function BlockCount(len: nat): nat {
    (len + 15) / 16
  }

  /** Bytes copied to the front of a zero block. */
  function Padded(s: seq<Byte>): Block
    requires |s| <= 16
  {
    s + ZeroBytes(16 - |s|)
  }

  /** Only the first `valid` bytes are kept. */
  function ZeroPad(b: Block, valid: nat): Block {
    if valid < 16 then b[..valid] + ZeroBytes(16 - valid) else b
  }

  /** A string's blocks, the last one padded. */
  function Pads(s: seq<Byte>): (r: seq<Block>)
    ensures |r| == BlockCount(|s|)
    decreases |s|
  {
    if s == [] then [] else [Padded(Head(s))] + Pads(Tail(s))
  }

  lemma {:induction false} SplitConcat(a: seq<Byte>, b: seq<Byte>)
    requires |a| % 16 == 0 && |b| % 16 == 0
    ensures Split(a + b) == Split(a) + Split(b)
    decreases |a|
  {
    if a == [] {
      assert a + b == b;
    } else {
      var c := a + b;
      assert c[..16] == a[..16] && c[16..] == a[16..] + b;
      SplitConcat(a[16..], b);
      assert Split(c) == [c[..16]] + Split(c[16..]);
    }
  }

  lemma PadTail(s: seq<Byte>)
    requires |s| > 16
    ensures PadToBlock(s)[..16] == s[..16] == Padded(s[..16]) && PadToBlock(s)[16..] == PadToBlock(s[16..])
  {
    assert (16 - |s| % 16) % 16 == (16 - |s[16..]| % 16) % 16;
  }

  lemma {:induction false} SplitPadded(s: seq<Byte>)
    ensures Split(PadToBlock(s)) == Pads(s)
    decreases |s|
  {
    if s == [] {
      assert PadToBlock(s) == [];
    } else if |s| <= 16 {
      var p := PadToBlock(s);
      assert p == Padded(s) && p[..16] == p && p[16..] == [];
    } else {
      SplitPadded(s[16..]);
      PadTail(s);
    }
  }

  /** The string GHASH runs over is the blocks of the data, the ciphertext and the lengths. */
  lemma GhashInput(aad: seq<Byte>, ct: seq<Byte>)
    ensures Split(TagInput(aad, ct)) == Pads(aad) + Pads(ct) + [LengthBlock(|aad|, |ct|)]
  {
    var a, c, l := PadToBlock(aad), PadToBlock(ct), LengthBlock(|aad|, |ct|);
    WholeBlocks(a, c);
    SplitConcat(a + c, l);
    SplitConcat(a, c);
    SplitPadded(aad);
    SplitPadded(ct);
    SplitOne(l);
  }

  lemma SplitOne(b: Block)
    ensures Split(b) == [b]
  {
    assert b[..16] == b && b[16..] == [];
  }

  // ---------------------------------------------------------------- shares of blocks

  function XorBlocks(a: seq<Block>, b: seq<Block>): (r: seq<Block>)
    requires |a| == |b|
    ensures |r| == |a|
    ensures forall i :: 0 <= i < |a| ==> r[i] == XorBytes(a[i], b[i])
  {
    seq(|a|, i requires 0 <= i < |a| => XorBytes(a[i], b[i]))
  }

  function ZeroBlocks(n: nat): (r: seq<Block>)
    ensures |r| == n
  {
    seq(n, i => ZeroBytes(16))
  }

  lemma XorBlocksConcat(a: seq<Block>, b: seq<Block>, c: seq<Block>, d: seq<Block>)
    requires |a| == |b| && |c| == |d|
    ensures XorBlocks(a + c, b + d) == XorBlocks(a, b) + XorBlocks(c, d)
  {}

  lemma XorBlocksZero(a: seq<Block>)
    ensures XorBlocks(a, ZeroBlocks(|a|)) == a && XorBlocks(ZeroBlocks(|a|), a) == a
  {
    forall i | 0 <= i < |a|
      ensures XorBytes(a[i], ZeroBytes(16)) == a[i] && XorBytes(ZeroBytes(16), a[i]) == a[i]
    {
      XorBytesZero(a[i]);
    }
  }

  /** One party's arguments to a joint cipher block, and to a joint GHASH chain. */
  datatype AesCall = AesCall(block: Block, key: Block)
  datatype ChainCall = ChainCall(h: Block, blocks: seq<Block>)

  /** Every joint cipher block gave the parties shares of the cipher of the sums. */
  ghost predicate HonestAes(e: Cipher, cn: seq<AesCall>, rn: seq<Block>, cc: seq<AesCall>, rc: seq<Block>) {
    && |cn| == |rn| == |cc| == |rc|
    && forall i :: 0 <= i < |cn| ==>
       XorBytes(rn[i], rc[i]) == e(XorBytes(cn[i].key, cc[i].key), XorBytes(cn[i].block, cc[i].block))
  }

  ghost predicate HonestChain(cn: ChainCall, xn: Block, cc: ChainCall, xc: Block) {
    && |cn.blocks| == |cc.blocks|
    && XorBytes(xn, xc) == GhashBytes(XorBytes(cn.h, cc.h), XorBlocks(cn.blocks, cc.blocks))
  }

  /** The notary's cipher calls: zero block, J_0, then the counters from 2. */
  function NotaryAesCalls(kn: Block, nonce: Nonce, n: nat): (cs: seq<AesCall>)
    ensures |cs| == n + 2
  {
    [AesCall(ZeroBytes(16), kn), AesCall(CounterBlock(nonce, 1), kn)]
    + seq(n, i requires 0 <= i < n => AesCall(CounterBlock(nonce, i + 2), kn))
  }

  /** The client's: its share of every block is zero. */
  function ClientAesCalls(kc: Block, n: nat): (cs: seq<AesCall>)
    ensures |cs| == n + 2
  {
    seq(n + 2, i => AesCall(ZeroBytes(16), kc))
  }

  /** `ksn` and `ksc` are shares of the key stream from counter `ctr` on. */
  ghost predicate KeyStream(e: Cipher, k: Block, nonce: Nonce, ctr: nat, ksn: seq<Block>, ksc: seq<Block>) {
    |ksn| == |ksc| && forall i :: 0 <= i < |ksn| ==> XorBytes(ksn[i], ksc[i]) == e(k, CounterBlock(nonce, ctr + i))
  }

  /** What honest cipher calls give: shares of H, of the tag mask, and of the key stream. */
  lemma HonestAesValues(e: Cipher, kn: Block, kc: Block, nonce: Nonce, n: nat, rn: seq<Block>, rc: seq<Block>)
    requires |rn| == |rc| == n + 2 && HonestAes(e, NotaryAesCalls(kn, nonce, n), rn, ClientAesCalls(kc, n), rc)
    ensures XorBytes(rn[0], rc[0]) == e(XorBytes(kn, kc), ZeroBytes(16))
    ensures XorBytes(rn[1], rc[1]) == e(XorBytes(kn, kc), CounterBlock(nonce, 1))
    ensures KeyStream(e, XorBytes(kn, kc), nonce, 2, rn[2..], rc[2..])
  {
    var cn, cc := NotaryAesCalls(kn, nonce, n), ClientAesCalls(kc, n);
    forall i | 0 <= i < n + 2
      ensures XorBytes(rn[i], rc[i]) == e(XorBytes(kn, kc), cn[i].block)
    {
      XorBytesZero(cn[i].block);
    }
  }

  // ---------------------------------------------------------------- encryption

  /** The notary's GHASH blocks for a plaintext of `len` bytes: its key stream, cut to the text. */
  function NotaryTextBlocks(len: nat, ksn: seq<Block>): (r: seq<Block>)
    requires |ksn| == BlockCount(len)
    ensures |r| == |ksn|
    decreases len
  {
    if len == 0 then []
    else var valid := if len <= 16 then len else 16;
      [ZeroPad(ksn[0], valid)] + NotaryTextBlocks(len - valid, ksn[1..])
  }

  function ClientTextBlocks(pt: seq<Byte>, ksc: seq<Block>): (r: seq<Block>)
    requires |ksc| == BlockCount(|pt|)
    ensures |r| == |ksc|
    decreases |pt|
  {
    if pt == [] then []
    else [ZeroPad(XorBytes(Padded(Head(pt)), ksc[0]), |Head(pt)|)] + ClientTextBlocks(Tail(pt), ksc[1..])
  }

  /** The client's ciphertext from the notary's key stream shares and its own. */
  function ClientCiphertext(pt: seq<Byte>, ksn: seq<Block>, ksc: seq<Block>): (r: seq<Byte>)
    requires |ksc| == |ksn| == BlockCount(|pt|)
    ensures |r| == |pt|
    decreases |pt|
  {
    if pt == [] then []
    else XorBytes(XorBytes(Padded(Head(pt)), ksc[0]), ksn[0])[..|Head(pt)|]
         + ClientCiphertext(Tail(pt), ksn[1..], ksc[1..])
  }

  lemma KeyStreamTail(e: Cipher, k: Block, nonce: Nonce, ctr: nat, ksn: seq<Block>, ksc: seq<Block>)
    requires ksn != [] && KeyStream(e, k, nonce, ctr, ksn, ksc)
    ensures XorBytes(ksn[0], ksc[0]) == e(k, CounterBlock(nonce, ctr))
    ensures KeyStream(e, k, nonce, ctr + 1, ksn[1..], ksc[1..])
  {
    assert ctr + 0 == ctr;
    forall i | 0 <= i < |ksn| - 1
      ensures XorBytes(ksn[1..][i], ksc[1..][i]) == e(k, CounterBlock(nonce, ctr + 1 + i))
    {
      assert ctr + 1 + i == ctr + (i + 1);
    }
  }

  /** One block: the sum of the parts, cut to the text, is the text under the key stream. */
  lemma TextBlock(p: seq<Byte>, ksn: Block, ksc: Block)
    requires |p| <= 16
    ensures XorBytes(XorBytes(Padded(p), ksc), ksn)[..|p|] == XorBytes(p, XorBytes(ksn, ksc)[..|p|])
    ensures XorBytes(ZeroPad(ksn, |p|), ZeroPad(XorBytes(Padded(p), ksc), |p|))
            == Padded(XorBytes(p, XorBytes(ksn, ksc)[..|p|]))
  {
    var ct := XorBytes(p, XorBytes(ksn, ksc)[..|p|]);
    forall i | 0 <= i < |p|
      ensures XorByte(XorByte(p[i], ksc[i]), ksn[i]) == ct[i]
      ensures XorByte(ksn[i], XorByte(p[i], ksc[i])) == ct[i]
    {
      XorByteLaws(p[i], ksc[i], ksn[i]);
      XorByteLaws(ksn[i], ksc[i], 0);
      XorByteLaws(ksn[i], XorByte(p[i], ksc[i]), 0);
    }
    XorByteLaws(0, 0, 0);
    assert XorBytes(ZeroPad(ksn, |p|), ZeroPad(XorBytes(Padded(p), ksc), |p|)) == Padded(ct);
  }

  /** The client's ciphertext is counter mode under the summed key stream. */
  lemma {:induction false} CiphertextIsGctr(e: Cipher, k: Block, nonce: Nonce, ctr: nat, pt: seq<Byte>,
                                            ksn: seq<Block>, ksc: seq<Block>)
    requires |ksn| == BlockCount(|pt|) && KeyStream(e, k, nonce, ctr, ksn, ksc)
    ensures ClientCiphertext(pt, ksn, ksc) == GctrFrom(e, k, nonce, ctr, pt)
    decreases |pt|
  {
    if pt != [] {
      KeyStreamTail(e, k, nonce, ctr, ksn, ksc);
      TextBlock(Head(pt), ksn[0], ksc[0]);
      CiphertextIsGctr(e, k, nonce, ctr + 1, Tail(pt), ksn[1..], ksc[1..]);
    }
  }

  lemma GctrParts(e: Cipher, k: Block, nonce: Nonce, ctr: nat, pt: seq<Byte>)
    requires pt != []
    ensures
      var ct := GctrFrom(e, k, nonce, ctr, pt);
      && Head(ct) == XorBytes(Head(pt), e(k, CounterBlock(nonce, ctr))[..|Head(pt)|])
      && Tail(ct) == GctrFrom(e, k, nonce, ctr + 1, Tail(pt))
  {
    var h, t := XorBytes(Head(pt), e(k, CounterBlock(nonce, ctr))[..|Head(pt)|]),
                GctrFrom(e, k, nonce, ctr + 1, Tail(pt));
    assert (h + t)[..|h|] == h && (h + t)[|h|..] == t;
  }

  /** The two parties' GHASH blocks add up to the blocks of the ciphertext. */
  lemma {:induction false} TextBlocksAreCiphertext(e: Cipher, k: Block, nonce: Nonce, ctr: nat, pt: seq<Byte>,
                                                   ksn: seq<Block>, ksc: seq<Block>)
    requires |ksn| == BlockCount(|pt|) && KeyStream(e, k, nonce, ctr, ksn, ksc)
    ensures XorBlocks(NotaryTextBlocks(|pt|, ksn), ClientTextBlocks(pt, ksc)) == Pads(GctrFrom(e, k, nonce, ctr, pt))
    decreases |pt|
  {
    if pt != [] {
      KeyStreamTail(e, k, nonce, ctr, ksn, ksc);
      TextBlock(Head(pt), ksn[0], ksc[0]);
      TextBlocksAreCiphertext(e, k, nonce, ctr + 1, Tail(pt), ksn[1..], ksc[1..]);
      GctrParts(e, k, nonce, ctr, pt);
      FirstTextBlock(pt, ksn, ksc);
    }
  }

  lemma FirstTextBlock(pt: seq<Byte>, ksn: seq<Block>, ksc: seq<Block>)
    requires pt != [] && |ksn| == |ksc| == BlockCount(|pt|) == BlockCount(|Tail(pt)|) + 1
    ensures XorBlocks(NotaryTextBlocks(|pt|, ksn), ClientTextBlocks(pt, ksc))
         == [XorBytes(ZeroPad(ksn[0], |Head(pt)|), ZeroPad(XorBytes(Padded(Head(pt)), ksc[0]), |Head(pt)|))]
            + XorBlocks(NotaryTextBlocks(|Tail(pt)|, ksn[1..]), ClientTextBlocks(Tail(pt), ksc[1..]))
  {
    var a, b := ZeroPad(ksn[0], |Head(pt)|), ZeroPad(XorBytes(Padded(Head(pt)), ksc[0]), |Head(pt)|);
    FirstNotaryBlock(|pt|, |Head(pt)|, ksn);
    XorBlocksConcat([a], [b], NotaryTextBlocks(|Tail(pt)|, ksn[1..]), ClientTextBlocks(Tail(pt), ksc[1..]));
    assert XorBlocks([a], [b]) == [XorBytes(a, b)];
  }

  lemma FirstNotaryBlock(len: nat, valid: nat, ksn: seq<Block>)
    requires len > 0 && valid == (if len <= 16 then len else 16)
             && |ksn| == BlockCount(len) == BlockCount(len - valid) + 1
    ensures NotaryTextBlocks(len, ksn) == [ZeroPad(ksn[0], valid)] + NotaryTextBlocks(len - valid, ksn[1..])
  {}

  function NotaryEncryptChain(aad: seq<Byte>, len: nat, rn: seq<Block>): ChainCall
    requires |rn| == BlockCount(len) + 2
  {
    ChainCall(rn[0], Pads(aad) + NotaryTextBlocks(len, rn[2..]) + [LengthBlock(|aad|, len)])
  }

  function ClientEncryptChain(aadLen: nat, pt: seq<Byte>, rc: seq<Block>): ChainCall
    requires |rc| == BlockCount(|pt|) + 2
  {
    ChainCall(rc[0], ZeroBlocks(BlockCount(aadLen)) + ClientTextBlocks(pt, rc[2..]) + [ZeroBytes(16)])
  }

  /** What the client returns, from its own replies and what it read. */
  function ClientEncrypted(pt: seq<Byte>, rc: seq<Block>, xc: Block, read: seq<Block>): (seq<Byte>, Block)
    requires |rc| == BlockCount(|pt|) + 2 && |read| == BlockCount(|pt|) + 1
  {
    (ClientCiphertext(pt, read[..|read| - 1], rc[2..]), XorBytes(read[|read| - 1], XorBytes(xc, rc[1])))
  }

  /** What the notary sends: its key stream shares, then its tag share. */
  function NotaryEncryptSends(rn: seq<Block>, xn: Block): (r: seq<Block>)
    requires |rn| >= 2
    ensures |r| == |rn| - 1
  {
    rn[2..] + [XorBytes(xn, rn[1])]
  }

  /** For every key split, nonce, data and plaintext of any length, split-key encryption gives
      the ciphertext and tag of the standard under the summed key. */
  lemma SplitEncryptIsGcm(e: Cipher, kn: Block, kc: Block, nonce: Nonce, aad: seq<Byte>, pt: seq<Byte>,
                          rn: seq<Block>, rc: seq<Block>, xn: Block, xc: Block)
    requires |rn| == |rc| == BlockCount(|pt|) + 2
    requires HonestAes(e, NotaryAesCalls(kn, nonce, BlockCount(|pt|)), rn, ClientAesCalls(kc, BlockCount(|pt|)), rc)
    requires HonestChain(NotaryEncryptChain(aad, |pt|, rn), xn, ClientEncryptChain(|aad|, pt, rc), xc)
    ensures ClientEncrypted(pt, rc, xc, NotaryEncryptSends(rn, xn)) == Encrypt(e, XorBytes(kn, kc), nonce, aad, pt)
  {
    hide HonestAes, HonestChain, NotaryAesCalls, ClientAesCalls, NotaryEncryptChain, ClientEncryptChain, Tag;
    hide CounterMode, GctrFrom, ClientCiphertext;
    var k, ct := XorBytes(kn, kc), CounterMode(e, XorBytes(kn, kc), nonce, pt);
    CounterModeIs(e, k, nonce, pt);
    HonestAesValues(e, kn, kc, nonce, BlockCount(|pt|), rn, rc);
    CiphertextIsGctr(e, k, nonce, 2, pt, rn[2..], rc[2..]);
    EncryptTag(e, kn, kc, nonce, aad, pt, ct, rn, rc, xn, xc);
    var sent := NotaryEncryptSends(rn, xn);
    assert sent[..|sent| - 1] == rn[2..];
  }

  /** The tag that the client puts together is the standard's tag of the data and the ciphertext. */
  lemma EncryptTag(e: Cipher, kn: Block, kc: Block, nonce: Nonce, aad: seq<Byte>, pt: seq<Byte>, ct: seq<Byte>,
                   rn: seq<Block>, rc: seq<Block>, xn: Block, xc: Block)
    requires |rn| == |rc| == BlockCount(|pt|) + 2 && ct == GctrFrom(e, XorBytes(kn, kc), nonce, 2, pt)
    requires HonestAes(e, NotaryAesCalls(kn, nonce, BlockCount(|pt|)), rn, ClientAesCalls(kc, BlockCount(|pt|)), rc)
    requires HonestChain(NotaryEncryptChain(aad, |pt|, rn), xn, ClientEncryptChain(|aad|, pt, rc), xc)
    ensures XorBytes(XorBytes(xn, rn[1]), XorBytes(xc, rc[1])) == Tag(e, XorBytes(kn, kc), nonce, aad, ct)
  {
    var k := XorBytes(kn, kc);
    CounterBlocks(nonce, 1);
    HonestAesValues(e, kn, kc, nonce, BlockCount(|pt|), rn, rc);
    TextBlocksAreCiphertext(e, k, nonce, 2, pt, rn[2..], rc[2..]);
    EncryptBlocks(aad, pt, ct, rn, rc);
    GhashInput(aad, ct);
    TagShares(xn, rn[1], xc, rc[1]);
  }

  lemma EncryptBlocks(aad: seq<Byte>, pt: seq<Byte>, ct: seq<Byte>, rn: seq<Block>, rc: seq<Block>)
    requires |rn| == |rc| == BlockCount(|pt|) + 2 && |ct| == |pt|
    requires XorBlocks(NotaryTextBlocks(|pt|, rn[2..]), ClientTextBlocks(pt, rc[2..])) == Pads(ct)
    ensures XorBlocks(NotaryEncryptChain(aad, |pt|, rn).blocks, ClientEncryptChain(|aad|, pt, rc).blocks)
         == Pads(aad) + Pads(ct) + [LengthBlock(|aad|, |ct|)]
  {
    var l := LengthBlock(|aad|, |ct|);
    XorBlocksZero(Pads(aad));
    XorBlocksZero([l]);
    var a, z := Pads(aad), ZeroBlocks(BlockCount(|aad|));
    var tn, tc := NotaryTextBlocks(|pt|, rn[2..]), ClientTextBlocks(pt, rc[2..]);
    assert ZeroBlocks(1) == [ZeroBytes(16)];
    XorBlocksConcat(a + tn, z + tc, [l], ZeroBlocks(1));
    XorBlocksConcat(a, z, tn, tc);
  }

  lemma TagShares(xn: Block, sn: Block, xc: Block, sc: Block)
    ensures XorBytes(XorBytes(xn, sn), XorBytes(xc, sc)) == XorBytes(XorBytes(xn, xc), XorBytes(sn, sc))
  {
    XorBytesSwap(xn, sn, xc, sc);
  }

  // ---------------------------------------------------------------- decryption

  /** The client's GHASH blocks are the data's and the ciphertext's; the notary adds the lengths. */
  function NotaryDecryptChain(aadLen: nat, ctLen: nat, hn: Block): ChainCall {
    ChainCall(hn, ZeroBlocks(BlockCount(aadLen)) + ZeroBlocks(BlockCount(ctLen)) + [LengthBlock(aadLen, ctLen)])
  }

  function ClientDecryptChain(aad: seq<Byte>, ct: seq<Byte>, hc: Block): ChainCall {
    ChainCall(hc, Pads(aad) + Pads(ct) + [ZeroBytes(16)])
  }

  lemma DecryptBlocks(aad: seq<Byte>, ct: seq<Byte>, hn: Block, hc: Block)
    ensures XorBlocks(NotaryDecryptChain(|aad|, |ct|, hn).blocks, ClientDecryptChain(aad, ct, hc).blocks)
         == Pads(aad) + Pads(ct) + [LengthBlock(|aad|, |ct|)]
  {
    var l := LengthBlock(|aad|, |ct|);
    XorBlocksZero(Pads(aad));
    XorBlocksZero(Pads(ct));
    XorBlocksZero([l]);
    var a, c := Pads(aad), Pads(ct);
    assert ZeroBlocks(1) == [ZeroBytes(16)];
    XorBlocksConcat(ZeroBlocks(|a|) + ZeroBlocks(|c|), a + c, [l], ZeroBlocks(1));
    XorBlocksConcat(ZeroBlocks(|a|), a, ZeroBlocks(|c|), c);
  }

  /** The notary answers each ciphertext block with the block plus its key stream share. */
  function NotaryDecryptSends(read: seq<Block>, ksn: seq<Block>, tagN: Block): (r: seq<Block>)
    requires |read| == |ksn|
    ensures |r| == |ksn| + 1
  {
    XorBlocks(read, ksn) + [tagN]
  }

  /** The client adds the same block and its own share to the answer. */
  function ClientPlaintext(ct: seq<Byte>, answers: seq<Block>, ksc: seq<Block>): (r: seq<Byte>)
    requires |answers| == |ksc| == BlockCount(|ct|)
    ensures |r| == |ct|
    decreases |ct|
  {
    if ct == [] then []
    else XorBytes(answers[0], XorBytes(Padded(Head(ct)), ksc[0]))[..|Head(ct)|]
         + ClientPlaintext(Tail(ct), answers[1..], ksc[1..])
  }

  datatype Decrypted = Rejected | Accepted(plaintext: seq<Byte>)

  function ClientDecrypted(ct: seq<Byte>, received: Block, rc: seq<Block>, xc: Block, read: seq<Block>): Decrypted
    requires |rc| == BlockCount(|ct|) + 2 && |read| == BlockCount(|ct|) + 1
  {
    if XorBytes(read[|read| - 1], XorBytes(xc, rc[1])) != received then Rejected
    else Accepted(ClientPlaintext(ct, read[..|read| - 1], rc[2..]))
  }

  /** One block: the ciphertext cancels. */
  lemma CipherCancels(h: seq<Byte>, ksn: Block, ksc: Block)
    requires |h| <= 16
    ensures XorBytes(XorBytes(Padded(h), ksn), XorBytes(Padded(h), ksc))[..|h|]
         == XorBytes(ZeroBytes(|h|), XorBytes(ksn, ksc)[..|h|])
  {
    var b, ks := Padded(h), XorBytes(ksn, ksc);
    XorBytesSwap(b, ksn, b, ksc);
    XorBytesZero(b);
    XorBytesZero(ks);
    XorBytesZero(ks[..|h|]);
  }

  lemma AnswersTail(ct: seq<Byte>, ksn: seq<Block>)
    requires ct != [] && |ksn| == BlockCount(|ct|)
    ensures |ksn| == BlockCount(|Tail(ct)|) + 1
    ensures XorBlocks(Pads(ct), ksn)[0] == XorBytes(Padded(Head(ct)), ksn[0])
    ensures XorBlocks(Pads(ct), ksn)[1..] == XorBlocks(Pads(Tail(ct)), ksn[1..])
  {
    var a, b := [Padded(Head(ct))], Pads(Tail(ct));
    assert ksn == [ksn[0]] + ksn[1..];
    XorBlocksConcat(a, [ksn[0]], b, ksn[1..]);
    assert Pads(ct) == a + b;
  }

  /** Both sides add the ciphertext block, so it cancels: what is left is the key stream. */
  lemma {:induction false} PlaintextIsKeyStream(e: Cipher, k: Block, nonce: Nonce, ctr: nat, ct: seq<Byte>,
                                                ksn: seq<Block>, ksc: seq<Block>)
    requires |ksn| == BlockCount(|ct|) && KeyStream(e, k, nonce, ctr, ksn, ksc)
    ensures ClientPlaintext(ct, XorBlocks(Pads(ct), ksn), ksc) == GctrFrom(e, k, nonce, ctr, ZeroBytes(|ct|))
    decreases |ct|
  {
    if ct != [] {
      var z := ZeroBytes(|ct|);
      KeyStreamTail(e, k, nonce, ctr, ksn, ksc);
      AnswersTail(ct, ksn);
      PlaintextIsKeyStream(e, k, nonce, ctr + 1, Tail(ct), ksn[1..], ksc[1..]);
      CipherCancels(Head(ct), ksn[0], ksc[0]);
      assert Head(z) == ZeroBytes(|Head(ct)|) && Tail(z) == ZeroBytes(|Tail(ct)|);
    }
  }

  lemma {:induction false} GctrOfSum(e: Cipher, k: Block, nonce: Nonce, ctr: nat, p: seq<Byte>)
    ensures GctrFrom(e, k, nonce, ctr, p) == XorBytes(p, GctrFrom(e, k, nonce, ctr, ZeroBytes(|p|)))
    decreases |p|
  {
    if p != [] {
      var z := ZeroBytes(|p|);
      var ks := e(k, CounterBlock(nonce, ctr))[..|Head(p)|];
      GctrOfSum(e, k, nonce, ctr + 1, Tail(p));
      assert Head(z) == ZeroBytes(|Head(p)|) && Tail(z) == ZeroBytes(|Tail(p)|);
      XorBytesZero(ks);
      XorBytesConcat(Head(p), ks, Tail(p), GctrFrom(e, k, nonce, ctr + 1, Tail(z)));
    }
  }

  /** The client's computed tag is the standard's tag of the data and the ciphertext. */
  lemma DecryptTag(e: Cipher, kn: Block, kc: Block, nonce: Nonce, aad: seq<Byte>, ct: seq<Byte>,
                   hn: Block, hc: Block, sn: Block, sc: Block, xn: Block, xc: Block)
    requires XorBytes(hn, hc) == e(XorBytes(kn, kc), ZeroBytes(16))
    requires XorBytes(sn, sc) == e(XorBytes(kn, kc), CounterBlock(nonce, 1))
    requires HonestChain(NotaryDecryptChain(|aad|, |ct|, hn), xn, ClientDecryptChain(aad, ct, hc), xc)
    ensures XorBytes(XorBytes(xn, sn), XorBytes(xc, sc)) == Tag(e, XorBytes(kn, kc), nonce, aad, ct)
  {
    CounterBlocks(nonce, 1);
    DecryptBlocks(aad, ct, hn, hc);
    GhashInput(aad, ct);
    TagShares(xn, sn, xc, sc);
  }

  /** Decryption as written. For every key split, nonce, data, ciphertext of any length and
      received tag: the client accepts exactly when the received tag is the tag of the
      standard; what it then returns is the key stream, and that is the plaintext exactly
      when every ciphertext byte is zero. */
  lemma SplitDecryptAsWritten(e: Cipher, kn: Block, kc: Block, nonce: Nonce, aad: seq<Byte>, ct: seq<Byte>,
                              received: Block, rn: seq<Block>, rc: seq<Block>, xn: Block, xc: Block)
    requires |rn| == |rc| == BlockCount(|ct|) + 2
    requires HonestAes(e, NotaryAesCalls(kn, nonce, BlockCount(|ct|)), rn, ClientAesCalls(kc, BlockCount(|ct|)), rc)
    requires HonestChain(NotaryDecryptChain(|aad|, |ct|, rn[0]), xn, ClientDecryptChain(aad, ct, rc[0]), xc)
    ensures
      var k := XorBytes(kn, kc);
      var d := ClientDecrypted(ct, received, rc, xc, NotaryDecryptSends(Pads(ct), rn[2..], XorBytes(xn, rn[1])));
      && (d.Accepted? <==> received == Tag(e, k, nonce, aad, ct))
      && (d.Accepted? ==> d.plaintext == CounterMode(e, k, nonce, ZeroBytes(|ct|)))
      && (d.Accepted? ==> (d.plaintext == CounterMode(e, k, nonce, ct) <==> ct == ZeroBytes(|ct|)))
  {
    hide HonestAes, HonestChain, NotaryAesCalls, ClientAesCalls, NotaryDecryptChain, ClientDecryptChain, Tag;
    hide CounterMode, GctrFrom, ClientPlaintext;
    var k := XorBytes(kn, kc);
    HonestAesValues(e, kn, kc, nonce, BlockCount(|ct|), rn, rc);
    DecryptTag(e, kn, kc, nonce, aad, ct, rn[0], rc[0], rn[1], rc[1], xn, xc);
    CounterModeIs(e, k, nonce, ZeroBytes(|ct|));
    PlaintextIsKeyStream(e, k, nonce, 2, ct, rn[2..], rc[2..]);
    KeyStreamIsPlaintextWhen(e, k, nonce, ct);
    ClientDecides(ct, received, rc, xc, XorBlocks(Pads(ct), rn[2..]), XorBytes(xn, rn[1]), Tag(e, k, nonce, aad, ct));
  }

  lemma ClientDecides(ct: seq<Byte>, received: Block, rc: seq<Block>, xc: Block, answers: seq<Block>, tagN: Block,
                      tag: Block)
    requires |rc| == BlockCount(|ct|) + 2 && |answers| == BlockCount(|ct|)
    requires XorBytes(tagN, XorBytes(xc, rc[1])) == tag
    ensures ClientDecrypted(ct, received, rc, xc, answers + [tagN])
         == if tag == received then Accepted(ClientPlaintext(ct, answers, rc[2..])) else Rejected
  {
    assert (answers + [tagN])[..|answers|] == answers;
  }

  lemma KeyStreamIsPlaintextWhen(e: Cipher, k: Block, nonce: Nonce, ct: seq<Byte>)
    ensures CounterMode(e, k, nonce, ZeroBytes(|ct|)) == CounterMode(e, k, nonce, ct) <==> ct == ZeroBytes(|ct|)
  {
    var ks := CounterMode(e, k, nonce, ZeroBytes(|ct|));
    CounterModeIs(e, k, nonce, ct);
    CounterModeIs(e, k, nonce, ZeroBytes(|ct|));
    GctrOfSum(e, k, nonce, 2, ct);
    if XorBytes(ct, ks) == ks {
      XorBytesCancel(ct, ks);
      XorBytesZero(ks);
    }
  }

  /** The input that shows it: on the one ciphertext byte 1 with its right tag the client accepts
      and does not return the plaintext. */
  lemma DecryptLosesPlaintext(e: Cipher, kn: Block, kc: Block, nonce: Nonce, aad: seq<Byte>,
                              rn: seq<Block>, rc: seq<Block>, xn: Block, xc: Block)
    requires |rn| == |rc| == 3
    requires HonestAes(e, NotaryAesCalls(kn, nonce, 1), rn, ClientAesCalls(kc, 1), rc)
    requires HonestChain(NotaryDecryptChain(|aad|, 1, rn[0]), xn, ClientDecryptChain(aad, [1], rc[0]), xc)
    ensures
      var k := XorBytes(kn, kc);
      var d := ClientDecrypted([1], Tag(e, k, nonce, aad, [1]), rc, xc,
                               NotaryDecryptSends(Pads([1]), rn[2..], XorBytes(xn, rn[1])));
      d.Accepted? && d.plaintext != CounterMode(e, k, nonce, [1])
  {
    SplitDecryptAsWritten(e, kn, kc, nonce, aad, [1], Tag(e, XorBytes(kn, kc), nonce, aad, [1]), rn, rc, xn, xc);
    assert [1][0] != ZeroBytes(1)[0];
  }

  // ---------------------------------------------------------------- honest replies exist

  /** The client's share of a joint cipher block whose notary keeps the mask `rn`. */
  function AesReply(e: Cipher, cn: AesCall, cc: AesCall, rn: Block): Block {
    XorBytes(rn, e(XorBytes(cn.key, cc.key), XorBytes(cn.block, cc.block)))
  }

  /** Whatever masks the notary keeps, there are honest replies to the client's cipher calls. */
  lemma HonestAesExists(e: Cipher, kn: Block, kc: Block, nonce: Nonce, n: nat, rn: seq<Block>) returns (rc: seq<Block>)
    requires |rn| == n + 2
    ensures |rc| == n + 2 && HonestAes(e, NotaryAesCalls(kn, nonce, n), rn, ClientAesCalls(kc, n), rc)
  {
    var cn, cc := NotaryAesCalls(kn, nonce, n), ClientAesCalls(kc, n);
    rc := seq<Block>(n + 2, i requires 0 <= i < n + 2 => AesReply(e, cn[i], cc[i], rn[i]));
    forall i | 0 <= i < n + 2
      ensures XorBytes(rn[i], rc[i]) == e(XorBytes(cn[i].key, cc[i].key), XorBytes(cn[i].block, cc[i].block))
    {
      XorBytesCancel(e(XorBytes(cn[i].key, cc[i].key), XorBytes(cn[i].block, cc[i].block)), rn[i]);
    }
  }

  lemma HonestChainExists(cn: ChainCall, xn: Block, cc: ChainCall) returns (xc: Block)
    requires |cn.blocks| == |cc.blocks|
    ensures HonestChain(cn, xn, cc, xc)
  {
    var x := GhashBytes(XorBytes(cn.h, cc.h), XorBlocks(cn.blocks, cc.blocks));
    xc := XorBytes(xn, x);
    XorBytesCancel(x, xn);
  }

  /** So there is an honest run of the encryption, and of the decryption, for all masks. */
  lemma HonestGcmExists(e: Cipher, kn: Block, kc: Block, nonce: Nonce, aad: seq<Byte>, text: seq<Byte>,
                        rn: seq<Block>, xn: Block)
    returns (rc: seq<Block>, xEnc: Block, xDec: Block)
    requires |rn| == BlockCount(|text|) + 2
    ensures |rc| == |rn|
    ensures HonestAes(e, NotaryAesCalls(kn, nonce, BlockCount(|text|)), rn, ClientAesCalls(kc, BlockCount(|text|)), rc)
    ensures HonestChain(NotaryEncryptChain(aad, |text|, rn), xn, ClientEncryptChain(|aad|, text, rc), xEnc)
    ensures HonestChain(NotaryDecryptChain(|aad|, |text|, rn[0]), xn, ClientDecryptChain(aad, text, rc[0]), xDec)
  {
    rc := HonestAesExists(e, kn, kc, nonce, BlockCount(|text|), rn);
    xEnc := HonestChainExists(NotaryEncryptChain(aad, |text|, rn), xn, ClientEncryptChain(|aad|, text, rc));
    xDec := HonestChainExists(NotaryDecryptChain(|aad|, |text|, rn[0]), xn, ClientDecryptChain(aad, text, rc[0]));
  }
}
