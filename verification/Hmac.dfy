/** HMAC over an arbitrary compression function, alone and between two parties that hold
    XOR shares of the key. */
module Hmac {
  import opened Bytes

  type Digest = s: seq<Byte> | |s| == 32 witness ZeroBytes(32)
  type Chunk = s: seq<Byte> | |s| == 64 witness ZeroBytes(64)
  type Compress = (Digest, Chunk) -> Digest

  // ---------------------------------------------------------------- the reference

  function Repeat(b: Byte, n: nat): (r: seq<Byte>)
    ensures |r| == n
    ensures forall i :: 0 <= i < n ==> r[i] == b
  {
    seq(n, i => b)
  }

  /** The padding of section 5.1.1 of FIPS 180-4. */
  function PadMessage(msg: seq<Byte>): (r: seq<Byte>)
    ensures |r| % 64 == 0
  {
    msg + [0x80] + ZeroBytes(PadLength(|msg|)) + BigEndian(8, 8 * |msg|)
  }

  /** How many zero bytes make the message, the marker and the length whole blocks. */
  function PadLength(n: nat): (z: nat)
    ensures z < 64 && (n + 1 + z + 8) % 64 == 0
  {
    (55 - n % 64) % 64
  }

  function HashBlocks(c: Compress, h: Digest, s: seq<Byte>): Digest
    requires |s| % 64 == 0
    decreases |s|
  {
    if s == [] then h else HashBlocks(c, c(h, s[..64]), s[64..])
  }

  const IV_ROW_0: seq<Byte> := [
    0x6a, 0x09, 0xe6, 0x67, 0xbb, 0x67, 0xae, 0x85, 0x3c, 0x6e, 0xf3, 0x72, 0xa5, 0x4f, 0xf5, 0x3a
  ]
  const IV_ROW_1: seq<Byte> := [
    0x51, 0x0e, 0x52, 0x7f, 0x9b, 0x05, 0x68, 0x8c, 0x1f, 0x83, 0xd9, 0xab, 0x5b, 0xe0, 0xcd, 0x19
  ]

  /** The initial chaining value of section 5.3.3 of FIPS 180-4. */
  function InitialIv(): Digest {
    IV_ROW_0 + IV_ROW_1
  }

  /** The hash function of section 6.2 of FIPS 180-4 over the compression function `c`. */
  function Sha(c: Compress, msg: seq<Byte>): Digest {
    HashBlocks(c, InitialIv(), PadMessage(msg))
  }

  const IPAD: Byte := 0x36
  const OPAD: Byte := 0x5c

  /** Section 2 of RFC 2104, for a 32-byte key. */
  function HmacSha(c: Compress, key: Digest, msg: seq<Byte>): Digest {
    var k0 := key + ZeroBytes(32);
    Sha(c, XorBytes(k0, Repeat(OPAD, 64)) + Sha(c, XorBytes(k0, Repeat(IPAD, 64)) + msg))
  }

  // ---------------------------------------------------------------- the parties' blocks

  /** The last block of a message whose first block is full: `m`, then its padding. */
  function LastBlock(m: seq<Byte>): Chunk
    requires |m| <= 55
  {
    m + [0x80] + ZeroBytes(55 - |m|) + BigEndian(8, 8 * (64 + |m|))
  }

  function NotaryKeyBlock(key: Digest, pad: Byte): Chunk {
    XorBytes(key, Repeat(pad, 32)) + Repeat(pad, 32)
  }

  function ClientKeyBlock(key: Digest): Chunk {
    key + ZeroBytes(32)
  }

  function NotaryInnerPadding(msgLen: nat): Chunk
    requires msgLen <= 55
  {
    LastBlock(ZeroBytes(msgLen))
  }

  function ClientInnerMsg(msg: seq<Byte>): Chunk
    requires |msg| <= 55
  {
    msg + ZeroBytes(64 - |msg|)
  }

  function OuterSuffix(): (r: seq<Byte>)
    ensures |r| == 32
  {
    [0x80] + ZeroBytes(23) + BigEndian(8, 768)
  }

  // ---------------------------------------------------------------- joint compressions

  /** One party's arguments to a joint compression. */
  datatype Call = Call(iv: Digest, block: Chunk)

  /** The calls of one HMAC. */
  type FourCalls = cs: seq<Call> | |cs| == 4 witness seq(4, _ => Call(ZeroBytes(32), ZeroBytes(64)))

  /** Every joint compression gave the parties XOR shares of the compression of the sums of
      their arguments. */
  ghost predicate Honest(c: Compress, cn: seq<Call>, rn: seq<Digest>, cc: seq<Call>, rc: seq<Digest>) {
    && |cn| == |rn| == |cc| == |rc|
    && forall i :: 0 <= i < |cn| ==>
         XorBytes(rn[i], rc[i]) == c(XorBytes(cn[i].iv, cc[i].iv), XorBytes(cn[i].block, cc[i].block))
  }

  lemma HonestPart(c: Compress, cn: seq<Call>, rn: seq<Digest>, cc: seq<Call>, rc: seq<Digest>, lo: nat, hi: nat)
    requires Honest(c, cn, rn, cc, rc) && lo <= hi <= |cn|
    ensures Honest(c, cn[lo..hi], rn[lo..hi], cc[lo..hi], rc[lo..hi])
  {}

  /** The notary's four calls, by what it got back from the earlier ones; `last` is its
      part of the inner message's last block. */
  function NotaryHmacCalls(key: Digest, last: Chunk, r: seq<Digest>): FourCalls
    requires |r| == 4
  {
    [Call(InitialIv(), NotaryKeyBlock(key, IPAD)), Call(r[0], last),
     Call(InitialIv(), NotaryKeyBlock(key, OPAD)), Call(r[2], r[1] + OuterSuffix())]
  }

  function ClientHmacCalls(key: Digest, last: Chunk, r: seq<Digest>): FourCalls
    requires |r| == 4
  {
    [Call(ZeroBytes(32), ClientKeyBlock(key)), Call(r[0], last),
     Call(ZeroBytes(32), ClientKeyBlock(key)), Call(r[2], r[1] + ZeroBytes(32))]
  }

  // ---------------------------------------------------------------- correctness

  /** Two blocks: a full one, then the rest with its padding. */
  lemma ShaTwoBlocks(c: Compress, a: Chunk, m: seq<Byte>)
    requires |m| <= 55
    ensures Sha(c, a + m) == c(c(InitialIv(), a), LastBlock(m))
  {
    var p := PadMessage(a + m);
    assert PadLength(|a + m|) == 55 - |m|;
    assert p == a + LastBlock(m);
    assert p[..64] == a && p[64..] == LastBlock(m);
    var h := c(InitialIv(), a);
    assert LastBlock(m)[..64] == LastBlock(m) && LastBlock(m)[64..] == [];
    assert HashBlocks(c, h, LastBlock(m)) == c(h, LastBlock(m));
  }

  lemma KeyBlocks(kn: Digest, kc: Digest, pad: Byte)
    ensures XorBytes(NotaryKeyBlock(kn, pad), ClientKeyBlock(kc))
            == XorBytes(XorBytes(kn, kc) + ZeroBytes(32), Repeat(pad, 64))
  {
    var p := Repeat(pad, 32);
    XorBytesConcat(XorBytes(kn, p), kc, p, ZeroBytes(32));
    assert Repeat(pad, 64) == p + p;
    XorBytesConcat(XorBytes(kn, kc), p, ZeroBytes(32), p);
    XorBytesZero(p);
    XorBytesComm(kc, p);
    XorBytesAssoc(kn, kc, p);
    XorBytesAssoc(kn, p, kc);
  }

  /** The notary's padding and the client's message rebuild the padded block. */
  lemma InnerBlock(msg: seq<Byte>)
    requires |msg| <= 55
    ensures XorBytes(NotaryInnerPadding(|msg|), ClientInnerMsg(msg)) == LastBlock(msg)
  {
    var tail := [0x80] + ZeroBytes(55 - |msg|) + BigEndian(8, 8 * (64 + |msg|));
    assert NotaryInnerPadding(|msg|) == ZeroBytes(|msg|) + tail;
    assert LastBlock(msg) == msg + tail;
    XorBytesConcat(ZeroBytes(|msg|), msg, tail, ZeroBytes(64 - |msg|));
    XorBytesZero(msg);
    XorBytesZero(tail);
  }

  lemma OuterBlock(hn: Digest, hc: Digest)
    ensures XorBytes(hn + OuterSuffix(), hc + ZeroBytes(32)) == LastBlock(XorBytes(hn, hc))
  {
    XorBytesConcat(hn, hc, OuterSuffix(), ZeroBytes(32));
    XorBytesZero(OuterSuffix());
    assert LastBlock(XorBytes(hn, hc)) == XorBytes(hn, hc) + OuterSuffix();
  }

  /** Four honest joint compressions turn shares of the key, and parts of the padded inner
      message, into shares of the HMAC. */
  lemma HmacShares(c: Compress, kn: Digest, kc: Digest, ln: Chunk, lc: Chunk, msg: seq<Byte>, rn: seq<Digest>,
                   rc: seq<Digest>)
    requires |msg| <= 55 && XorBytes(ln, lc) == LastBlock(msg)
    requires |rn| == |rc| == 4
    requires Honest(c, NotaryHmacCalls(kn, ln, rn), rn, ClientHmacCalls(kc, lc, rc), rc)
    ensures XorBytes(rn[3], rc[3]) == HmacSha(c, XorBytes(kn, kc), msg)
  {
    var cn, cc := NotaryHmacCalls(kn, ln, rn), ClientHmacCalls(kc, lc, rc);
    var k0 := XorBytes(kn, kc) + ZeroBytes(32);
    var ki, ko := XorBytes(k0, Repeat(IPAD, 64)), XorBytes(k0, Repeat(OPAD, 64));
    XorBytesZero(InitialIv());
    KeyBlocks(kn, kc, IPAD);
    KeyBlocks(kn, kc, OPAD);
    assert XorBytes(rn[0], rc[0]) == c(InitialIv(), ki);
    assert XorBytes(rn[1], rc[1]) == Sha(c, ki + msg) by { ShaTwoBlocks(c, ki, msg); }
    assert XorBytes(rn[2], rc[2]) == c(InitialIv(), ko);
    OuterBlock(rn[1], rc[1]);
    ShaTwoBlocks(c, ko, XorBytes(rn[1], rc[1]));
  }

  /** The client provides the message, the notary its length. */
  lemma HmacMessageShares(c: Compress, kn: Digest, kc: Digest, msg: seq<Byte>, rn: seq<Digest>, rc: seq<Digest>)
    requires |msg| <= 55 && |rn| == |rc| == 4
    requires Honest(c, NotaryHmacCalls(kn, NotaryInnerPadding(|msg|), rn), rn,
                    ClientHmacCalls(kc, ClientInnerMsg(msg), rc), rc)
    ensures XorBytes(rn[3], rc[3]) == HmacSha(c, XorBytes(kn, kc), msg)
  {
    InnerBlock(msg);
    HmacShares(c, kn, kc, NotaryInnerPadding(|msg|), ClientInnerMsg(msg), msg, rn, rc);
  }

  /** The 32-byte message itself is XOR-shared. */
  lemma HmacXorMessageShares(c: Compress, kn: Digest, kc: Digest, mn: Digest, mc: Digest, rn: seq<Digest>,
                             rc: seq<Digest>)
    requires |rn| == |rc| == 4
    requires Honest(c, NotaryHmacCalls(kn, mn + OuterSuffix(), rn), rn, ClientHmacCalls(kc, mc + ZeroBytes(32), rc), rc)
    ensures XorBytes(rn[3], rc[3]) == HmacSha(c, XorBytes(kn, kc), XorBytes(mn, mc))
  {
    OuterBlock(mn, mc);
    HmacShares(c, kn, kc, mn + OuterSuffix(), mc + ZeroBytes(32), XorBytes(mn, mc), rn, rc);
  }

  // ---------------------------------------------------------------- runs of a list of calls

  /** A party's calls, from all its replies. */
  type CallList = seq<Digest> -> seq<Call>

  /** There are `n` calls, and each only uses the replies before it. */
  ghost predicate Causal(calls: CallList, n: nat) {
    && (forall r: seq<Digest> | |r| == n :: |calls(r)| == n)
    && forall r: seq<Digest>, r': seq<Digest>, i: nat | |r| == |r'| == n && i < n && r[..i] == r'[..i] ::
         calls(r)[i] == calls(r')[i]
  }

  function ClientHmacList(key: Digest, last: Chunk): CallList {
    (r: seq<Digest>) => if |r| == 4 then ClientHmacCalls(key, last, r) else []
  }

  lemma HmacListCausal(key: Digest, last: Chunk)
    ensures Causal(ClientHmacList(key, last), 4)
  {
    forall r: seq<Digest>, r': seq<Digest>, i: nat | |r| == |r'| == 4 && i < 4 && r[..i] == r'[..i]
      ensures ClientHmacList(key, last)(r)[i] == ClientHmacList(key, last)(r')[i]
    {
      HmacCallsCausal(key, key, last, r, r', i);
    }
  }

  /** Call `i` of an HMAC is made of the key and the replies before it. */
  lemma HmacCallsCausal(key: Digest, key': Digest, last: Chunk, r: seq<Digest>, r': seq<Digest>, i: nat)
    requires |r| == |r'| == 4 && i < 4 && r[..i] == r'[..i] && key == key'
    ensures ClientHmacCalls(key, last, r)[i] == ClientHmacCalls(key', last, r')[i]
  {
    forall j | 0 <= j < i ensures r[j] == r'[j] {
      assert r[j] == r[..i][j] && r'[j] == r'[..i][j];
    }
  }

  /** The client's reply to a joint compression whose notary keeps the mask `rn`. */
  function ClientReply(c: Compress, cn: Call, cc: Call, rn: Digest): Digest {
    XorBytes(c(XorBytes(cn.iv, cc.iv), XorBytes(cn.block, cc.block)), rn)
  }

  /** The client's first `k` replies to honest calls, for given masks of the notary; zeros follow. */
  function Answers(c: Compress, cn: seq<Call>, calls: CallList, rn: seq<Digest>, k: nat): (r: seq<Digest>)
    requires k <= |cn| == |rn|
    ensures |r| == |cn|
  {
    if k == 0 then seq<Digest>(|cn|, i => ZeroBytes(32))
    else
      var r := Answers(c, cn, calls, rn, k - 1);
      if |calls(r)| == |cn| then r[k - 1 := ClientReply(c, cn[k - 1], calls(r)[k - 1], rn[k - 1])] else r
  }

  lemma {:induction false} AnswersKept(c: Compress, cn: seq<Call>, calls: CallList, rn: seq<Digest>, i: nat, k: nat)
    requires i <= k <= |cn| == |rn|
    ensures Answers(c, cn, calls, rn, k)[..i] == Answers(c, cn, calls, rn, i)[..i]
    decreases k
  {
    if i < k {
      AnswersKept(c, cn, calls, rn, i, k - 1);
      assert Answers(c, cn, calls, rn, k)[..i] == Answers(c, cn, calls, rn, k - 1)[..i];
    }
  }

  /** Reply `i` is the one made in step `i`; later steps leave it alone. */
  lemma AnswerStays(c: Compress, cn: seq<Call>, calls: CallList, rn: seq<Digest>, i: nat, now: seq<Digest>,
                    rc: seq<Digest>)
    requires i < |cn| == |rn| && |calls(now)| == |cn|
    requires now == Answers(c, cn, calls, rn, i) && rc == Answers(c, cn, calls, rn, |cn|)
    ensures now[..i] == rc[..i] && rc[i] == ClientReply(c, cn[i], calls(now)[i], rn[i])
  {
    var next := Answers(c, cn, calls, rn, i + 1);
    AnswersKept(c, cn, calls, rn, i, |cn|);
    AnswersKept(c, cn, calls, rn, i + 1, |cn|);
    assert rc[i] == rc[..i + 1][i] == next[..i + 1][i] == next[i];
  }

  lemma AnswerAt(c: Compress, cn: seq<Call>, calls: CallList, rn: seq<Digest>, i: nat, rc: seq<Digest>)
    requires i < |cn| == |rn| && Causal(calls, |cn|) && rc == Answers(c, cn, calls, rn, |cn|)
    ensures |calls(rc)| == |cn|
    ensures XorBytes(rn[i], rc[i])
         == c(XorBytes(cn[i].iv, calls(rc)[i].iv), XorBytes(cn[i].block, calls(rc)[i].block))
  {
    var now := Answers(c, cn, calls, rn, i);
    AnswerStays(c, cn, calls, rn, i, now, rc);
    var cc := calls(rc)[i];
    assert calls(now)[i] == cc;
    XorBytesCancel(c(XorBytes(cn[i].iv, cc.iv), XorBytes(cn[i].block, cc.block)), rn[i]);
  }

  /** Whatever masks the notary keeps, there is an honest run of a list of calls. */
  lemma HonestListExists(c: Compress, cn: seq<Call>, calls: CallList, rn: seq<Digest>) returns (rc: seq<Digest>)
    requires |cn| == |rn| && Causal(calls, |cn|)
    ensures |rc| == |cn| && Honest(c, cn, rn, calls(rc), rc)
  {
    rc := Answers(c, cn, calls, rn, |cn|);
    forall i | 0 <= i < |cn|
      ensures XorBytes(rn[i], rc[i])
           == c(XorBytes(cn[i].iv, calls(rc)[i].iv), XorBytes(cn[i].block, calls(rc)[i].block))
    {
      AnswerAt(c, cn, calls, rn, i, rc);
    }
  }

  /** For every choice of the notary's masks there is an honest run of the four compressions. */
  lemma HonestHmacExists(c: Compress, kn: Digest, kc: Digest, ln: Chunk, lc: Chunk, rn: seq<Digest>)
    returns (rc: seq<Digest>)
    requires |rn| == 4
    ensures |rc| == 4 && Honest(c, NotaryHmacCalls(kn, ln, rn), rn, ClientHmacCalls(kc, lc, rc), rc)
  {
    HmacListCausal(kc, lc);
    rc := HonestListExists(c, NotaryHmacCalls(kn, ln, rn), ClientHmacList(kc, lc), rn);
  }
}
