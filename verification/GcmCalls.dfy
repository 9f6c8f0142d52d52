/** The joint calls of the GCM layer as masked sessions: one cipher block, one GHASH chain. */
module GcmCalls {
  import opened Bytes
  import opened MaskedRun
  import opened Gcm
  import opened Programs
  import Bits
  import Ghash
  import GhashCircuit
  import GhashShares

  // ---------------------------------------------------------------- a cipher block

  /** `inner` computes the cipher `e`: block bits, then key bits. */
  ghost predicate ComputesCipher(inner: BinaryCircuit, e: Cipher) {
    && ValidCircuit(inner, 256)
    && |inner.outs| == 128
    && forall k: Block, b: Block :: Output(inner, Unpack(b + k)) == Unpack(e(k, b))
  }

  function AesBits(c: AesCall): (r: seq<bool>)
    ensures |r| == 256
  {
    Unpack(c.block + c.key)
  }

  ghost predicate AesSession(x: Session, e: Cipher) {
    ComputesCipher(x.inner, e) && x.inputs == 256 && |x.mask| == 16 && HonestSession(x)
  }

  lemma CipherOutput(inner: BinaryCircuit, e: Cipher, cn: AesCall, cc: AesCall)
    requires ComputesCipher(inner, e)
    ensures Pack(Output(inner, Bits.Xor(AesBits(cn), AesBits(cc))))
         == e(XorBytes(cn.key, cc.key), XorBytes(cn.block, cc.block))
  {
    var k, b := XorBytes(cn.key, cc.key), XorBytes(cn.block, cc.block);
    UnpackXor(cn.block + cn.key, cc.block + cc.key);
    XorBytesConcat(cn.block, cc.block, cn.key, cc.key);
    assert Output(inner, Unpack(b + k)) == Unpack(e(k, b));
    PackUnpack(e(k, b));
  }

  /** A session on a circuit that computes the cipher: its two ends are shares of the cipher of
      the summed block under the summed key. */
  lemma AesReplyShares(x: Session, e: Cipher, cn: AesCall, cc: AesCall)
    requires AesSession(x, e)
    ensures XorBytes(x.mask, Reply(x, AesBits(cn), AesBits(cc)))
         == e(XorBytes(cn.key, cc.key), XorBytes(cn.block, cc.block))
  {
    CipherOutput(x.inner, e, cn, cc);
    ReplyShares(x, AesBits(cn), AesBits(cc));
  }

  // ---------------------------------------------------------------- a GHASH chain

  function ChainBits(c: ChainCall): (r: seq<bool>)
    ensures |r| == 128 * (|c.blocks| + 1)
  {
    GhashShares.Join([Unpack(c.h)] + UnpackAll(c.blocks))
  }

  /** An honest session on the chain circuit for `n` blocks. */
  ghost predicate ChainSession(x: Session, n: nat) {
    && |x.inner.outs| == 128 && GhashCircuit.IsChain(x.inner.gates, n, x.inner.outs)
    && x.inputs == 128 * (n + 1) && |x.mask| == 16 && HonestSession(x)
  }

  lemma UnpackAllXor(a: seq<Block>, b: seq<Block>)
    requires |a| == |b|
    ensures UnpackAll(XorBlocks(a, b)) == Ghash.XorLists(UnpackAll(a), UnpackAll(b))
  {
    forall i | 0 <= i < |a|
      ensures UnpackAll(XorBlocks(a, b))[i] == Ghash.XorLists(UnpackAll(a), UnpackAll(b))[i]
    {
      UnpackXor(a[i], b[i]);
    }
  }

  /** Its two ends are shares of GHASH of the summed blocks under the summed key. */
  lemma ChainReplyShares(x: Session, cn: ChainCall, cc: ChainCall, reply: Block)
    requires |cn.blocks| == |cc.blocks| && ChainSession(x, |cn.blocks|)
    requires reply == Reply(x, ChainBits(cn), ChainBits(cc))
    ensures HonestChain(cn, x.mask, cc, reply)
  {
    GhashShares.ChainOutput(x.inner.gates, x.inner.outs, Unpack(cn.h), Unpack(cc.h), UnpackAll(cn.blocks),
                            UnpackAll(cc.blocks));
    UnpackXor(cn.h, cc.h);
    UnpackAllXor(cn.blocks, cc.blocks);
    assert BinaryCircuit(x.inner.gates, x.inner.outs) == x.inner;
    ReplyShares(x, ChainBits(cn), ChainBits(cc));
  }
}
