/** Split-key GCM on one connection. Each side is its list of operations in order, as its
    functions perform them; every joint call is a masked session of the engine, whose messages
    travel on the same connection as the blocks between the calls. */
module GcmOrder {
  import opened Bytes
  import opened Network
  import opened Ops
  import opened Programs
  import opened Gcm
  import opened GcmCalls
  import Bits
  import GcmParties
  import GhashCircuit
  import MaskedRun

  // ---------------------------------------------------------------- a GCM operation

  /** One operation: key shares, nonce, associated data, the plaintext or ciphertext, and the
      sessions that its joint calls run on. */
  datatype Job = Job(xs: seq<Session>, kn: Block, kc: Block, nonce: Nonce, aad: seq<Byte>, text: seq<Byte>) {
    function Blocks(): nat {
      BlockCount(|text|)
    }
  }

  /** A session for each cipher block, and one for the chain; all honest. */
  ghost predicate HonestJob(j: Job, e: Cipher) {
    && |j.xs| == j.Blocks() + 3
    && (forall i :: 0 <= i < j.Blocks() + 2 ==> AesSession(j.xs[i], e))
    && ChainSession(j.xs[j.Blocks() + 2], BlockCount(|j.aad|) + j.Blocks() + 1)
  }

  /** For every circuit of the cipher and the chain, and whatever masks the notary draws, there
      are such sessions. */
  lemma HonestJobExists(e: Cipher, aes: MaskedRun.BinaryCircuit, chain: MaskedRun.BinaryCircuit, j: Job,
                        masks: seq<Block>)
    returns (xs: seq<Session>)
    requires ComputesCipher(aes, e) && |masks| == j.Blocks() + 3
    requires |chain.outs| == 128
    requires GhashCircuit.IsChain(chain.gates, BlockCount(|j.aad|) + j.Blocks() + 1, chain.outs)
    ensures HonestJob(j.(xs := xs), e) && forall i :: 0 <= i < |masks| ==> xs[i].mask == masks[i]
  {
    hide HonestJob, AesSession, ChainSession, ComputesCipher, GhashCircuit.IsChain;
    var n, m := j.Blocks() + 2, BlockCount(|j.aad|) + j.Blocks() + 1;
    var blocks := CipherSessions(e, aes, masks[..n]);
    var x := ChainSessionExists(chain, m, masks[n]);
    xs := blocks + [x];
    JobOf(j.(xs := xs), e, blocks, x);
  }

  lemma JobOf(j: Job, e: Cipher, blocks: seq<Session>, x: Session)
    requires j.xs == blocks + [x] && |blocks| == j.Blocks() + 2
    requires forall i :: 0 <= i < |blocks| ==> AesSession(blocks[i], e)
    requires ChainSession(x, BlockCount(|j.aad|) + j.Blocks() + 1)
    ensures HonestJob(j, e)
  {
    hide AesSession, ChainSession;
    forall i | 0 <= i < |blocks| ensures AesSession(j.xs[i], e) {
      assert j.xs[i] == blocks[i];
    }
    assert j.xs[|blocks|] == x;
  }

  lemma CipherSessions(e: Cipher, aes: MaskedRun.BinaryCircuit, masks: seq<Block>) returns (xs: seq<Session>)
    requires ComputesCipher(aes, e)
    ensures |xs| == |masks|
    ensures forall i :: 0 <= i < |masks| ==> AesSession(xs[i], e) && xs[i].mask == masks[i]
  {
    hide HonestSession, MaskedRun.ValidCircuit;
    xs := SessionsExist(aes, 256, masks);
  }

  lemma ChainSessionExists(chain: MaskedRun.BinaryCircuit, n: nat, mask: Block) returns (x: Session)
    requires |chain.outs| == 128 && GhashCircuit.IsChain(chain.gates, n, chain.outs)
    ensures ChainSession(x, n) && x.mask == mask
  {
    hide HonestSession;
    x := SessionExists(chain, 128 * (n + 1), mask);
  }

  function AsBlock(s: seq<Byte>): Block {
    if |s| == 16 then s else ZeroBytes(16)
  }

  /** The first `n` of some byte strings, as blocks. */
  function AsBlocks(s: seq<seq<Byte>>, n: nat): (r: seq<Block>)
    ensures |r| == n
  {
    seq<Block>(n, i requires 0 <= i < n => if i < |s| then AsBlock(s[i]) else ZeroBytes(16))
  }

  /** The first `n` labels read, as blocks. */
  function ReadBlocks(got: seq<Label>, n: nat): (r: seq<Block>)
    ensures |r| == n
  {
    seq<Block>(n, i requires 0 <= i < n => if i < |got| then Pack(got[i]) else ZeroBytes(16))
  }

  function BlockLabel(b: Block): Label {
    Unpack(b)
  }

  /** The notary's shares of the cipher blocks and of the chain: its masks. */
  function CipherMasks(j: Job): (r: seq<Block>)
    ensures |r| == j.Blocks() + 2
  {
    seq<Block>(j.Blocks() + 2, i requires 0 <= i < j.Blocks() + 2 => if i < |j.xs| then AsBlock(j.xs[i].mask)
               else ZeroBytes(16))
  }

  function ChainMask(j: Job): Block {
    if j.Blocks() + 2 < |j.xs| then AsBlock(j.xs[j.Blocks() + 2].mask) else ZeroBytes(16)
  }

  /** A party's calls: the cipher blocks of the list, then the chain. */
  function CallOf(aes: seq<AesCall>, chain: ChainCall, i: nat): (r: seq<bool>)
    ensures |r| == if i < |aes| then 256 else 128 * (|chain.blocks| + 1)
  {
    if i < |aes| then AesBits(aes[i]) else ChainBits(chain)
  }

  function Nth(blocks: seq<Block>, i: nat): Label {
    BlockLabel(if i < |blocks| then blocks[i] else ZeroBytes(16))
  }

  // ---------------------------------------------------------------- encryption

  function NotaryEncryptCall(j: Job, i: nat): seq<bool> {
    CallOf(NotaryAesCalls(j.kn, j.nonce, j.Blocks()), NotaryEncryptChain(j.aad, |j.text|, CipherMasks(j)), i)
  }

  function NotaryEncrypter(j: Job): Notary {
    Notary((i: nat) => NotaryEncryptCall(j, i),
           (i: nat, got: seq<Label>) => Nth(NotaryEncryptSends(CipherMasks(j), ChainMask(j)), i))
  }

  function ClientEncryptCall(j: Job, replies: seq<seq<Byte>>): seq<bool> {
    CallOf(ClientAesCalls(j.kc, j.Blocks()),
           ClientEncryptChain(|j.aad|, j.text, AsBlocks(replies, j.Blocks() + 2)), |replies|)
  }

  function ClientEncryptResult(j: Job, replies: seq<seq<Byte>>, got: seq<Label>): (seq<Byte>, Block) {
    ClientEncrypted(j.text, AsBlocks(replies, j.Blocks() + 2), LastReply(j, replies), ReadBlocks(got, j.Blocks() + 1))
  }

  function ClientEncrypter(j: Job): Client<(seq<Byte>, Block)> {
    Client((replies: seq<seq<Byte>>) => ClientEncryptCall(j, replies), (i: nat) => Bits.Zeros(128),
           (replies: seq<seq<Byte>>, got: seq<Label>) => ClientEncryptResult(j, replies, got))
  }

  function LastReply(j: Job, replies: seq<seq<Byte>>): Block {
    if j.Blocks() + 2 < |replies| then AsBlock(replies[j.Blocks() + 2]) else ZeroBytes(16)
  }

  function EncryptProgram(j: Job): Program<(seq<Byte>, Block)> {
    Program(j.xs, NotaryEncrypter(j), ClientEncrypter(j))
  }

  /** Encryption as the two functions perform it. */
  function EncryptStart(j: Job): Net<seq<Label>, (seq<Byte>, Block)> {
    StartOf(EncryptProgram(j), GcmParties.NotaryEncryptOps(j.Blocks()), GcmParties.ClientEncryptOps(j.Blocks()))
  }

  /** The client's operations with each read after the joint call of its block. */
  function ClientEncryptReordered(n: nat): seq<Op> {
    [Joint, Joint] + Rounds(n, [Joint, Get]) + [Joint, Get]
  }

  function EncryptReordered(j: Job): Net<seq<Label>, (seq<Byte>, Block)> {
    StartOf(EncryptProgram(j), GcmParties.NotaryEncryptOps(j.Blocks()), ClientEncryptReordered(j.Blocks()))
  }

  // ---------------------------------------------------------------- decryption

  /** What the notary sends: each block it read plus its key stream share, then its tag share. */
  function DecryptAnswer(j: Job, i: nat, got: seq<Label>): Label {
    var rn := CipherMasks(j);
    if i < j.Blocks() then BlockLabel(XorBytes(if i < |got| then Pack(got[i]) else ZeroBytes(16), rn[i + 2]))
    else BlockLabel(XorBytes(ChainMask(j), rn[1]))
  }

  function NotaryDecryptCall(j: Job, i: nat): seq<bool> {
    CallOf(NotaryAesCalls(j.kn, j.nonce, j.Blocks()), NotaryDecryptChain(|j.aad|, |j.text|, CipherMasks(j)[0]), i)
  }

  function NotaryDecrypter(j: Job): Notary {
    Notary((i: nat) => NotaryDecryptCall(j, i), (i: nat, got: seq<Label>) => DecryptAnswer(j, i, got))
  }

  function ClientDecryptCall(j: Job, replies: seq<seq<Byte>>): seq<bool> {
    CallOf(ClientAesCalls(j.kc, j.Blocks()), ClientDecryptChain(j.aad, j.text, AsBlocks(replies, j.Blocks() + 2)[0]),
           |replies|)
  }

  function ClientDecryptResult(j: Job, received: Block, replies: seq<seq<Byte>>, got: seq<Label>): Decrypted {
    ClientDecrypted(j.text, received, AsBlocks(replies, j.Blocks() + 2), LastReply(j, replies),
                    ReadBlocks(got, j.Blocks() + 1))
  }

  function ClientDecrypter(j: Job, received: Block): Client<Decrypted> {
    Client((replies: seq<seq<Byte>>) => ClientDecryptCall(j, replies), (i: nat) => Nth(Pads(j.text), i),
           (replies: seq<seq<Byte>>, got: seq<Label>) => ClientDecryptResult(j, received, replies, got))
  }

  function DecryptProgram(j: Job, received: Block): Program<Decrypted> {
    Program(j.xs, NotaryDecrypter(j), ClientDecrypter(j, received))
  }

  function DecryptStart(j: Job, received: Block): Net<seq<Label>, Decrypted> {
    StartOf(DecryptProgram(j, received), GcmParties.NotaryDecryptOps(j.Blocks()),
            GcmParties.ClientDecryptOps(j.Blocks()))
  }

  /** The client's operations with each block sent after the joint call of its block. */
  function ClientDecryptReordered(n: nat): seq<Op> {
    [Joint, Joint] + Rounds(n, [Joint, Put, Get]) + [Joint, Get]
  }

  function DecryptReordered(j: Job, received: Block): Net<seq<Label>, Decrypted> {
    StartOf(DecryptProgram(j, received), GcmParties.NotaryDecryptOps(j.Blocks()), ClientDecryptReordered(j.Blocks()))
  }

  // ---------------------------------------------------------------- the joint calls are honest

  /** The sizes that the job's sessions expect. */
  lemma SessionSize(j: Job, e: Cipher, i: nat)
    requires HonestJob(j, e) && i < j.Blocks() + 3
    ensures HonestSession(j.xs[i])
    ensures j.xs[i].inputs == if i < j.Blocks() + 2 then 256 else 128 * (BlockCount(|j.aad|) + j.Blocks() + 2)
  {
    hide HonestSession, ComputesCipher, GhashCircuit.IsChain;
    if i < j.Blocks() + 2 {
      assert AesSession(j.xs[i], e);
    }
  }

  /** A list of cipher calls and a chain have them. */
  lemma CallSizes(j: Job, e: Cipher, aes: seq<AesCall>, chain: ChainCall, i: nat)
    requires HonestJob(j, e) && i < j.Blocks() + 3
    requires |aes| == j.Blocks() + 2 && |chain.blocks| == BlockCount(|j.aad|) + j.Blocks() + 1
    ensures |CallOf(aes, chain, i)| == j.xs[i].inputs && HonestSession(j.xs[i])
  {
    SessionSize(j, e, i);
  }

  lemma EncryptCallsAre(p: Program<(seq<Byte>, Block)>, j: Job, i: nat, r: seq<seq<Byte>>)
    requires p == EncryptProgram(j)
    ensures p.n.call(i) == NotaryEncryptCall(j, i) && p.c.call(r) == ClientEncryptCall(j, r) && p.sessions == j.xs
  {}

  lemma EncryptCallSizes(j: Job, e: Cipher, i: nat, r: seq<seq<Byte>>)
    requires HonestJob(j, e) && |r| == i < j.Blocks() + 3
    ensures |NotaryEncryptCall(j, i)| == |ClientEncryptCall(j, r)| == j.xs[i].inputs && HonestSession(j.xs[i])
  {
    CallSizes(j, e, NotaryAesCalls(j.kn, j.nonce, j.Blocks()), NotaryEncryptChain(j.aad, |j.text|, CipherMasks(j)), i);
    CallSizes(j, e, ClientAesCalls(j.kc, j.Blocks()),
              ClientEncryptChain(|j.aad|, j.text, AsBlocks(r, j.Blocks() + 2)), i);
  }

  lemma EncryptCallFits(p: Program<(seq<Byte>, Block)>, j: Job, e: Cipher, i: nat)
    requires p == EncryptProgram(j) && HonestJob(j, e) && i < j.Blocks() + 3
    ensures CallFits(p, i)
  {
    EncryptCallsAre(p, j, i, Replies(p, i));
    EncryptCallSizes(j, e, i, Replies(p, i));
  }

  lemma DecryptCallsAre(p: Program<Decrypted>, j: Job, received: Block, i: nat, r: seq<seq<Byte>>)
    requires p == DecryptProgram(j, received)
    ensures p.n.call(i) == NotaryDecryptCall(j, i) && p.c.call(r) == ClientDecryptCall(j, r) && p.sessions == j.xs
  {}

  lemma DecryptCallSizes(j: Job, e: Cipher, i: nat, r: seq<seq<Byte>>)
    requires HonestJob(j, e) && |r| == i < j.Blocks() + 3
    ensures |NotaryDecryptCall(j, i)| == |ClientDecryptCall(j, r)| == j.xs[i].inputs && HonestSession(j.xs[i])
  {
    CallSizes(j, e, NotaryAesCalls(j.kn, j.nonce, j.Blocks()),
              NotaryDecryptChain(|j.aad|, |j.text|, CipherMasks(j)[0]), i);
    CallSizes(j, e, ClientAesCalls(j.kc, j.Blocks()),
              ClientDecryptChain(j.aad, j.text, AsBlocks(r, j.Blocks() + 2)[0]), i);
  }

  lemma DecryptCallFits(p: Program<Decrypted>, j: Job, received: Block, e: Cipher, i: nat)
    requires p == DecryptProgram(j, received) && HonestJob(j, e) && i < j.Blocks() + 3
    ensures CallFits(p, i)
  {
    DecryptCallsAre(p, j, received, i, Replies(p, i));
    DecryptCallSizes(j, e, i, Replies(p, i));
  }

  /** What the client holds after all joint calls: its shares of the cipher blocks. */
  function CipherReplies<R>(p: Program<R>, j: Job): (r: seq<Block>)
    requires j.Blocks() + 3 <= |p.sessions|
    ensures |r| == j.Blocks() + 2
  {
    AsBlocks(Replies(p, j.Blocks() + 3), j.Blocks() + 2)
  }

  /** And its share of the chain. */
  function ChainReply<R>(p: Program<R>, j: Job): Block
    requires j.Blocks() + 3 <= |p.sessions|
  {
    LastReply(j, Replies(p, j.Blocks() + 3))
  }

  lemma ReplyAsBlock<R>(p: Program<R>, j: Job, i: nat, r: seq<Byte>)
    requires p.sessions == j.xs && i < j.Blocks() + 2 && |j.xs| == j.Blocks() + 3
    requires r == Reply(j.xs[i], p.n.call(i), p.c.call(Replies(p, i))) && |j.xs[i].mask| == 16
    ensures CipherReplies(p, j)[i] == r && CipherMasks(j)[i] == j.xs[i].mask
  {
    ReplyAt(p, i, j.Blocks() + 3);
  }

  /** Cipher call `i`, on honest sessions. */
  lemma CipherShare<R>(p: Program<R>, j: Job, e: Cipher, i: nat, cn: AesCall, cc: AesCall)
    requires HonestJob(j, e) && p.sessions == j.xs && i < j.Blocks() + 2
    requires p.n.call(i) == AesBits(cn) && p.c.call(Replies(p, i)) == AesBits(cc)
    ensures XorBytes(CipherMasks(j)[i], CipherReplies(p, j)[i])
            == e(XorBytes(cn.key, cc.key), XorBytes(cn.block, cc.block))
  {
    var x := j.xs[i];
    assert AesSession(x, e);
    ReplyAsBlock(p, j, i, Reply(x, AesBits(cn), AesBits(cc)));
    AesReplyShares(x, e, cn, cc);
  }

  /** The chain's arguments do not depend on the chain's own reply. */
  lemma RepliesBeforeChain<R>(p: Program<R>, j: Job)
    requires j.Blocks() + 3 <= |p.sessions|
    ensures AsBlocks(Replies(p, j.Blocks() + 2), j.Blocks() + 2) == CipherReplies(p, j)
  {
    var n := j.Blocks() + 2;
    RepliesPrefix(p, n, n + 1);
    forall i | 0 <= i < n ensures Replies(p, n)[i] == Replies(p, n + 1)[i] {
      assert Replies(p, n)[i] == Replies(p, n + 1)[..n][i];
    }
  }

  lemma ChainShare<R>(p: Program<R>, j: Job, e: Cipher, cn: ChainCall, cc: ChainCall)
    requires HonestJob(j, e) && p.sessions == j.xs
    requires |cn.blocks| == |cc.blocks| == BlockCount(|j.aad|) + j.Blocks() + 1
    requires p.n.call(j.Blocks() + 2) == ChainBits(cn) && p.c.call(Replies(p, j.Blocks() + 2)) == ChainBits(cc)
    ensures HonestChain(cn, ChainMask(j), cc, ChainReply(p, j))
  {
    hide HonestSession, ComputesCipher, GhashCircuit.IsChain, AesSession, HonestChain, ChainBits;
    var i := j.Blocks() + 2;
    ReplyAt(p, i, i + 1);
    ChainReplyShares(j.xs[i], cn, cc, ChainReply(p, j));
  }

  /** Cipher call `i` of the two programs is on these arguments. */
  ghost predicate Asks<R>(p: Program<R>, i: nat, cn: AesCall, cc: AesCall)
    requires i <= |p.sessions|
  {
    p.n.call(i) == AesBits(cn) && p.c.call(Replies(p, i)) == AesBits(cc)
  }

  lemma CipherShares<R>(p: Program<R>, j: Job, e: Cipher, cn: seq<AesCall>, cc: seq<AesCall>)
    requires HonestJob(j, e) && p.sessions == j.xs && |cn| == |cc| == j.Blocks() + 2
    requires forall i :: 0 <= i < |cn| ==> Asks(p, i, cn[i], cc[i])
    ensures HonestAes(e, cn, CipherMasks(j), cc, CipherReplies(p, j))
  {
    hide HonestSession, ComputesCipher, GhashCircuit.IsChain;
    var rn, rc := CipherMasks(j), CipherReplies(p, j);
    forall i | 0 <= i < |cn|
      ensures XorBytes(rn[i], rc[i]) == e(XorBytes(cn[i].key, cc[i].key), XorBytes(cn[i].block, cc[i].block))
    {
      assert Asks(p, i, cn[i], cc[i]);
      CipherShare(p, j, e, i, cn[i], cc[i]);
    }
  }

  /** The calls of an encryption, in the terms of the two programs. */
  lemma EncryptAsks(p: Program<(seq<Byte>, Block)>, j: Job, n: nat, i: nat, cn: seq<AesCall>, cc: seq<AesCall>)
    requires p == EncryptProgram(j) && n == j.Blocks() && i < n + 2 <= |j.xs|
    requires cn == NotaryAesCalls(j.kn, j.nonce, n) && cc == ClientAesCalls(j.kc, n)
    ensures Asks(p, i, cn[i], cc[i])
  {
    hide AesBits, NotaryAesCalls, ClientAesCalls, AsBlocks;
    EncryptCallsAre(p, j, i, Replies(p, i));
  }

  lemma EncryptAsksChain(p: Program<(seq<Byte>, Block)>, j: Job, n: nat, rc: seq<Block>, cn: ChainCall, cc: ChainCall)
    requires p == EncryptProgram(j) && n == j.Blocks() && n + 3 <= |j.xs| && rc == CipherReplies(p, j)
    requires cn == NotaryEncryptChain(j.aad, |j.text|, CipherMasks(j)) && cc == ClientEncryptChain(|j.aad|, j.text, rc)
    ensures p.n.call(n + 2) == ChainBits(cn) && p.c.call(Replies(p, n + 2)) == ChainBits(cc)
  {
    hide AesBits, ChainBits, NotaryAesCalls, ClientAesCalls, AsBlocks, NotaryEncryptChain, ClientEncryptChain;
    RepliesBeforeChain(p, j);
    EncryptCallsAre(p, j, n + 2, Replies(p, n + 2));
  }

  /** They were honest. */
  lemma EncryptHonest(p: Program<(seq<Byte>, Block)>, j: Job, e: Cipher, n: nat, rn: seq<Block>, rc: seq<Block>)
    requires p == EncryptProgram(j) && HonestJob(j, e) && n == j.Blocks()
    requires rn == CipherMasks(j) && rc == CipherReplies(p, j)
    ensures HonestAes(e, NotaryAesCalls(j.kn, j.nonce, n), rn, ClientAesCalls(j.kc, n), rc)
    ensures HonestChain(NotaryEncryptChain(j.aad, |j.text|, rn), ChainMask(j),
                        ClientEncryptChain(|j.aad|, j.text, rc), ChainReply(p, j))
  {
    hide HonestSession, ComputesCipher, GhashCircuit.IsChain, HonestAes, HonestChain, Asks, AsBlocks;
    hide NotaryAesCalls, ClientAesCalls, NotaryEncryptChain, ClientEncryptChain;
    var cn, cc := NotaryAesCalls(j.kn, j.nonce, n), ClientAesCalls(j.kc, n);
    forall i | 0 <= i < n + 2 ensures Asks(p, i, cn[i], cc[i]) {
      EncryptAsks(p, j, n, i, cn, cc);
    }
    CipherShares(p, j, e, cn, cc);
    var chainN, chainC := NotaryEncryptChain(j.aad, |j.text|, rn), ClientEncryptChain(|j.aad|, j.text, rc);
    EncryptAsksChain(p, j, n, rc, chainN, chainC);
    EncryptChainSize(j, rn, rc);
    ChainShare(p, j, e, chainN, chainC);
  }

  lemma EncryptChainSize(j: Job, rn: seq<Block>, rc: seq<Block>)
    requires |rn| == |rc| == j.Blocks() + 2
    ensures |NotaryEncryptChain(j.aad, |j.text|, rn).blocks|
         == |ClientEncryptChain(|j.aad|, j.text, rc).blocks| == BlockCount(|j.aad|) + j.Blocks() + 1
  {}

  /** The calls of a decryption, in the terms of the two programs. */
  lemma DecryptAsks(p: Program<Decrypted>, j: Job, received: Block, n: nat, i: nat, cn: seq<AesCall>, cc: seq<AesCall>)
    requires p == DecryptProgram(j, received) && n == j.Blocks() && i < n + 2 <= |j.xs|
    requires cn == NotaryAesCalls(j.kn, j.nonce, n) && cc == ClientAesCalls(j.kc, n)
    ensures Asks(p, i, cn[i], cc[i])
  {
    hide AesBits, NotaryAesCalls, ClientAesCalls, AsBlocks;
    DecryptCallsAre(p, j, received, i, Replies(p, i));
  }

  lemma DecryptAsksChain(p: Program<Decrypted>, j: Job, received: Block, n: nat, rc: seq<Block>, cn: ChainCall,
                         cc: ChainCall)
    requires p == DecryptProgram(j, received) && n == j.Blocks() && n + 3 <= |j.xs| && rc == CipherReplies(p, j)
    requires cn == NotaryDecryptChain(|j.aad|, |j.text|, CipherMasks(j)[0])
             && cc == ClientDecryptChain(j.aad, j.text, rc[0])
    ensures p.n.call(n + 2) == ChainBits(cn) && p.c.call(Replies(p, n + 2)) == ChainBits(cc)
  {
    hide AesBits, ChainBits, NotaryAesCalls, ClientAesCalls, AsBlocks, NotaryDecryptChain, ClientDecryptChain;
    RepliesBeforeChain(p, j);
    DecryptCallsAre(p, j, received, n + 2, Replies(p, n + 2));
  }

  /** They were honest. */
  lemma DecryptHonest(p: Program<Decrypted>, j: Job, received: Block, e: Cipher, n: nat, rn: seq<Block>, rc: seq<Block>)
    requires p == DecryptProgram(j, received) && HonestJob(j, e) && n == j.Blocks()
    requires rn == CipherMasks(j) && rc == CipherReplies(p, j)
    ensures HonestAes(e, NotaryAesCalls(j.kn, j.nonce, n), rn, ClientAesCalls(j.kc, n), rc)
    ensures HonestChain(NotaryDecryptChain(|j.aad|, |j.text|, rn[0]), ChainMask(j),
                        ClientDecryptChain(j.aad, j.text, rc[0]), ChainReply(p, j))
  {
    hide HonestSession, ComputesCipher, GhashCircuit.IsChain, HonestAes, HonestChain, Asks, AsBlocks;
    hide NotaryAesCalls, ClientAesCalls, NotaryDecryptChain, ClientDecryptChain;
    var cn, cc := NotaryAesCalls(j.kn, j.nonce, n), ClientAesCalls(j.kc, n);
    forall i | 0 <= i < n + 2 ensures Asks(p, i, cn[i], cc[i]) {
      DecryptAsks(p, j, received, n, i, cn, cc);
    }
    CipherShares(p, j, e, cn, cc);
    var chainN, chainC := NotaryDecryptChain(|j.aad|, |j.text|, rn[0]), ClientDecryptChain(j.aad, j.text, rc[0]);
    DecryptAsksChain(p, j, received, n, rc, chainN, chainC);
    DecryptChainSize(j, rn, rc);
    ChainShare(p, j, e, chainN, chainC);
  }

  lemma DecryptChainSize(j: Job, rn: seq<Block>, rc: seq<Block>)
    requires |rn| == |rc| == j.Blocks() + 2
    ensures |NotaryDecryptChain(|j.aad|, |j.text|, rn[0]).blocks|
         == |ClientDecryptChain(j.aad, j.text, rc[0]).blocks| == BlockCount(|j.aad|) + j.Blocks() + 1
  {}

  // ---------------------------------------------------------------- the blocks between the calls

  /** Blocks `from` to `from + n - 1` of the notary. */
  function NotaryPuts<R>(p: Program<R>, from: nat, n: nat, got: seq<Label>): (r: seq<Label>)
    ensures |r| == n && forall i :: 0 <= i < n ==> r[i] == p.n.put(from + i, got)
  {
    seq<Label>(n, i requires 0 <= i < n => p.n.put(from + i, got))
  }

  lemma PutRound<R>(p: Program<R>, more: seq<Op>, pos: Pos)
    ensures After(p, [Joint, Put] + more, pos)
         == After(p, more, Pos(pos.calls + 1, pos.toC + [p.n.put(|pos.toC|, pos.toN)], pos.toN))
  {
    var ops := [Joint, Put] + more;
    DropTwo(Joint, Put, more, ops);
    AfterFirst(p, ops, Joint, ops[1..], pos);
    AfterFirst(p, ops[1..], Put, more, Next(p, Joint, pos));
  }

  /** Rounds in which the notary only sends. */
  lemma {:induction false} PutRounds<R>(p: Program<R>, n: nat, pos: Pos)
    ensures After(p, Rounds(n, [Joint, Put]), pos)
         == Pos(pos.calls + n, pos.toC + NotaryPuts(p, |pos.toC|, n, pos.toN), pos.toN)
    decreases n
  {
    if n == 0 {
      assert pos.toC + NotaryPuts(p, |pos.toC|, 0, pos.toN) == pos.toC;
    } else {
      var b := p.n.put(|pos.toC|, pos.toN);
      var pos1 := Pos(pos.calls + 1, pos.toC + [b], pos.toN);
      PutRound(p, Rounds(n - 1, [Joint, Put]), pos);
      PutRounds(p, n - 1, pos1);
      assert NotaryPuts(p, |pos.toC|, n, pos.toN) == [b] + NotaryPuts(p, |pos1.toC|, n - 1, pos.toN);
      assert (pos.toC + [b]) + NotaryPuts(p, |pos1.toC|, n - 1, pos.toN)
          == pos.toC + NotaryPuts(p, |pos.toC|, n, pos.toN);
    }
  }

  /** Two calls, then the rounds, then the last call with a block. */
  lemma AfterAll<R>(p: Program<R>, rounds: seq<Op>, mid: Pos)
    requires mid == After(p, rounds, Pos(2, [], []))
    ensures After(p, [Joint, Joint] + rounds + [Joint, Put], Pos(0, [], []))
         == Pos(mid.calls + 1, mid.toC + [p.n.put(|mid.toC|, mid.toN)], mid.toN)
  {
    var first, tail, ops := [Joint, Joint], rounds + [Joint, Put], [Joint, Joint] + rounds + [Joint, Put];
    assert ops == first + tail;
    DropTwo(Joint, Joint, tail, ops);
    AfterFirst(p, ops, Joint, ops[1..], Pos(0, [], []));
    AfterFirst(p, ops[1..], Joint, tail, Pos(1, [], []));
    AfterConcat(p, rounds, [Joint, Put], Pos(2, [], []));
    assert [Joint, Put] + [] == [Joint, Put];
    PutRound(p, [], mid);
  }

  /** What the notary sends over an encryption. */
  lemma EncryptSent<R>(p: Program<R>, n: nat)
    ensures After(p, GcmParties.NotaryEncryptOps(n), Pos(0, [], [])) == Pos(n + 3, NotaryPuts(p, 0, n + 1, []), [])
  {
    var puts := NotaryPuts(p, 0, n, []);
    PutRounds(p, n, Pos(2, [], []));
    assert [] + puts == puts;
    AfterAll(p, Rounds(n, [Joint, Put]), Pos(2 + n, puts, []));
    assert puts + [p.n.put(n, [])] == NotaryPuts(p, 0, n + 1, []);
  }

  /** The client reads it as the blocks that were sent. */
  lemma EncryptReads(p: Program<(seq<Byte>, Block)>, j: Job, n: nat)
    requires p == EncryptProgram(j) && n == j.Blocks()
    ensures ReadBlocks(NotaryPuts(p, 0, n + 1, []), n + 1) == NotaryEncryptSends(CipherMasks(j), ChainMask(j))
  {
    var sends, toC := NotaryEncryptSends(CipherMasks(j), ChainMask(j)), NotaryPuts(p, 0, n + 1, []);
    forall i | 0 <= i < n + 1 ensures ReadBlocks(toC, n + 1)[i] == sends[i] {
      assert toC[i] == p.n.put(i, []) == Nth(sends, i);
      PackUnpack(sends[i]);
    }
  }

  lemma EncryptMatched(n: nat)
    ensures Matched(GcmParties.NotaryEncryptOps(n), ClientEncryptReordered(n))
    ensures Joints(GcmParties.NotaryEncryptOps(n)) == n + 3
  {
    MatchedRounds(n, [Joint, Put], [Joint, Get]);
    JointsOf(n, [Joint, Put], [Joint, Put]);
  }

  /** One joint call a round. */
  lemma JointsOf(n: nat, round: seq<Op>, last: seq<Op>)
    requires Joints(round) == Joints(last) == 1
    ensures Joints([Joint, Joint] + Rounds(n, round) + last) == n + 3
  {
    JointsRounds(n, round);
    JointsConcat([Joint, Joint], Rounds(n, round));
    JointsConcat([Joint, Joint] + Rounds(n, round), last);
    assert [Joint, Joint][1..] == [Joint];
  }

  lemma {:induction false} JointsRounds(n: nat, round: seq<Op>)
    requires Joints(round) == 1
    ensures Joints(Rounds(n, round)) == n
  {
    if n > 0 {
      JointsRounds(n - 1, round);
      JointsConcat(round, Rounds(n - 1, round));
    }
  }

  // ---------------------------------------------------------------- encryption: results

  /** What the client returns, from honest replies and the blocks it read. */
  lemma EncryptValue(j: Job, e: Cipher, n: nat, rn: seq<Block>, rc: seq<Block>, xc: Block, replies: seq<seq<Byte>>,
                     got: seq<Label>)
    requires n == j.Blocks() && rn == CipherMasks(j) && rc == AsBlocks(replies, n + 2) && xc == LastReply(j, replies)
    requires HonestAes(e, NotaryAesCalls(j.kn, j.nonce, n), rn, ClientAesCalls(j.kc, n), rc)
    requires HonestChain(NotaryEncryptChain(j.aad, |j.text|, rn), ChainMask(j),
                         ClientEncryptChain(|j.aad|, j.text, rc), xc)
    requires ReadBlocks(got, n + 1) == NotaryEncryptSends(rn, ChainMask(j))
    ensures ClientEncryptResult(j, replies, got) == Encrypt(e, XorBytes(j.kn, j.kc), j.nonce, j.aad, j.text)
  {
    SplitEncryptIsGcm(e, j.kn, j.kc, j.nonce, j.aad, j.text, rn, rc, ChainMask(j), xc);
  }

  /** The end of the matched programs, in terms of the replies and the blocks sent. */
  lemma EncryptEnd(p: Program<(seq<Byte>, Block)>, j: Job, n: nat, ops: seq<Op>)
    requires p == EncryptProgram(j) && |j.xs| == n + 3 && n == j.Blocks() && ops == GcmParties.NotaryEncryptOps(n)
    ensures Joints(ops) == n + 3
    ensures Outcome(p, ops) == ClientEncryptResult(j, Replies(p, n + 3), NotaryPuts(p, 0, n + 1, []))
  {
    EncryptMatched(n);
    EncryptSent(p, n);
    EncryptResultIs(p, j, Replies(p, n + 3), NotaryPuts(p, 0, n + 1, []));
  }

  lemma EncryptIsRight(p: Program<(seq<Byte>, Block)>, j: Job, e: Cipher, n: nat)
    requires p == EncryptProgram(j) && HonestJob(j, e) && n == j.Blocks()
    ensures ClientEncryptResult(j, Replies(p, n + 3), NotaryPuts(p, 0, n + 1, []))
         == Encrypt(e, XorBytes(j.kn, j.kc), j.nonce, j.aad, j.text)
  {
    hide AesSession, ChainSession, HonestAes, HonestChain, ClientEncryptResult, Encrypt, ReadBlocks;
    hide NotaryPuts, NotaryEncryptSends, NotaryAesCalls, ClientAesCalls, NotaryEncryptChain, ClientEncryptChain;
    hide AsBlocks, CipherMasks, LastReply;
    var rn, rc, replies, got := CipherMasks(j), CipherReplies(p, j), Replies(p, n + 3), NotaryPuts(p, 0, n + 1, []);
    EncryptReads(p, j, n);
    EncryptHonest(p, j, e, n, rn, rc);
    EncryptValue(j, e, n, rn, rc, ChainReply(p, j), replies, got);
  }

  lemma EncryptOutcome(p: Program<(seq<Byte>, Block)>, j: Job, e: Cipher, n: nat, ops: seq<Op>)
    requires p == EncryptProgram(j) && HonestJob(j, e) && n == j.Blocks() && ops == GcmParties.NotaryEncryptOps(n)
    ensures Joints(ops) == n + 3
    ensures Outcome(p, ops) == Encrypt(e, XorBytes(j.kn, j.kc), j.nonce, j.aad, j.text)
  {
    EncryptEnd(p, j, n, ops);
    EncryptIsRight(p, j, e, n);
  }

  lemma EncryptResultIs(p: Program<(seq<Byte>, Block)>, j: Job, replies: seq<seq<Byte>>, got: seq<Label>)
    requires p == EncryptProgram(j)
    ensures p.c.result(replies, got) == ClientEncryptResult(j, replies, got)
  {}

  /** Encryption with the client's reads after its joint calls. For every key split, nonce,
      associated data and plaintext, and honest sessions: in every interleaving of all messages
      of all joint calls and of the blocks between them no party aborts, the run can be
      completed, and the client then holds the ciphertext and tag of the standard. */
  lemma ReorderedEncrypts(j: Job, e: Cipher, soFar: seq<Move>) returns (rest: seq<Move>)
    requires HonestJob(j, e) && Schedule(EncryptReordered(j), soFar)
    ensures Completes(EncryptReordered(j), soFar, rest, Encrypt(e, XorBytes(j.kn, j.kc), j.nonce, j.aad, j.text))
  {
    var p, n := EncryptProgram(j), j.Blocks();
    EncryptMatched(n);
    forall i: nat | i < n + 3 ensures CallFits(p, i) {
      EncryptCallFits(p, j, e, i);
    }
    EncryptOutcome(p, j, e, n, GcmParties.NotaryEncryptOps(n));
    rest := MatchedProgramsRun(p, GcmParties.NotaryEncryptOps(n), ClientEncryptReordered(n), soFar);
  }

  ghost predicate CanFinish<R>(s: Net<seq<Label>, R>) {
    exists moves :: Schedule(s, moves) && Finished(Run(s, moves))
  }

  /** The first two joint calls of either operation. */
  lemma TwoCalls<R>(p: Program<R>, opsN: seq<Op>, opsC: seq<Op>, startN: seq<Op>, startC: seq<Op>)
    requires CallFits(p, 0) && CallFits(p, 1)
    requires startN == [Joint, Joint] + opsN && startC == [Joint, Joint] + opsC
    ensures Reaches(StartOf(p, startN, startC), At(p, opsN, opsC, Pos(2, [], [])))
  {
    var n1, c1 := [Joint] + opsN, [Joint] + opsC;
    ConsTwo(Joint, Joint, opsN);
    ConsTwo(Joint, Joint, opsC);
    JointFirst(p, n1, c1, Pos(0, [], []));
    JointFirst(p, opsN, opsC, Pos(1, [], []));
    ReachesTrans(StartOf(p, startN, startC), At(p, n1, c1, Pos(1, [], [])), At(p, opsN, opsC, Pos(2, [], [])));
  }

  /** With a plaintext block, encryption as written gets stuck in the first of them. */
  lemma EncryptStuck(p: Program<(seq<Byte>, Block)>, j: Job, e: Cipher, n: nat, opsN: seq<Op>, opsC: seq<Op>)
    requires p == EncryptProgram(j) && HonestJob(j, e) && n == j.Blocks() > 0
    requires opsN == Rounds(n, [Joint, Put]) + [Joint, Put] && opsC == Rounds(n, [Get, Joint]) + [Joint, Get]
    ensures NeverFinishes(At(p, opsN, opsC, Pos(2, [], [])))
  {
    EncryptCallsAre(p, j, 2, []);
    EncryptCallSizes(j, e, 2, Replies(p, 2));
    FirstOfRound(n, [Joint, Put], [Joint, Put]);
    FirstOfRound(n, [Get, Joint], [Joint, Get]);
    JointMeetsGet(p, opsN, opsC, Pos(2, [], []));
  }

  lemma EncryptNeverFinishes(j: Job, e: Cipher)
    requires HonestJob(j, e) && j.text != []
    ensures NeverFinishes(EncryptStart(j))
  {
    var p, n := EncryptProgram(j), j.Blocks();
    var opsN, opsC := Rounds(n, [Joint, Put]) + [Joint, Put], Rounds(n, [Get, Joint]) + [Joint, Get];
    var startN, startC := GcmParties.NotaryEncryptOps(n), GcmParties.ClientEncryptOps(n);
    SplitStart(n, [Joint, Put], [Joint, Put]);
    SplitStart(n, [Get, Joint], [Joint, Get]);
    EncryptCallFits(p, j, e, 0);
    EncryptCallFits(p, j, e, 1);
    TwoCalls(p, opsN, opsC, startN, startC);
    EncryptStuck(p, j, e, n, opsN, opsC);
    NeverFinishesBefore(StartOf(p, startN, startC), At(p, opsN, opsC, Pos(2, [], [])));
  }

  /** Encryption as written can finish exactly when there is no plaintext. */
  lemma EncryptFinishesWhen(j: Job, e: Cipher)
    requires HonestJob(j, e)
    ensures CanFinish(EncryptStart(j)) <==> j.text == []
  {
    if j.text == [] {
      assert GcmParties.ClientEncryptOps(0) == ClientEncryptReordered(0);
      var moves := ReorderedEncrypts(j, e, []);
      assert EncryptStart(j) == EncryptReordered(j);
    } else {
      EncryptNeverFinishes(j, e);
    }
  }

  // ---------------------------------------------------------------- decryption: the blocks

  function ClientPuts<R>(p: Program<R>, n: nat): (r: seq<Label>)
    ensures |r| == n && forall i :: 0 <= i < n ==> r[i] == p.c.put(i)
  {
    seq<Label>(n, i requires 0 <= i < n => p.c.put(i))
  }

  /** Everything the notary sends over a decryption. */
  function Answers(j: Job): (r: seq<Block>)
    ensures |r| == j.Blocks() + 1
  {
    NotaryDecryptSends(Pads(j.text), CipherMasks(j)[2..], XorBytes(ChainMask(j), CipherMasks(j)[1]))
  }

  /** A list of blocks, as they are sent. */
  function Labels(blocks: seq<Block>): (r: seq<Label>)
    ensures |r| == |blocks| && forall i :: 0 <= i < |blocks| ==> r[i] == BlockLabel(blocks[i])
  {
    seq<Label>(|blocks|, i requires 0 <= i < |blocks| => BlockLabel(blocks[i]))
  }

  /** Having read the client's block, the notary answers it. */
  lemma AnswerIs(p: Program<Decrypted>, j: Job, received: Block, i: nat, got: seq<Label>)
    requires p == DecryptProgram(j, received) && i < j.Blocks() && i < |got| && got[i] == p.c.put(i)
    ensures p.n.put(i, got) == BlockLabel(Answers(j)[i])
  {
    PackUnpack(Pads(j.text)[i]);
    assert got[i] == BlockLabel(Pads(j.text)[i]);
    assert Answers(j)[i] == XorBytes(Pads(j.text)[i], CipherMasks(j)[2..][i]);
  }

  lemma LastAnswerIs(p: Program<Decrypted>, j: Job, received: Block, got: seq<Label>)
    requires p == DecryptProgram(j, received)
    ensures p.n.put(j.Blocks(), got) == BlockLabel(Answers(j)[j.Blocks()])
  {}

  lemma AnswerRound<R>(p: Program<R>, more: seq<Op>, ops: seq<Op>, pos: Pos)
    requires ops == [Joint, Get, Put] + more
    ensures After(p, ops, pos) == After(p, more, Next(p, Put, Next(p, Get, Next(p, Joint, pos))))
  {
    DropThree(Joint, Get, Put, more, ops);
    AfterFirst(p, ops, Joint, ops[1..], pos);
    AfterFirst(p, ops[1..], Get, ops[1..][1..], Next(p, Joint, pos));
    AfterFirst(p, ops[1..][1..], Put, more, Next(p, Get, Next(p, Joint, pos)));
  }

  /** Where the notary stands after `m` blocks of a decryption that sends it the labels `all`. */
  function DecryptPos<R>(p: Program<R>, all: seq<Label>, m: nat): Pos
    requires m <= |all|
  {
    Pos(2 + m, all[..m], ClientPuts(p, m))
  }

  /** The notary's answer to the client's block `m` is `all[m]`. */
  predicate Answered<R>(p: Program<R>, all: seq<Label>, m: nat) {
    m < |all| && p.n.put(m, ClientPuts(p, m + 1)) == all[m]
  }

  /** One round, for block `m`. */
  lemma AnswerNext<R>(p: Program<R>, all: seq<Label>, m: nat)
    requires Answered(p, all, m)
    ensures Next(p, Put, Next(p, Get, Next(p, Joint, DecryptPos(p, all, m)))) == DecryptPos(p, all, m + 1)
  {
    assert ClientPuts(p, m + 1) == ClientPuts(p, m) + [p.c.put(m)];
    assert all[..m + 1] == all[..m] + [all[m]];
  }

  /** Rounds in which the notary reads a block and answers it, from block `m` on. */
  lemma {:induction false} AnswerRounds<R>(p: Program<R>, all: seq<Label>, k: nat, m: nat, end: nat, ops: seq<Op>)
    requires m + k == end <= |all| && ops == Rounds(k, [Joint, Get, Put])
    requires forall i: nat :: m <= i < end ==> Answered(p, all, i)
    ensures After(p, ops, DecryptPos(p, all, m)) == DecryptPos(p, all, end)
    decreases k
  {
    if k > 0 {
      var more := Rounds(k - 1, [Joint, Get, Put]);
      AnswerNext(p, all, m);
      AnswerRounds(p, all, k - 1, m + 1, end, more);
      AnswerRound(p, more, ops, DecryptPos(p, all, m));
    }
  }

  lemma DecryptSent(p: Program<Decrypted>, j: Job, received: Block, n: nat, all: seq<Label>)
    requires p == DecryptProgram(j, received) && n == j.Blocks() && all == Labels(Answers(j))
    ensures After(p, GcmParties.NotaryDecryptOps(n), Pos(0, [], [])) == Pos(n + 3, all, ClientPuts(p, n))
  {
    var mid := DecryptPos(p, all, n);
    forall i: nat | i < n ensures Answered(p, all, i) {
      AnswerIs(p, j, received, i, ClientPuts(p, i + 1));
    }
    AnswerRounds(p, all, n, 0, n, Rounds(n, [Joint, Get, Put]));
    EmptyStart(p, all);
    AfterAll(p, Rounds(n, [Joint, Get, Put]), mid);
    LastAnswerIs(p, j, received, mid.toN);
    assert all[..n] + [all[n]] == all;
  }

  lemma EmptyStart<R>(p: Program<R>, all: seq<Label>)
    ensures DecryptPos(p, all, 0) == Pos(2, [], [])
  {}

  lemma DecryptReads(j: Job, n: nat)
    requires n == j.Blocks()
    ensures ReadBlocks(Labels(Answers(j)), n + 1) == Answers(j)
  {
    forall i | 0 <= i < n + 1 ensures ReadBlocks(Labels(Answers(j)), n + 1)[i] == Answers(j)[i] {
      assert Labels(Answers(j))[i] == BlockLabel(Answers(j)[i]);
      PackUnpack(Answers(j)[i]);
    }
  }

  lemma DecryptMatched(n: nat)
    ensures Matched(GcmParties.NotaryDecryptOps(n), ClientDecryptReordered(n))
    ensures Joints(GcmParties.NotaryDecryptOps(n)) == n + 3
  {
    MatchedRounds(n, [Joint, Get, Put], [Joint, Put, Get]);
    JointsOf(n, [Joint, Get, Put], [Joint, Put]);
  }

  // ---------------------------------------------------------------- decryption: results

  /** What the client ends with: rejection exactly on a wrong tag, and otherwise the key stream. */
  function DecryptsTo(j: Job, e: Cipher, received: Block): Decrypted {
    var k := XorBytes(j.kn, j.kc);
    if received == Tag(e, k, j.nonce, j.aad, j.text) then Accepted(CounterMode(e, k, j.nonce, ZeroBytes(|j.text|)))
        else Rejected
  }

  lemma DecryptValue(j: Job, e: Cipher, received: Block, n: nat, rn: seq<Block>, rc: seq<Block>, xc: Block,
                     replies: seq<seq<Byte>>, got: seq<Label>)
    requires n == j.Blocks() && rn == CipherMasks(j) && rc == AsBlocks(replies, n + 2) && xc == LastReply(j, replies)
    requires HonestAes(e, NotaryAesCalls(j.kn, j.nonce, n), rn, ClientAesCalls(j.kc, n), rc)
    requires HonestChain(NotaryDecryptChain(|j.aad|, |j.text|, rn[0]), ChainMask(j),
                         ClientDecryptChain(j.aad, j.text, rc[0]), xc)
    requires ReadBlocks(got, n + 1) == Answers(j)
    ensures ClientDecryptResult(j, received, replies, got) == DecryptsTo(j, e, received)
  {
    SplitDecryptAsWritten(e, j.kn, j.kc, j.nonce, j.aad, j.text, received, rn, rc, ChainMask(j), xc);
  }

  lemma DecryptResultIs(p: Program<Decrypted>, j: Job, received: Block, replies: seq<seq<Byte>>, got: seq<Label>)
    requires p == DecryptProgram(j, received)
    ensures p.c.result(replies, got) == ClientDecryptResult(j, received, replies, got)
  {}

  lemma DecryptEnd(p: Program<Decrypted>, j: Job, received: Block, n: nat, ops: seq<Op>)
    requires p == DecryptProgram(j, received) && |j.xs| == n + 3 && n == j.Blocks()
             && ops == GcmParties.NotaryDecryptOps(n)
    ensures Joints(ops) == n + 3
    ensures Outcome(p, ops) == ClientDecryptResult(j, received, Replies(p, n + 3), Labels(Answers(j)))
  {
    DecryptMatched(n);
    DecryptSent(p, j, received, n, Labels(Answers(j)));
    DecryptResultIs(p, j, received, Replies(p, n + 3), Labels(Answers(j)));
  }

  lemma DecryptIsRight(p: Program<Decrypted>, j: Job, received: Block, e: Cipher, n: nat)
    requires p == DecryptProgram(j, received) && HonestJob(j, e) && n == j.Blocks()
    ensures ClientDecryptResult(j, received, Replies(p, n + 3), Labels(Answers(j))) == DecryptsTo(j, e, received)
  {
    hide AesSession, ChainSession, HonestAes, HonestChain, ClientDecryptResult, DecryptsTo, Answers;
    hide ReadBlocks, Labels, NotaryAesCalls, ClientAesCalls, NotaryDecryptChain, ClientDecryptChain;
    hide AsBlocks, CipherMasks, LastReply;
    var rn, rc, replies, got := CipherMasks(j), CipherReplies(p, j), Replies(p, n + 3), Labels(Answers(j));
    DecryptReads(j, n);
    DecryptHonest(p, j, received, e, n, rn, rc);
    DecryptValue(j, e, received, n, rn, rc, ChainReply(p, j), replies, got);
  }

  lemma DecryptOutcome(p: Program<Decrypted>, j: Job, received: Block, e: Cipher, n: nat, ops: seq<Op>)
    requires p == DecryptProgram(j, received) && HonestJob(j, e) && n == j.Blocks()
    requires ops == GcmParties.NotaryDecryptOps(n)
    ensures Joints(ops) == n + 3
    ensures Outcome(p, ops) == DecryptsTo(j, e, received)
  {
    DecryptEnd(p, j, received, n, ops);
    DecryptIsRight(p, j, received, e, n);
  }

  /** Decryption with the client's blocks sent after its joint calls: in every interleaving no
      party aborts, the run can be completed, and the client then rejects exactly a wrong tag,
      and otherwise returns the key stream. */
  lemma ReorderedDecrypts(j: Job, e: Cipher, received: Block, soFar: seq<Move>) returns (rest: seq<Move>)
    requires HonestJob(j, e) && Schedule(DecryptReordered(j, received), soFar)
    ensures Completes(DecryptReordered(j, received), soFar, rest, DecryptsTo(j, e, received))
  {
    var p, n := DecryptProgram(j, received), j.Blocks();
    DecryptMatched(n);
    forall i: nat | i < n + 3 ensures CallFits(p, i) {
      DecryptCallFits(p, j, received, e, i);
    }
    DecryptOutcome(p, j, received, e, n, GcmParties.NotaryDecryptOps(n));
    rest := MatchedProgramsRun(p, GcmParties.NotaryDecryptOps(n), ClientDecryptReordered(n), soFar);
  }

  /** With a ciphertext block, decryption as written breaks in the first of them. */
  lemma DecryptStuck(p: Program<Decrypted>, j: Job, received: Block, e: Cipher, n: nat, opsN: seq<Op>, opsC: seq<Op>)
    requires p == DecryptProgram(j, received) && HonestJob(j, e) && n == j.Blocks() > 0
    requires opsN == Rounds(n, [Joint, Get, Put]) + [Joint, Put] && opsC == Rounds(n, [Put, Joint, Get]) + [Joint, Get]
    ensures NeverFinishes(At(p, opsN, opsC, Pos(2, [], [])))
  {
    DecryptCallsAre(p, j, received, 2, []);
    DecryptCallSizes(j, e, 2, Replies(p, 2));
    FirstOfRound(n, [Joint, Get, Put], [Joint, Put]);
    FirstOfRound(n, [Put, Joint, Get], [Joint, Get]);
    JointMeetsPut(p, opsN, opsC, Pos(2, [], []));
  }

  lemma DecryptNeverFinishes(j: Job, e: Cipher, received: Block)
    requires HonestJob(j, e) && j.text != []
    ensures NeverFinishes(DecryptStart(j, received))
  {
    var p, n := DecryptProgram(j, received), j.Blocks();
    var opsN, opsC := Rounds(n, [Joint, Get, Put]) + [Joint, Put], Rounds(n, [Put, Joint, Get]) + [Joint, Get];
    var startN, startC := GcmParties.NotaryDecryptOps(n), GcmParties.ClientDecryptOps(n);
    SplitStart(n, [Joint, Get, Put], [Joint, Put]);
    SplitStart(n, [Put, Joint, Get], [Joint, Get]);
    DecryptCallFits(p, j, received, e, 0);
    DecryptCallFits(p, j, received, e, 1);
    TwoCalls(p, opsN, opsC, startN, startC);
    DecryptStuck(p, j, received, e, n, opsN, opsC);
    NeverFinishesBefore(StartOf(p, startN, startC), At(p, opsN, opsC, Pos(2, [], [])));
  }

  /** Decryption as written can finish exactly when there is no ciphertext. */
  lemma DecryptFinishesWhen(j: Job, e: Cipher, received: Block)
    requires HonestJob(j, e)
    ensures CanFinish(DecryptStart(j, received)) <==> j.text == []
  {
    if j.text == [] {
      assert GcmParties.ClientDecryptOps(0) == ClientDecryptReordered(0);
      var moves := ReorderedDecrypts(j, e, received, []);
      assert DecryptStart(j, received) == DecryptReordered(j, received);
    } else {
      DecryptNeverFinishes(j, e, received);
    }
  }
}
