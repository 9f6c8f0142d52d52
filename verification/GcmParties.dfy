/** The notary's and the client's GCM functions: the blocks they build, the calls they make,
    what they send and what they return. */
module GcmParties {
  import opened Bytes
  import opened Gcm
  import opened Ops
  import HmacParties

  type CallResult<T> = HmacParties.CallResult<T>

  /** One party's end: the joint calls it made with the replies it will get, the blocks it sent
      with those it will read, and in `trace` the order in which it used its connection. */
  class Session {
    var aesCalls: seq<AesCall>
    var aesReplies: seq<Block>
    var chainCalls: seq<ChainCall>
    var chainReplies: seq<Block>
    var sent: seq<Block>
    var incoming: seq<Block>
    var trace: seq<Op>

    constructor (aesReplies: seq<Block>, chainReplies: seq<Block>, incoming: seq<Block>)
      ensures aesCalls == [] && chainCalls == [] && sent == [] && trace == []
      ensures this.aesReplies == aesReplies && this.chainReplies == chainReplies && this.incoming == incoming
    {
      aesCalls, chainCalls, sent, trace := [], [], [], [];
      this.aesReplies, this.chainReplies, this.incoming := aesReplies, chainReplies, incoming;
    }

    method AesBlock(block: Block, key: Block) returns (r: CallResult<Block>)
      modifies this`aesCalls, this`aesReplies, this`trace
      ensures aesCalls == old(aesCalls) + [AesCall(block, key)] && trace == old(trace) + [Joint]
      ensures r.Ok? == (old(aesReplies) != [])
      ensures r.Ok? ==> r.value == old(aesReplies)[0] && aesReplies == old(aesReplies)[1..]
    {
      aesCalls, trace := aesCalls + [AesCall(block, key)], trace + [Joint];
      if aesReplies == [] {
        return HmacParties.Disconnected;
      }
      r := HmacParties.Ok(aesReplies[0]);
      aesReplies := aesReplies[1..];
    }

    method GhashChain(blocks: seq<Block>, h: Block) returns (r: CallResult<Block>)
      modifies this`chainCalls, this`chainReplies, this`trace
      ensures chainCalls == old(chainCalls) + [ChainCall(h, blocks)] && trace == old(trace) + [Joint]
      ensures r.Ok? == (old(chainReplies) != [])
      ensures r.Ok? ==> r.value == old(chainReplies)[0] && chainReplies == old(chainReplies)[1..]
    {
      chainCalls, trace := chainCalls + [ChainCall(h, blocks)], trace + [Joint];
      if chainReplies == [] {
        return HmacParties.Disconnected;
      }
      r := HmacParties.Ok(chainReplies[0]);
      chainReplies := chainReplies[1..];
    }

    method Write(b: Block)
      modifies this`sent, this`trace
      ensures sent == old(sent) + [b] && trace == old(trace) + [Put]
    {
      sent, trace := sent + [b], trace + [Put];
    }

    method Read() returns (r: CallResult<Block>)
      modifies this`incoming, this`trace
      ensures r.Ok? == (old(incoming) != []) && trace == old(trace) + [Get]
      ensures r.Ok? ==> r.value == old(incoming)[0] && incoming == old(incoming)[1..]
    {
      trace := trace + [Get];
      if incoming == [] {
        return HmacParties.Disconnected;
      }
      r := HmacParties.Ok(incoming[0]);
      incoming := incoming[1..];
    }
  }

  // ---------------------------------------------------------------- blocks of a string

  /** The bytes of block `blk`, and how many of it are valid: 16, or what is left at the end. */
  function Chunk16(s: seq<Byte>, blk: nat): (c: seq<Byte>)
    requires blk < BlockCount(|s|)
  {
    s[16 * blk..if 16 * (blk + 1) <= |s| then 16 * (blk + 1) else |s|]
  }

  function ValidBytes(len: nat, blk: nat): nat
    requires blk < BlockCount(len)
  {
    if blk == BlockCount(len) - 1 then (len - 1) % 16 + 1 else 16
  }

  /** What is left of a string from block `blk` on. */
  function From(s: seq<Byte>, blk: nat): seq<Byte>
    requires blk <= BlockCount(|s|)
  {
    if 16 * blk <= |s| then s[16 * blk..] else []
  }

  lemma FromStep(s: seq<Byte>, blk: nat)
    requires blk < BlockCount(|s|)
    ensures From(s, blk) != [] && Head(From(s, blk)) == Chunk16(s, blk) && Tail(From(s, blk)) == From(s, blk + 1)
    ensures |Chunk16(s, blk)| == ValidBytes(|s|, blk) && BlockCount(|From(s, blk)|) == BlockCount(|s|) - blk
  {}

  /** How many bytes are left from block `blk` on. */
  function Left(len: nat, blk: nat): nat
    requires blk <= BlockCount(len)
  {
    if 16 * blk <= len then len - 16 * blk else 0
  }

  lemma LeftStep(len: nat, blk: nat)
    requires blk < BlockCount(len)
    ensures Left(len, blk) > 0 && ValidBytes(len, blk) == (if Left(len, blk) <= 16 then Left(len, blk) else 16)
    ensures Left(len, blk + 1) == Left(len, blk) - ValidBytes(len, blk)
    ensures BlockCount(Left(len, blk)) == BlockCount(len) - blk
  {}

  ghost predicate PadsProgress(ct: seq<Byte>, blk: nat, blocks: seq<Block>)
    requires blk <= BlockCount(|ct|)
  {
    blocks + Pads(From(ct, blk)) == Pads(ct)
  }

  /** The block that is sent is already padded. */
  lemma PadsStep(ct: seq<Byte>, blk: nat, blocks: seq<Block>)
    requires blk < BlockCount(|ct|) && PadsProgress(ct, blk, blocks) && |Chunk16(ct, blk)| <= 16
    ensures ZeroPad(Padded(Chunk16(ct, blk)), ValidBytes(|ct|, blk)) == Padded(Chunk16(ct, blk))
    ensures PadsProgress(ct, blk + 1, blocks + [Padded(Chunk16(ct, blk))])
  {
    FromStep(ct, blk);
  }

  /** The loop that copies a string into zero-padded blocks. */
  method PadBlocks(s: seq<Byte>) returns (blocks: seq<Block>)
    ensures blocks == Pads(s)
  {
    blocks := [];
    var blk := 0;
    while blk < BlockCount(|s|)
      invariant blk <= BlockCount(|s|) && PadsProgress(s, blk, blocks)
    {
      FromStep(s, blk);
      PadsStep(s, blk, blocks);
      blocks := blocks + [Padded(Chunk16(s, blk))];
      blk := blk + 1;
    }
  }

  method RepeatZero(n: nat) returns (blocks: seq<Block>)
    ensures blocks == ZeroBlocks(n)
  {
    blocks := [];
    while |blocks| < n
      invariant |blocks| <= n && blocks == ZeroBlocks(|blocks|)
    {
      blocks := blocks + [ZeroBytes(16)];
    }
  }

  /** The two blocks every operation starts with: H, and the mask of the tag. */
  method StartBlocks(s: Session, j0: Block, key: Block) returns (r: CallResult<(Block, Block)>)
    modifies s`aesCalls, s`aesReplies, s`trace
    ensures r.Ok? == (|old(s.aesReplies)| >= 2)
    ensures r.Ok? ==> s.aesReplies == old(s.aesReplies)[2..] && r.value == (old(s.aesReplies)[0], old(s.aesReplies)[1])
    ensures r.Ok? ==> s.aesCalls == old(s.aesCalls) + [AesCall(ZeroBytes(16), key), AesCall(j0, key)]
    ensures r.Ok? ==> s.trace == old(s.trace) + [Joint, Joint]
  {
    var h :- s.AesBlock(ZeroBytes(16), key);
    var mask :- s.AesBlock(j0, key);
    r := HmacParties.Ok((h, mask));
  }

  // ---------------------------------------------------------------- encryption, notary

  /** The notary's text loop: a key stream share is made, sent, and cut for GHASH. */
  method NotaryEncryptText(s: Session, kn: Block, nonce: Nonce, len: nat) returns (r: CallResult<seq<Block>>)
    modifies s`aesCalls, s`aesReplies, s`sent, s`trace
    ensures r.Ok? == (|old(s.aesReplies)| >= BlockCount(len))
    ensures r.Ok? ==> s.aesReplies == old(s.aesReplies)[BlockCount(len)..]
    ensures r.Ok? ==> s.aesCalls == old(s.aesCalls)
                      + seq(BlockCount(len), i requires 0 <= i => AesCall(CounterBlock(nonce, i + 2), kn))
    ensures r.Ok? ==> s.sent == old(s.sent) + old(s.aesReplies)[..BlockCount(len)]
    ensures r.Ok? ==> s.trace == old(s.trace) + Rounds(BlockCount(len), [Joint, Put])
    ensures r.Ok? ==> r.value == NotaryTextBlocks(len, old(s.aesReplies)[..BlockCount(len)])
  {
    hide CounterBlock, Rounds;
    ghost var n, replies := BlockCount(len), s.aesReplies;
    var blocks: seq<Block>, blk := [], 0;
    while blk < BlockCount(len)
      invariant blk <= n <= |replies| || blk <= |replies| < n
      invariant s.aesReplies == replies[blk..]
      invariant s.aesCalls == old(s.aesCalls) + seq(blk, i requires 0 <= i => AesCall(CounterBlock(nonce, i + 2), kn))
      invariant s.sent == old(s.sent) + replies[..blk]
      invariant s.trace == old(s.trace) + Rounds(blk, [Joint, Put])
      invariant n <= |replies| ==>
                blocks + NotaryTextBlocks(Left(len, blk), replies[blk..n]) == NotaryTextBlocks(len, replies[..n])
    {
      LeftStep(len, blk);
      var ks :- s.AesBlock(CounterBlock(nonce, blk + 2), kn);
      s.Write(ks);
      TraceSnoc(old(s.trace), blk, [Joint, Put]);
      SnocTwo(old(s.trace) + Rounds(blk, [Joint, Put]), Joint, Put);
      ghost var before := blocks;
      blocks := blocks + [ZeroPad(ks, ValidBytes(len, blk))];
      if n <= |replies| {
        NotaryTextStep(len, blk, replies[..n], before);
      }
      blk := blk + 1;
    }
    r := HmacParties.Ok(blocks);
  }

  lemma NotaryTextStep(len: nat, blk: nat, ks: seq<Block>, before: seq<Block>)
    requires blk < BlockCount(len) == |ks| && BlockCount(Left(len, blk)) == |ks| - blk
    requires before + NotaryTextBlocks(Left(len, blk), ks[blk..]) == NotaryTextBlocks(len, ks)
    ensures BlockCount(Left(len, blk + 1)) == |ks| - (blk + 1)
    ensures before + [ZeroPad(ks[blk], ValidBytes(len, blk))] + NotaryTextBlocks(Left(len, blk + 1), ks[blk + 1..])
            == NotaryTextBlocks(len, ks)
  {
    LeftStep(len, blk);
    assert ks[blk..][1..] == ks[blk + 1..];
  }

  /** The notary's use of its connection for `n` blocks of plaintext. */
  function NotaryEncryptOps(n: nat): seq<Op> {
    [Joint, Joint] + Rounds(n, [Joint, Put]) + [Joint, Put]
  }

  lemma TraceSnoc(before: seq<Op>, n: nat, ops: seq<Op>)
    ensures before + Rounds(n + 1, ops) == before + Rounds(n, ops) + ops
  {
    RoundsSnoc(n, ops);
    assert before + (Rounds(n, ops) + ops) == (before + Rounds(n, ops)) + ops;
  }

  /** A trace that grew by two calls, the text, and two more operations. */
  lemma WholeTrace(before: seq<Op>, n: nat, ops: seq<Op>, a: Op, b: Op)
    ensures before + [Joint, Joint] + Rounds(n, ops) + [a] + [b] == before + ([Joint, Joint] + Rounds(n, ops) + [a, b])
  {}

  lemma SnocTwo(trace: seq<Op>, a: Op, b: Op)
    ensures trace + [a] + [b] == trace + [a, b]
  {}

  lemma SnocThree(trace: seq<Op>, a: Op, b: Op, c: Op)
    ensures trace + [a] + [b] + [c] == trace + [a, b, c]
  {}

  method NotaryEncryptGcm(s: Session, kn: Block, nonce: Nonce, aad: seq<Byte>, len: nat) returns (r: CallResult<()>)
    modifies s
    ensures r.Ok? == (|old(s.aesReplies)| >= BlockCount(len) + 2 && |old(s.chainReplies)| >= 1)
    ensures r.Ok? ==>
      var rn := old(s.aesReplies)[..BlockCount(len) + 2];
      && s.aesCalls == old(s.aesCalls) + NotaryAesCalls(kn, nonce, BlockCount(len))
      && s.chainCalls == old(s.chainCalls) + [NotaryEncryptChain(aad, len, rn)]
      && s.sent == old(s.sent) + NotaryEncryptSends(rn, old(s.chainReplies)[0])
      && s.trace == old(s.trace) + NotaryEncryptOps(BlockCount(len))
  {
    ghost var replies := s.aesReplies;
    var start :- StartBlocks(s, CounterBlock(nonce, 1), kn);
    var h, mask := start.0, start.1;
    var blocks := PadBlocks(aad);
    var text :- NotaryEncryptText(s, kn, nonce, len);
    var x :- s.GhashChain(blocks + text + [LengthBlock(|aad|, len)], h);
    s.Write(XorBytes(x, mask));
    WholeTrace(old(s.trace), BlockCount(len), [Joint, Put], Joint, Put);
    NotaryCallsMade(kn, nonce, BlockCount(len), old(s.aesCalls));
    NotarySent(replies, BlockCount(len), XorBytes(x, mask), old(s.sent));
    r := HmacParties.Ok(());
  }

  lemma NotaryCallsMade(kn: Block, nonce: Nonce, n: nat, calls: seq<AesCall>)
    ensures calls + [AesCall(ZeroBytes(16), kn), AesCall(CounterBlock(nonce, 1), kn)]
                  + seq(n, i requires 0 <= i => AesCall(CounterBlock(nonce, i + 2), kn))
         == calls + NotaryAesCalls(kn, nonce, n)
  {}

  /** What was sent, from the replies as they came. */
  lemma NotarySent(replies: seq<Block>, n: nat, last: Block, sent: seq<Block>)
    requires n + 2 <= |replies|
    ensures replies[..n + 2][2..] == replies[2..][..n]
    ensures sent + (replies[..n + 2][2..] + [last]) == sent + replies[2..][..n] + [last]
  {}

  // ---------------------------------------------------------------- encryption, client

  /** What is done, and what the rest of the text gives, make up the whole. */
  ghost predicate ClientProgress(pt: seq<Byte>, ksn: seq<Block>, ksc: seq<Block>, blk: nat, ct: seq<Byte>,
                                 blocks: seq<Block>)
    requires blk <= BlockCount(|pt|) == |ksn| == |ksc|
  {
    && BlockCount(|From(pt, blk)|) == |ksn| - blk
    && ct + ClientCiphertext(From(pt, blk), ksn[blk..], ksc[blk..]) == ClientCiphertext(pt, ksn, ksc)
    && blocks + ClientTextBlocks(From(pt, blk), ksc[blk..]) == ClientTextBlocks(pt, ksc)
  }

  lemma ClientTextStep(pt: seq<Byte>, ksn: seq<Block>, ksc: seq<Block>, blk: nat, ct: seq<Byte>, blocks: seq<Block>)
    requires blk < BlockCount(|pt|) == |ksn| == |ksc| && ClientProgress(pt, ksn, ksc, blk, ct, blocks)
    ensures
      var valid, part := ValidBytes(|pt|, blk), XorBytes(Padded(Chunk16(pt, blk)), ksc[blk]);
      ClientProgress(pt, ksn, ksc, blk + 1, ct + XorBytes(part, ksn[blk])[..valid], blocks + [ZeroPad(part, valid)])
  {
    var p, kn, kc := From(pt, blk), ksn[blk..], ksc[blk..];
    FromStep(pt, blk);
    assert kn[1..] == ksn[blk + 1..] && kc[1..] == ksc[blk + 1..];
    CiphertextUnfolds(p, kn, kc, ct, ClientCiphertext(pt, ksn, ksc));
    TextBlocksUnfold(p, kc, blocks, ClientTextBlocks(pt, ksc));
  }

  lemma CiphertextUnfolds(p: seq<Byte>, kn: seq<Block>, kc: seq<Block>, done: seq<Byte>, all: seq<Byte>)
    requires p != [] && |kn| == |kc| == BlockCount(|p|) && done + ClientCiphertext(p, kn, kc) == all
    ensures done + XorBytes(XorBytes(Padded(Head(p)), kc[0]), kn[0])[..|Head(p)|]
            + ClientCiphertext(Tail(p), kn[1..], kc[1..]) == all
  {}

  lemma TextBlocksUnfold(p: seq<Byte>, kc: seq<Block>, done: seq<Block>, all: seq<Block>)
    requires p != [] && |kc| == BlockCount(|p|) && done + ClientTextBlocks(p, kc) == all
    ensures done + [ZeroPad(XorBytes(Padded(Head(p)), kc[0]), |Head(p)|)] + ClientTextBlocks(Tail(p), kc[1..]) == all
  {}

  lemma ClientCallsMade(kc: Block, n: nat, calls: seq<AesCall>)
    ensures calls + [AesCall(ZeroBytes(16), kc), AesCall(ZeroBytes(16), kc)] + seq(n, i => AesCall(ZeroBytes(16), kc))
         == calls + ClientAesCalls(kc, n)
  {}

  /** Parts of a prefix. */
  lemma Prefixes(replies: seq<Block>, incoming: seq<Block>, n: nat)
    requires n + 2 <= |replies| && n < |incoming|
    ensures replies[2..][..n] == replies[..n + 2][2..]
    ensures incoming[..n + 1][..n] == incoming[..n] && incoming[..n + 1][n] == incoming[n..][0]
  {}

  datatype Tape = Tape(calls: seq<AesCall>, replies: seq<Block>, sent: seq<Block>, incoming: seq<Block>, trace: seq<Op>)

  /** There is a reply and a block to read for every block of `text`. */
  predicate Enough(text: seq<Byte>, t: Tape) {
    |t.replies| >= BlockCount(|text|) && |t.incoming| >= BlockCount(|text|)
  }

  /** After `blk` blocks of text, one call made and one block read for each. */
  ghost predicate TapeAt(kc: Block, from: Tape, now: Tape, blk: nat, ops: seq<Op>) {
    && blk <= |from.replies| && blk <= |from.incoming|
    && now.replies == from.replies[blk..] && now.incoming == from.incoming[blk..]
    && now.calls == from.calls + seq(blk, i => AesCall(ZeroBytes(16), kc))
    && now.trace == from.trace + Rounds(blk, ops)
  }

  lemma TapeStep(kc: Block, from: Tape, now: Tape, blk: nat, sent: seq<Block>, ops: seq<Op>)
    requires TapeAt(kc, from, now, blk, ops) && now.replies != [] && now.incoming != []
    ensures now.replies[0] == from.replies[blk] && now.incoming[0] == from.incoming[blk]
    ensures TapeAt(kc, from, Tape(now.calls + [AesCall(ZeroBytes(16), kc)], now.replies[1..], sent, now.incoming[1..],
                                  now.trace + ops), blk + 1, ops)
  {
    TraceSnoc(from.trace, blk, ops);
    SameCalls(from.calls, blk, AesCall(ZeroBytes(16), kc));
  }

  lemma SameCalls(calls: seq<AesCall>, n: nat, c: AesCall)
    ensures calls + seq(n, i => c) + [c] == calls + seq(n + 1, i => c)
  {}

  ghost predicate EncryptProgress(pt: seq<Byte>, kc: Block, from: Tape, now: Tape, blk: nat, ct: seq<Byte>,
                                  blocks: seq<Block>)
    requires blk <= BlockCount(|pt|)
  {
    && TapeAt(kc, from, now, blk, [Get, Joint])
    && (Enough(pt, from) ==>
        ClientProgress(pt, from.incoming[..BlockCount(|pt|)], from.replies[..BlockCount(|pt|)], blk, ct, blocks))
  }

  lemma EncryptStep(pt: seq<Byte>, kc: Block, from: Tape, now: Tape, blk: nat, ct: seq<Byte>, blocks: seq<Block>,
                    part: Block, c: Block)
    requires blk < BlockCount(|pt|) && EncryptProgress(pt, kc, from, now, blk, ct, blocks)
    requires now.replies != [] && now.incoming != [] && |Chunk16(pt, blk)| <= 16
    requires part == XorBytes(Padded(Chunk16(pt, blk)), now.replies[0]) && c == XorBytes(part, now.incoming[0])
    requires ValidBytes(|pt|, blk) <= 16
    ensures EncryptProgress(pt, kc, from,
      Tape(now.calls + [AesCall(ZeroBytes(16), kc)], now.replies[1..], now.sent, now.incoming[1..],
           now.trace + [Get, Joint]),
      blk + 1, ct + c[..ValidBytes(|pt|, blk)], blocks + [ZeroPad(part, ValidBytes(|pt|, blk))])
  {
    TapeStep(kc, from, now, blk, now.sent, [Get, Joint]);
    if Enough(pt, from) {
      ClientTextStep(pt, from.incoming[..BlockCount(|pt|)], from.replies[..BlockCount(|pt|)], blk, ct, blocks);
    }
  }

  lemma EncryptEnds(pt: seq<Byte>, kc: Block, from: Tape, now: Tape, ct: seq<Byte>, blocks: seq<Block>)
    requires EncryptProgress(pt, kc, from, now, BlockCount(|pt|), ct, blocks)
    ensures Enough(pt, from)
    ensures ct == ClientCiphertext(pt, from.incoming[..BlockCount(|pt|)], from.replies[..BlockCount(|pt|)])
    ensures blocks == ClientTextBlocks(pt, from.replies[..BlockCount(|pt|)])
  {
    assert From(pt, BlockCount(|pt|)) == [];
  }

  /** The notary's share is read, then the client's own made. */
  method ReadAndMake(s: Session, kc: Block) returns (r: CallResult<(Block, Block)>)
    modifies s`aesCalls, s`aesReplies, s`incoming, s`trace
    ensures r.Ok? == (old(s.aesReplies) != [] && old(s.incoming) != [])
    ensures r.Ok? ==> s.aesReplies == old(s.aesReplies)[1..] && s.incoming == old(s.incoming)[1..]
    ensures r.Ok? ==> s.aesCalls == old(s.aesCalls) + [AesCall(ZeroBytes(16), kc)]
    ensures r.Ok? ==> r.value == (old(s.incoming)[0], old(s.aesReplies)[0]) && s.trace == old(s.trace) + [Get, Joint]
  {
    var ksN :- s.Read();
    var ksC :- s.AesBlock(ZeroBytes(16), kc);
    r := HmacParties.Ok((ksN, ksC));
  }

  lemma EncryptStarts(pt: seq<Byte>, kc: Block, from: Tape)
    ensures EncryptProgress(pt, kc, from, from, 0, [], [])
  {}

  /** The client's text loop: the plaintext block is added to the client's share; that part
      goes to GHASH, and with the notary's share to the ciphertext. */
  method ClientEncryptText(s: Session, kc: Block, pt: seq<Byte>) returns (r: CallResult<(seq<Byte>, seq<Block>)>)
    modifies s`aesCalls, s`aesReplies, s`incoming, s`trace
    ensures r.Ok? == (|old(s.aesReplies)| >= BlockCount(|pt|) && |old(s.incoming)| >= BlockCount(|pt|))
    ensures r.Ok? ==> s.aesReplies == old(s.aesReplies)[BlockCount(|pt|)..]
                      && s.incoming == old(s.incoming)[BlockCount(|pt|)..]
    ensures r.Ok? ==> s.aesCalls == old(s.aesCalls) + seq(BlockCount(|pt|), i => AesCall(ZeroBytes(16), kc))
    ensures r.Ok? ==> r.value.0 == ClientCiphertext(pt, old(s.incoming)[..BlockCount(|pt|)],
                                                    old(s.aesReplies)[..BlockCount(|pt|)])
    ensures r.Ok? ==> r.value.1 == ClientTextBlocks(pt, old(s.aesReplies)[..BlockCount(|pt|)])
    ensures r.Ok? ==> s.trace == old(s.trace) + Rounds(BlockCount(|pt|), [Get, Joint])
  {
    hide ClientCiphertext, ClientProgress, Rounds, Chunk16, ValidBytes;
    ghost var from := Tape(s.aesCalls, s.aesReplies, s.sent, s.incoming, s.trace);
    var ct: seq<Byte>, blocks: seq<Block>, blk := [], [], 0;
    EncryptStarts(pt, kc, from);
    while blk < BlockCount(|pt|)
      invariant blk <= BlockCount(|pt|)
      invariant EncryptProgress(pt, kc, from, Tape(s.aesCalls, s.aesReplies, s.sent, s.incoming, s.trace), blk, ct,
                                blocks)
    {
      FromStep(pt, blk);
      ghost var now := Tape(s.aesCalls, s.aesReplies, s.sent, s.incoming, s.trace);
      var ks :- ReadAndMake(s, kc);
      var ctC := XorBytes(Padded(Chunk16(pt, blk)), ks.1);
      var c := XorBytes(ctC, ks.0);
      EncryptStep(pt, kc, from, now, blk, ct, blocks, ctC, c);
      ct := ct + c[..ValidBytes(|pt|, blk)];
      blocks := blocks + [ZeroPad(ctC, ValidBytes(|pt|, blk))];
      blk := blk + 1;
    }
    EncryptEnds(pt, kc, from, Tape(s.aesCalls, s.aesReplies, s.sent, s.incoming, s.trace), ct, blocks);
    r := HmacParties.Ok((ct, blocks));
  }

  function ClientEncryptOps(n: nat): seq<Op> {
    [Joint, Joint] + Rounds(n, [Get, Joint]) + [Joint, Get]
  }

  method ClientEncryptGcm(s: Session, kc: Block, pt: seq<Byte>, aad: seq<Byte>)
    returns (r: CallResult<(seq<Byte>, Block)>)
    modifies s
    ensures r.Ok? == (|old(s.aesReplies)| >= BlockCount(|pt|) + 2 && |old(s.chainReplies)| >= 1
                      && |old(s.incoming)| >= BlockCount(|pt|) + 1)
    ensures r.Ok? ==>
      var rc, read := old(s.aesReplies)[..BlockCount(|pt|) + 2], old(s.incoming)[..BlockCount(|pt|) + 1];
      && s.aesCalls == old(s.aesCalls) + ClientAesCalls(kc, BlockCount(|pt|))
      && s.chainCalls == old(s.chainCalls) + [ClientEncryptChain(|aad|, pt, rc)]
      && s.sent == old(s.sent)
      && s.trace == old(s.trace) + ClientEncryptOps(BlockCount(|pt|))
      && r.value == ClientEncrypted(pt, rc, old(s.chainReplies)[0], read)
  {
    hide ClientCiphertext, ClientEncrypted, ClientEncryptChain, ClientAesCalls, Rounds;
    ghost var replies, incoming := s.aesReplies, s.incoming;
    var start :- StartBlocks(s, ZeroBytes(16), kc);
    var h, mask := start.0, start.1;
    var blocks := RepeatZero(BlockCount(|aad|));
    var text :- ClientEncryptText(s, kc, pt);
    var tag :- JoinTag(s, h, mask, blocks + text.1 + [ZeroBytes(16)]);
    ClientCallsMade(kc, BlockCount(|pt|), old(s.aesCalls));
    WholeTrace(old(s.trace), BlockCount(|pt|), [Get, Joint], Joint, Get);
    EncryptedFrom(pt, |aad|, replies, incoming, old(s.chainReplies)[0], tag);
    r := HmacParties.Ok((text.0, tag));
  }

  /** The client's chain call and result, from the replies and the blocks as they came. */
  lemma EncryptedFrom(pt: seq<Byte>, aadLen: nat, replies: seq<Block>, incoming: seq<Block>, x: Block, tag: Block)
    requires BlockCount(|pt|) + 2 <= |replies| && BlockCount(|pt|) < |incoming|
    requires tag == XorBytes(incoming[BlockCount(|pt|)], XorBytes(x, replies[1]))
    ensures
      var n := BlockCount(|pt|);
      && ClientEncryptChain(aadLen, pt, replies[..n + 2])
         == ChainCall(replies[0], ZeroBlocks(BlockCount(aadLen)) + ClientTextBlocks(pt, replies[2..][..n])
                                  + [ZeroBytes(16)])
      && ClientEncrypted(pt, replies[..n + 2], x, incoming[..n + 1])
         == (ClientCiphertext(pt, incoming[..n], replies[2..][..n]), tag)
  {
    Prefixes(replies, incoming, BlockCount(|pt|));
  }

  /** The chain, and the notary's tag share added to the client's. */
  method JoinTag(s: Session, h: Block, mask: Block, blocks: seq<Block>) returns (r: CallResult<Block>)
    modifies s`chainCalls, s`chainReplies, s`incoming, s`trace
    ensures r.Ok? == (|old(s.chainReplies)| >= 1 && |old(s.incoming)| >= 1)
    ensures r.Ok? ==> s.chainCalls == old(s.chainCalls) + [ChainCall(h, blocks)]
    ensures r.Ok? ==> s.trace == old(s.trace) + [Joint] + [Get]
    ensures r.Ok? ==> r.value == XorBytes(old(s.incoming)[0], XorBytes(old(s.chainReplies)[0], mask))
  {
    var x :- s.GhashChain(blocks, h);
    var tagN :- s.Read();
    r := HmacParties.Ok(XorBytes(tagN, XorBytes(x, mask)));
  }

  // ---------------------------------------------------------------- decryption, notary

  method NotaryDecryptText(s: Session, kn: Block, nonce: Nonce, len: nat) returns (r: CallResult<seq<Block>>)
    modifies s`aesCalls, s`aesReplies, s`sent, s`incoming, s`trace
    ensures r.Ok? == (|old(s.aesReplies)| >= BlockCount(len) && |old(s.incoming)| >= BlockCount(len))
    ensures r.Ok? ==> s.aesReplies == old(s.aesReplies)[BlockCount(len)..]
                      && s.incoming == old(s.incoming)[BlockCount(len)..]
    ensures r.Ok? ==> s.aesCalls == old(s.aesCalls)
                      + seq(BlockCount(len), i requires 0 <= i => AesCall(CounterBlock(nonce, i + 2), kn))
    ensures r.Ok? ==> s.sent == old(s.sent)
                      + XorBlocks(old(s.incoming)[..BlockCount(len)], old(s.aesReplies)[..BlockCount(len)])
    ensures r.Ok? ==> r.value == ZeroBlocks(BlockCount(len))
    ensures r.Ok? ==> s.trace == old(s.trace) + Rounds(BlockCount(len), [Joint, Get, Put])
  {
    hide CounterBlock, Rounds;
    ghost var n, replies, incoming := BlockCount(len), s.aesReplies, s.incoming;
    var blocks: seq<Block>, blk := [], 0;
    while blk < BlockCount(len)
      invariant blk <= n && blk <= |replies| && blk <= |incoming|
      invariant s.aesReplies == replies[blk..] && s.incoming == incoming[blk..]
      invariant s.aesCalls == old(s.aesCalls) + seq(blk, i requires 0 <= i => AesCall(CounterBlock(nonce, i + 2), kn))
      invariant s.sent == old(s.sent) + XorBlocks(incoming[..blk], replies[..blk])
      invariant blocks == ZeroBlocks(blk) && s.trace == old(s.trace) + Rounds(blk, [Joint, Get, Put])
    {
      var ksN :- s.AesBlock(CounterBlock(nonce, blk + 2), kn);
      var ctC :- s.Read();
      blocks := blocks + [ZeroBytes(16)];
      s.Write(XorBytes(ctC, ksN));
      TraceSnoc(old(s.trace), blk, [Joint, Get, Put]);
      SnocThree(old(s.trace) + Rounds(blk, [Joint, Get, Put]), Joint, Get, Put);
      blk := blk + 1;
    }
    r := HmacParties.Ok(blocks);
  }

  function NotaryDecryptOps(n: nat): seq<Op> {
    [Joint, Joint] + Rounds(n, [Joint, Get, Put]) + [Joint, Put]
  }

  method NotaryDecryptGcm(s: Session, kn: Block, nonce: Nonce, aadLen: nat, len: nat) returns (r: CallResult<()>)
    modifies s
    ensures r.Ok? == (|old(s.aesReplies)| >= BlockCount(len) + 2 && |old(s.chainReplies)| >= 1
                      && |old(s.incoming)| >= BlockCount(len))
    ensures r.Ok? ==>
      var rn, n := old(s.aesReplies)[..BlockCount(len) + 2], BlockCount(len);
      && s.aesCalls == old(s.aesCalls) + NotaryAesCalls(kn, nonce, n)
      && s.chainCalls == old(s.chainCalls) + [NotaryDecryptChain(aadLen, len, rn[0])]
      && s.sent == old(s.sent)
         + NotaryDecryptSends(old(s.incoming)[..n], rn[2..], XorBytes(old(s.chainReplies)[0], rn[1]))
      && s.trace == old(s.trace) + NotaryDecryptOps(n)
  {
    ghost var replies := s.aesReplies;
    var start :- StartBlocks(s, CounterBlock(nonce, 1), kn);
    var h, mask := start.0, start.1;
    var blocks := RepeatZero(BlockCount(aadLen));
    var text :- NotaryDecryptText(s, kn, nonce, len);
    NotaryCallsMade(kn, nonce, BlockCount(len), old(s.aesCalls));
    assert replies[2..][..BlockCount(len)] == replies[..BlockCount(len) + 2][2..];
    var x :- s.GhashChain(blocks + text + [LengthBlock(aadLen, len)], h);
    s.Write(XorBytes(x, mask));
    WholeTrace(old(s.trace), BlockCount(len), [Joint, Get, Put], Joint, Put);
    r := HmacParties.Ok(());
  }

  // ---------------------------------------------------------------- decryption, client

  /** The block is sent, the client's share made, the answer read and added. */
  method ClientDecryptBlock(s: Session, kc: Block, block: Block) returns (r: CallResult<Block>)
    modifies s`aesCalls, s`aesReplies, s`sent, s`incoming, s`trace
    ensures r.Ok? == (old(s.aesReplies) != [] && old(s.incoming) != [])
    ensures r.Ok? ==> s.aesReplies == old(s.aesReplies)[1..] && s.incoming == old(s.incoming)[1..]
    ensures r.Ok? ==> s.aesCalls == old(s.aesCalls) + [AesCall(ZeroBytes(16), kc)] && s.sent == old(s.sent) + [block]
    ensures r.Ok? ==> r.value == XorBytes(old(s.incoming)[0], XorBytes(block, old(s.aesReplies)[0]))
    ensures r.Ok? ==> s.trace == old(s.trace) + [Put, Joint, Get]
  {
    s.Write(block);
    var ksC :- s.AesBlock(ZeroBytes(16), kc);
    var ptN :- s.Read();
    r := HmacParties.Ok(XorBytes(ptN, XorBytes(block, ksC)));
  }

  /** After `blk` blocks: what was called, sent, read and returned so far. */
  ghost predicate DecryptProgress(ct: seq<Byte>, kc: Block, from: Tape, now: Tape, blk: nat, pt: seq<Byte>,
                                  blocks: seq<Block>)
    requires blk <= BlockCount(|ct|)
  {
    && TapeAt(kc, from, now, blk, [Put, Joint, Get])
    && now.sent == from.sent + blocks
    && PadsProgress(ct, blk, blocks)
    && (Enough(ct, from) ==>
        PlainProgress(ct, from.incoming[..BlockCount(|ct|)], from.replies[..BlockCount(|ct|)], blk, pt))
  }

  lemma DecryptStep(ct: seq<Byte>, kc: Block, from: Tape, now: Tape, blk: nat, pt: seq<Byte>, blocks: seq<Block>,
                    block: Block, p: Block)
    requires blk < BlockCount(|ct|) && DecryptProgress(ct, kc, from, now, blk, pt, blocks)
    requires now.replies != [] && now.incoming != [] && |Chunk16(ct, blk)| <= 16
    requires block == Padded(Chunk16(ct, blk)) && p == XorBytes(now.incoming[0], XorBytes(block, now.replies[0]))
    requires ValidBytes(|ct|, blk) <= 16
    ensures ZeroPad(block, ValidBytes(|ct|, blk)) == block
    ensures DecryptProgress(ct, kc, from,
      Tape(now.calls + [AesCall(ZeroBytes(16), kc)], now.replies[1..], now.sent + [block], now.incoming[1..],
           now.trace + [Put, Joint, Get]),
      blk + 1, pt + p[..ValidBytes(|ct|, blk)], blocks + [block])
  {
    PadsStep(ct, blk, blocks);
    TapeStep(kc, from, now, blk, now.sent + [block], [Put, Joint, Get]);
    if Enough(ct, from) {
      PlainStep(ct, from.incoming[..BlockCount(|ct|)], from.replies[..BlockCount(|ct|)], blk, pt);
    }
    SentSnoc(from.sent, blocks, block);
  }

  lemma SentSnoc(a: seq<Block>, b: seq<Block>, c: Block)
    ensures (a + b) + [c] == a + (b + [c])
  {}

  /** When the loop is over. */
  lemma DecryptEnds(ct: seq<Byte>, kc: Block, from: Tape, now: Tape, pt: seq<Byte>, blocks: seq<Block>)
    requires DecryptProgress(ct, kc, from, now, BlockCount(|ct|), pt, blocks)
    ensures Enough(ct, from) && blocks == Pads(ct)
    ensures pt == ClientPlaintext(ct, from.incoming[..BlockCount(|ct|)], from.replies[..BlockCount(|ct|)])
  {
    assert From(ct, BlockCount(|ct|)) == [];
  }

  lemma DecryptStarts(ct: seq<Byte>, kc: Block, from: Tape)
    ensures DecryptProgress(ct, kc, from, from, 0, [], [])
  {}

  method ClientDecryptText(s: Session, kc: Block, ct: seq<Byte>) returns (r: CallResult<(seq<Byte>, seq<Block>)>)
    modifies s`aesCalls, s`aesReplies, s`sent, s`incoming, s`trace
    ensures r.Ok? == (|old(s.aesReplies)| >= BlockCount(|ct|) && |old(s.incoming)| >= BlockCount(|ct|))
    ensures r.Ok? ==> s.aesReplies == old(s.aesReplies)[BlockCount(|ct|)..]
                      && s.incoming == old(s.incoming)[BlockCount(|ct|)..]
    ensures r.Ok? ==> s.aesCalls == old(s.aesCalls) + seq(BlockCount(|ct|), i => AesCall(ZeroBytes(16), kc))
    ensures r.Ok? ==> s.sent == old(s.sent) + Pads(ct)
    ensures r.Ok? ==> r.value.0
                      == ClientPlaintext(ct, old(s.incoming)[..BlockCount(|ct|)], old(s.aesReplies)[..BlockCount(|ct|)])
    ensures r.Ok? ==> r.value.1 == Pads(ct) && s.trace == old(s.trace) + Rounds(BlockCount(|ct|), [Put, Joint, Get])
  {
    hide ClientPlaintext, PlainProgress, PadsProgress, Rounds, Chunk16, ValidBytes;
    ghost var from := Tape(s.aesCalls, s.aesReplies, s.sent, s.incoming, s.trace);
    var pt: seq<Byte>, blocks: seq<Block>, blk := [], [], 0;
    DecryptStarts(ct, kc, from);
    while blk < BlockCount(|ct|)
      invariant blk <= BlockCount(|ct|)
      invariant DecryptProgress(ct, kc, from, Tape(s.aesCalls, s.aesReplies, s.sent, s.incoming, s.trace), blk, pt,
                                blocks)
    {
      FromStep(ct, blk);
      var block := Padded(Chunk16(ct, blk));
      ghost var now := Tape(s.aesCalls, s.aesReplies, s.sent, s.incoming, s.trace);
      var p :- ClientDecryptBlock(s, kc, block);
      DecryptStep(ct, kc, from, now, blk, pt, blocks, block, p);
      blocks := blocks + [ZeroPad(block, ValidBytes(|ct|, blk))];
      pt := pt + p[..ValidBytes(|ct|, blk)];
      blk := blk + 1;
    }
    DecryptEnds(ct, kc, from, Tape(s.aesCalls, s.aesReplies, s.sent, s.incoming, s.trace), pt, blocks);
    r := HmacParties.Ok((pt, blocks));
  }

  ghost predicate PlainProgress(ct: seq<Byte>, answers: seq<Block>, ksc: seq<Block>, blk: nat, pt: seq<Byte>)
    requires blk <= BlockCount(|ct|) == |answers| == |ksc|
  {
    && BlockCount(|From(ct, blk)|) == |ksc| - blk
    && pt + ClientPlaintext(From(ct, blk), answers[blk..], ksc[blk..]) == ClientPlaintext(ct, answers, ksc)
  }

  lemma PlainStep(ct: seq<Byte>, answers: seq<Block>, ksc: seq<Block>, blk: nat, pt: seq<Byte>)
    requires blk < BlockCount(|ct|) == |answers| == |ksc| && PlainProgress(ct, answers, ksc, blk, pt)
    ensures
      var p := XorBytes(answers[blk], XorBytes(Padded(Chunk16(ct, blk)), ksc[blk]));
      PlainProgress(ct, answers, ksc, blk + 1, pt + p[..ValidBytes(|ct|, blk)])
  {
    FromStep(ct, blk);
    assert answers[blk..][1..] == answers[blk + 1..] && ksc[blk..][1..] == ksc[blk + 1..];
    PlaintextUnfolds(From(ct, blk), answers[blk..], ksc[blk..], pt, ClientPlaintext(ct, answers, ksc));
  }

  lemma PlaintextUnfolds(c: seq<Byte>, answers: seq<Block>, kc: seq<Block>, done: seq<Byte>, all: seq<Byte>)
    requires c != [] && |answers| == |kc| == BlockCount(|c|) && done + ClientPlaintext(c, answers, kc) == all
    ensures done + XorBytes(answers[0], XorBytes(Padded(Head(c)), kc[0]))[..|Head(c)|]
            + ClientPlaintext(Tail(c), answers[1..], kc[1..]) == all
  {}

  function ClientDecryptOps(n: nat): seq<Op> {
    [Joint, Joint] + Rounds(n, [Put, Joint, Get]) + [Joint, Get]
  }

  /** The client's decryption; a wrong tag is an error. */
  method ClientDecryptGcm(s: Session, kc: Block, ct: seq<Byte>, aad: seq<Byte>, received: Block)
    returns (r: CallResult<Decrypted>)
    modifies s
    ensures r.Ok? == (|old(s.aesReplies)| >= BlockCount(|ct|) + 2 && |old(s.chainReplies)| >= 1
                      && |old(s.incoming)| >= BlockCount(|ct|) + 1)
    ensures r.Ok? ==> s.aesCalls == old(s.aesCalls) + ClientAesCalls(kc, BlockCount(|ct|))
    ensures r.Ok? ==> s.chainCalls == old(s.chainCalls) + [ClientDecryptChain(aad, ct, old(s.aesReplies)[0])]
    ensures r.Ok? ==> s.sent == old(s.sent) + Pads(ct) && s.trace == old(s.trace) + ClientDecryptOps(BlockCount(|ct|))
    ensures r.Ok? ==> r.value == ClientDecrypted(ct, received, old(s.aesReplies)[..BlockCount(|ct|) + 2],
                                                 old(s.chainReplies)[0],
                                                 old(s.incoming)[..BlockCount(|ct|) + 1])
  {
    hide ClientPlaintext, ClientDecrypted, ClientAesCalls, Rounds;
    ghost var replies, incoming := s.aesReplies, s.incoming;
    var start :- StartBlocks(s, ZeroBytes(16), kc);
    var h, mask := start.0, start.1;
    var blocks := PadBlocks(aad);
    var text :- ClientDecryptText(s, kc, ct);
    var expected :- JoinTag(s, h, mask, blocks + text.1 + [ZeroBytes(16)]);
    ClientCallsMade(kc, BlockCount(|ct|), old(s.aesCalls));
    WholeTrace(old(s.trace), BlockCount(|ct|), [Put, Joint, Get], Joint, Get);
    DecryptedFrom(ct, received, replies, incoming, old(s.chainReplies)[0], expected);
    r := HmacParties.Ok(if expected != received then Rejected else Accepted(text.0));
  }

  /** The client's result, from the replies and the blocks as they came. */
  lemma DecryptedFrom(ct: seq<Byte>, received: Block, replies: seq<Block>, incoming: seq<Block>, x: Block,
                      expected: Block)
    requires BlockCount(|ct|) + 2 <= |replies| && BlockCount(|ct|) < |incoming|
    requires expected == XorBytes(incoming[BlockCount(|ct|)], XorBytes(x, replies[1]))
    ensures ClientDecrypted(ct, received, replies[..BlockCount(|ct|) + 2], x, incoming[..BlockCount(|ct|) + 1])
         == if expected != received then Rejected
            else Accepted(ClientPlaintext(ct, incoming[..BlockCount(|ct|)], replies[2..][..BlockCount(|ct|)]))
  {
    Prefixes(replies, incoming, BlockCount(|ct|));
  }
}
