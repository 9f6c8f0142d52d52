/** The notary's and the client's HMAC functions, as they build their blocks and make their
    calls to the joint compression. */
module HmacParties {
  import opened Bytes
  import opened Hmac

  datatype CallResult<+T> = Ok(value: T) | Panic | Disconnected {
    predicate IsFailure() {
      !Ok?
    }

    function PropagateFailure<U>(): CallResult<U>
      requires !Ok?
    {
      if Panic? then Panic else Disconnected
    }

    function Extract(): T
      requires Ok?
    {
      value
    }
  }

  /** One party's end of a session: the calls it made, and the replies it will get. */
  class Session {
    var calls: seq<Call>
    var replies: seq<Digest>

    constructor (replies: seq<Digest>)
      ensures calls == [] && this.replies == replies
    {
      calls := [];
      this.replies := replies;
    }

    method CompressXor(iv: Digest, block: Chunk) returns (r: CallResult<Digest>)
      modifies this
      ensures calls == old(calls) + [Call(iv, block)]
      ensures r.Ok? == (old(replies) != []) && !r.Panic?
      ensures r.Ok? ==> r.value == old(replies)[0] && replies == old(replies)[1..]
    {
      calls := calls + [Call(iv, block)];
      if replies == [] {
        return Disconnected;
      }
      r := Ok(replies[0]);
      replies := replies[1..];
    }
  }

  // ---------------------------------------------------------------- blocks

  method NotaryKeyBlocks(keyN: Digest) returns (ipad: Chunk, opad: Chunk)
    ensures ipad == NotaryKeyBlock(keyN, IPAD) && opad == NotaryKeyBlock(keyN, OPAD)
  {
    ipad, opad := ZeroBytes(64), ZeroBytes(64);
    var i := 0;
    while i < 32
      invariant i <= 32
      invariant forall k :: 0 <= k < i ==> ipad[k] == XorByte(keyN[k], IPAD) && opad[k] == XorByte(keyN[k], OPAD)
    {
      ipad := ipad[i := XorByte(keyN[i], 0x36)];
      opad := opad[i := XorByte(keyN[i], 0x5c)];
      i := i + 1;
    }
    while i < 64
      invariant 32 <= i <= 64
      invariant forall k :: 0 <= k < 32 ==> ipad[k] == XorByte(keyN[k], IPAD) && opad[k] == XorByte(keyN[k], OPAD)
      invariant forall k :: 32 <= k < i ==> ipad[k] == IPAD && opad[k] == OPAD
    {
      ipad := ipad[i := 0x36];
      opad := opad[i := 0x5c];
      i := i + 1;
    }
    assert ipad == NotaryKeyBlock(keyN, IPAD);
    assert opad == NotaryKeyBlock(keyN, OPAD);
  }

  /** Bytes `src` written over `block` from position `at`. */
  function Overwrite(block: Chunk, at: nat, src: seq<Byte>): Chunk
    requires at + |src| <= 64
  {
    block[..at] + src + block[at + |src|..]
  }

  /** The marker byte and the length; a longer message is a panic. */
  method NotaryPadding(msgLen: nat) returns (r: CallResult<Chunk>)
    ensures r.Ok? == (msgLen <= 55) && !r.Disconnected?
    ensures r.Ok? ==> r.value == NotaryInnerPadding(msgLen)
  {
    if msgLen > 55 {
      return Panic;
    }
    var block: Chunk := ZeroBytes(64);
    block := block[msgLen := 0x80];
    block := Overwrite(block, 56, BigEndian(8, (64 + msgLen) * 8));
    assert block == NotaryInnerPadding(msgLen);
    r := Ok(block);
  }

  method ClientMessage(msg: seq<Byte>) returns (r: CallResult<Chunk>)
    ensures r.Ok? == (|msg| <= 55) && !r.Disconnected?
    ensures r.Ok? ==> r.value == ClientInnerMsg(msg)
  {
    if |msg| > 55 {
      return Panic;
    }
    r := Ok(Overwrite(ZeroBytes(64), 0, msg));
    assert r.value == ClientInnerMsg(msg);
  }

  method OuterSuffixPadding() returns (s: seq<Byte>)
    ensures s == OuterSuffix()
  {
    s := ZeroBytes(32);
    s := s[0 := 0x80];
    s := s[..24] + BigEndian(8, (64 + 32) * 8);
  }

  // ---------------------------------------------------------------- the notary

  method NotaryHmac(s: Session, keyN: Digest, msgLen: nat) returns (r: CallResult<Digest>)
    modifies s
    ensures r.Ok? == (msgLen <= 55 && |old(s.replies)| >= 4)
    ensures r.Panic? == (msgLen > 55 && |old(s.replies)| >= 1)
    ensures r.Ok? ==> r.value == old(s.replies)[3] && s.replies == old(s.replies)[4..]
    ensures r.Ok? ==> s.calls == old(s.calls) + NotaryHmacCalls(keyN, NotaryInnerPadding(msgLen), old(s.replies)[..4])
  {
    var kIpad, kOpad := NotaryKeyBlocks(keyN);
    var hInner1 :- s.CompressXor(InitialIv(), kIpad);
    var pad :- NotaryPadding(msgLen);
    r := NotaryRest(s, hInner1, pad, kOpad);
  }

  method NotaryRest(s: Session, hInner1: Digest, pad: Chunk, kOpad: Chunk) returns (r: CallResult<Digest>)
    modifies s
    ensures r.Ok? == (|old(s.replies)| >= 3) && !r.Panic?
    ensures r.Ok? ==> r.value == old(s.replies)[2] && s.replies == old(s.replies)[3..]
    ensures r.Ok? ==> s.calls == old(s.calls) + [Call(hInner1, pad), Call(InitialIv(), kOpad),
                                                 Call(old(s.replies)[1], old(s.replies)[0] + OuterSuffix())]
  {
    var hInnerFinal :- s.CompressXor(hInner1, pad);
    var hOuter1 :- s.CompressXor(InitialIv(), kOpad);
    var suffix := OuterSuffixPadding();
    r := s.CompressXor(hOuter1, hInnerFinal + suffix);
  }

  method NotaryHmacXorMsg(s: Session, keyN: Digest, msgN: Digest) returns (r: CallResult<Digest>)
    modifies s
    ensures r.Ok? == (|old(s.replies)| >= 4) && !r.Panic?
    ensures r.Ok? ==> r.value == old(s.replies)[3] && s.replies == old(s.replies)[4..]
    ensures r.Ok? ==> s.calls == old(s.calls) + NotaryHmacCalls(keyN, msgN + OuterSuffix(), old(s.replies)[..4])
  {
    var kIpad, kOpad := NotaryKeyBlocks(keyN);
    var hInner1 :- s.CompressXor(InitialIv(), kIpad);
    var block: Chunk := Overwrite(ZeroBytes(64), 0, msgN);
    block := block[32 := 0x80];
    block := Overwrite(block, 56, BigEndian(8, (64 + 32) * 8));
    assert block == msgN + OuterSuffix();
    r := NotaryRest(s, hInner1, block, kOpad);
  }

  // ---------------------------------------------------------------- the client

  method ClientHmac(s: Session, keyC: Digest, msg: seq<Byte>) returns (r: CallResult<Digest>)
    modifies s
    ensures r.Ok? == (|msg| <= 55 && |old(s.replies)| >= 4)
    ensures r.Panic? == (|msg| > 55 && |old(s.replies)| >= 1)
    ensures r.Ok? ==> r.value == old(s.replies)[3] && s.replies == old(s.replies)[4..]
    ensures r.Ok? ==> s.calls == old(s.calls) + ClientHmacCalls(keyC, ClientInnerMsg(msg), old(s.replies)[..4])
  {
    var keyBlock: Chunk := Overwrite(ZeroBytes(64), 0, keyC);
    assert keyBlock == ClientKeyBlock(keyC);
    var hInner1 :- s.CompressXor(ZeroBytes(32), keyBlock);
    var block :- ClientMessage(msg);
    r := ClientRest(s, hInner1, block, keyBlock);
  }

  method ClientRest(s: Session, hInner1: Digest, block: Chunk, keyBlock: Chunk) returns (r: CallResult<Digest>)
    modifies s
    ensures r.Ok? == (|old(s.replies)| >= 3) && !r.Panic?
    ensures r.Ok? ==> r.value == old(s.replies)[2] && s.replies == old(s.replies)[3..]
    ensures r.Ok? ==> s.calls == old(s.calls) + [Call(hInner1, block), Call(ZeroBytes(32), keyBlock),
                                                 Call(old(s.replies)[1], old(s.replies)[0] + ZeroBytes(32))]
  {
    var hInnerFinal :- s.CompressXor(hInner1, block);
    var hOuter1 :- s.CompressXor(ZeroBytes(32), keyBlock);
    var blockC: Chunk := Overwrite(ZeroBytes(64), 0, hInnerFinal);
    assert blockC == hInnerFinal + ZeroBytes(32);
    r := s.CompressXor(hOuter1, blockC);
  }

  method ClientHmacXorMsg(s: Session, keyC: Digest, msgC: Digest) returns (r: CallResult<Digest>)
    modifies s
    ensures r.Ok? == (|old(s.replies)| >= 4) && !r.Panic?
    ensures r.Ok? ==> r.value == old(s.replies)[3] && s.replies == old(s.replies)[4..]
    ensures r.Ok? ==> s.calls == old(s.calls) + ClientHmacCalls(keyC, msgC + ZeroBytes(32), old(s.replies)[..4])
  {
    var keyBlock: Chunk := Overwrite(ZeroBytes(64), 0, keyC);
    assert keyBlock == ClientKeyBlock(keyC);
    var hInner1 :- s.CompressXor(ZeroBytes(32), keyBlock);
    var block: Chunk := Overwrite(ZeroBytes(64), 0, msgC);
    assert block == msgC + ZeroBytes(32);
    r := ClientRest(s, hInner1, block, keyBlock);
  }
}
