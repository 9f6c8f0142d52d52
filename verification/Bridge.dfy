/** The record bridge: operation headers on the channel, the notary's worker loop and its
    log, and the client's operations. The joint encryption or decryption between a header and
    its commit bytes leaves nothing on the channel and is one step of both. */
module Bridge {
  import opened Bytes
  import opened TlsWire
  import opened Bundle

  datatype Header = Header(op: Byte, seqNo: nat, aad: seq<Byte>, payloadLen: nat)

  const OP_ENCRYPT: Byte := 1
  const OP_DECRYPT: Byte := 2
  const OP_FINISH: Byte := 3

  function HeaderBytes(h: Header): (s: seq<Byte>)
    ensures |s| == 15 + |h.aad|
  {
    [h.op] + BigEndian(8, h.seqNo) + BigEndian(2, |h.aad|) + h.aad + BigEndian(4, h.payloadLen)
  }

  /** The numeric fields' types. */
  predicate Typed(h: Header) {
    h.seqNo < 0x1_0000_0000_0000_0000 && h.payloadLen < 0x1_0000_0000
  }

  /** A header read from the front of the input, and how many bytes it took. */
  function ReadHeader(s: seq<Byte>): (r: Option<(Header, nat)>)
    ensures r.Some? ==> 15 <= r.value.1 <= |s|
  {
    if |s| < 11 then None
    else
      var aadLen := FromBigEndian(s[9..11]);
      if 15 + aadLen > |s| then None
      else Some((Header(s[0], FromBigEndian(s[1..9]), s[11..11 + aadLen], FromBigEndian(s[11 + aadLen..15 + aadLen])),
                 15 + aadLen))
  }

  lemma HeaderParts(h: Header, rest: seq<Byte>)
    ensures
      var s := HeaderBytes(h) + rest;
      && s[0] == h.op && s[1..9] == BigEndian(8, h.seqNo) && s[9..11] == BigEndian(2, |h.aad|)
      && s[11..11 + |h.aad|] == h.aad && s[11 + |h.aad|..15 + |h.aad|] == BigEndian(4, h.payloadLen)
      && s[15 + |h.aad|..] == rest
  {
    var s, a := HeaderBytes(h) + rest, [h.op] + BigEndian(8, h.seqNo) + BigEndian(2, |h.aad|);
    var b := h.aad + BigEndian(4, h.payloadLen) + rest;
    assert s == a + b;
    assert s[11..] == b;
    assert s[1..9] == a[1..9] == BigEndian(8, h.seqNo);
    assert s[9..11] == a[9..11] == BigEndian(2, |h.aad|);
    assert s[11..11 + |h.aad|] == b[..|h.aad|];
    assert s[11 + |h.aad|..15 + |h.aad|] == b[|h.aad|..|h.aad| + 4];
    assert s[15 + |h.aad|..] == b[|h.aad| + 4..];
  }

  /** Reading returns the written header, and takes exactly its bytes, precisely when the
      associated data's length fits its two-byte field; otherwise the length is cut. */
  lemma HeaderRoundTrip(h: Header, rest: seq<Byte>)
    requires Typed(h)
    ensures ReadHeader(HeaderBytes(h) + rest) == Some((h, |HeaderBytes(h)|)) <==> |h.aad| < 0x1_0000
  {
    Widths();
    HeaderParts(h, rest);
    BigEndianInverse(8, h.seqNo);
    BigEndianInverse(4, h.payloadLen);
    if |h.aad| < 0x1_0000 {
      BigEndianInverse(2, |h.aad|);
    } else {
      FromBigEndianInverse(BigEndian(2, |h.aad|));
    }
  }

  // ---------------------------------------------------------------- the notary

  datatype Outcome =
    | PeerClosed
    | Failed
    | Finished(sessionId: seq<Byte>, serverName: seq<Byte>, records: seq<RecordCommit>, rest: seq<Byte>)

  /** A string after its two-byte length. */
  function ReadString(s: seq<Byte>): (r: Option<(seq<Byte>, nat)>)
    ensures r.Some? ==> 2 <= r.value.1 <= |s|
  {
    if |s| < 2 then None
    else
      var n := FromBigEndian(s[..2]);
      if 2 + n > |s| then None else Some((s[2..2 + n], 2 + n))
  }

  /** What the worker makes of the rest of its input, with the log so far. */
  function Worker(hash: seq<Byte> -> seq<Byte>, utf8: seq<Byte> -> bool, s: seq<Byte>, log: seq<RecordCommit>): Outcome
    decreases |s|
  {
    match ReadHeader(s)
    case None => PeerClosed
    case Some(hd) =>
      var h, rest := hd.0, s[hd.1..];
      if h.op == OP_ENCRYPT || h.op == OP_DECRYPT then
        var n := h.payloadLen + 16;
        if n > |rest| then Failed
        else Worker(hash, utf8, rest[n..], log + [RecordCommit(h.op, h.seqNo, h.aad, hash(rest[..n]))])
      else if h.op == OP_FINISH then Finish(utf8, rest, log)
      else Failed
  }

  /** The two names after a finish header; both must be valid text. */
  function Finish(utf8: seq<Byte> -> bool, rest: seq<Byte>, log: seq<RecordCommit>): Outcome {
    match ReadString(rest)
    case None => Failed
    case Some(sid) =>
      if !utf8(sid.0) then Failed
      else match ReadString(rest[sid.1..])
        case None => Failed
        case Some(name) =>
          if !utf8(name.0) then Failed else Finished(sid.0, name.0, log, rest[sid.1..][name.1..])
  }

  /** The bytes a party will still read. */
  class Input {
    var data: seq<Byte>

    constructor (data: seq<Byte>)
      ensures this.data == data
    {
      this.data := data;
    }

    method ReadBytes(n: nat) returns (r: Option<seq<Byte>>)
      modifies this
      ensures r.Some? == (n <= |old(data)|)
      ensures r.Some? ==> r.value == old(data)[..n] && data == old(data)[n..]
      ensures r.None? ==> data == old(data)
    {
      if n > |data| {
        return None;
      }
      r := Some(data[..n]);
      data := data[n..];
    }
  }

  method ReadHeaderFrom(ch: Input) returns (r: Option<Header>)
    modifies ch
    ensures r.None? == ReadHeader(old(ch.data)).None?
    ensures r.Some? ==> ReadHeader(old(ch.data)) == Some((r.value, |old(ch.data)| - |ch.data|))
    ensures r.Some? ==> |ch.data| <= |old(ch.data)| && ch.data == old(ch.data)[|old(ch.data)| - |ch.data|..]
  {
    ghost var s := ch.data;
    var op := ch.ReadBytes(1);
    if op.None? { return None; }
    var seqBuf := ch.ReadBytes(8);
    if seqBuf.None? { return None; }
    var lenBuf := ch.ReadBytes(2);
    if lenBuf.None? { return None; }
    var aadLen := FromBigEndian(lenBuf.value);
    assert s[1..][..8] == s[1..9] && s[1..][8..] == s[9..] && s[9..][..2] == s[9..11] && s[9..][2..] == s[11..];
    var aad := ch.ReadBytes(aadLen);
    if aad.None? { return None; }
    var plBuf := ch.ReadBytes(4);
    if plBuf.None? { return None; }
    assert s[11..][..aadLen] == s[11..11 + aadLen] && s[11..][aadLen..] == s[11 + aadLen..];
    assert s[11 + aadLen..][..4] == s[11 + aadLen..15 + aadLen] && s[11 + aadLen..][4..] == s[15 + aadLen..];
    r := Some(Header(op.value[0], FromBigEndian(seqBuf.value), aad.value, FromBigEndian(plBuf.value)));
  }

  method ReadStringFrom(ch: Input) returns (r: Option<seq<Byte>>)
    modifies ch
    ensures r.None? == ReadString(old(ch.data)).None?
    ensures r.Some? ==>
            |ch.data| <= |old(ch.data)| && ReadString(old(ch.data)) == Some((r.value, |old(ch.data)| - |ch.data|))
    ensures r.Some? ==> ch.data == old(ch.data)[|old(ch.data)| - |ch.data|..]
  {
    ghost var s := ch.data;
    var lenBuf := ch.ReadBytes(2);
    if lenBuf.None? { return None; }
    var n := FromBigEndian(lenBuf.value);
    var buf := ch.ReadBytes(n);
    if buf.None? { return None; }
    assert s[2..][..n] == s[2..2 + n] && s[2..][n..] == s[2 + n..];
    r := Some(buf.value);
  }

  /** `SHA-256(ct || tag)`: the ciphertext, then the tag. */
  method ReadCommit(hash: seq<Byte> -> seq<Byte>, ch: Input, payloadLen: nat) returns (r: Option<seq<Byte>>)
    modifies ch
    ensures r.Some? == (payloadLen + 16 <= |old(ch.data)|)
    ensures r.Some? ==> r.value == hash(old(ch.data)[..payloadLen + 16]) && ch.data == old(ch.data)[payloadLen + 16..]
  {
    ghost var s := ch.data;
    var ct := ch.ReadBytes(payloadLen);
    if ct.None? { return None; }
    var tag := ch.ReadBytes(16);
    if tag.None? { return None; }
    assert ct.value + tag.value == s[..payloadLen + 16];
    r := Some(hash(ct.value + tag.value));
  }

  /** The notary's worker loop. */
  method RunWorker(hash: seq<Byte> -> seq<Byte>, utf8: seq<Byte> -> bool, ch: Input) returns (result: Outcome)
    modifies ch
    ensures result == Worker(hash, utf8, old(ch.data), [])
  {
    hide Worker, Finish, ReadHeader, ReadString;
    var records: seq<RecordCommit> := [];
    while true
      invariant Worker(hash, utf8, old(ch.data), []) == Worker(hash, utf8, ch.data, records)
      decreases |ch.data|
    {
      ghost var s := ch.data;
      var header := ReadHeaderFrom(ch);
      if header.None? {
        WorkerCloses(hash, utf8, s, records);
        return PeerClosed;
      }
      var h := header.value;
      ghost var rest := ch.data;
      WorkerUnfolds(hash, utf8, s, records, h, |s| - |rest|);
      if h.op == OP_ENCRYPT || h.op == OP_DECRYPT {
        var commit := ReadCommit(hash, ch, h.payloadLen);
        if commit.None? {
          return Failed;
        }
        OperationLogged(hash, utf8, h, rest, ch.data, commit.value, records);
        records := records + [RecordCommit(h.op, h.seqNo, h.aad, commit.value)];
      } else if h.op == OP_FINISH {
        result := RunFinish(utf8, ch, records);
        return;
      } else {
        return Failed;
      }
    }
  }

  /** The worker after the header `h`; `rest` is what follows it. */
  function AfterHeader(hash: seq<Byte> -> seq<Byte>, utf8: seq<Byte> -> bool, h: Header, rest: seq<Byte>,
                       log: seq<RecordCommit>): Outcome
  {
    var n := h.payloadLen + 16;
    if h.op == OP_ENCRYPT || h.op == OP_DECRYPT then
      if n > |rest| then Failed
      else Worker(hash, utf8, rest[n..], log + [RecordCommit(h.op, h.seqNo, h.aad, hash(rest[..n]))])
    else if h.op == OP_FINISH then Finish(utf8, rest, log)
    else Failed
  }

  lemma WorkerCloses(hash: seq<Byte> -> seq<Byte>, utf8: seq<Byte> -> bool, s: seq<Byte>, log: seq<RecordCommit>)
    requires ReadHeader(s).None?
    ensures Worker(hash, utf8, s, log) == PeerClosed
  {}

  lemma WorkerUnfolds(hash: seq<Byte> -> seq<Byte>, utf8: seq<Byte> -> bool, s: seq<Byte>, log: seq<RecordCommit>,
                      h: Header, n: nat)
    requires ReadHeader(s) == Some((h, n))
    ensures Worker(hash, utf8, s, log) == AfterHeader(hash, utf8, h, s[n..], log)
  {
    var rest := s[n..];
    if h.op == OP_ENCRYPT || h.op == OP_DECRYPT {
      if h.payloadLen + 16 > |rest| {
        assert Worker(hash, utf8, s, log) == Failed;
      }
    } else if h.op == OP_FINISH {
      assert Worker(hash, utf8, s, log) == Finish(utf8, rest, log);
    }
  }

  /** After an operation whose ciphertext and tag are there, its record is in the log. */
  lemma OperationLogged(hash: seq<Byte> -> seq<Byte>, utf8: seq<Byte> -> bool, h: Header, rest: seq<Byte>,
                        left: seq<Byte>, commit: seq<Byte>, log: seq<RecordCommit>)
    requires h.op == OP_ENCRYPT || h.op == OP_DECRYPT
    requires h.payloadLen + 16 <= |rest| && left == rest[h.payloadLen + 16..]
             && commit == hash(rest[..h.payloadLen + 16])
    ensures AfterHeader(hash, utf8, h, rest, log)
         == Worker(hash, utf8, left, log + [RecordCommit(h.op, h.seqNo, h.aad, commit)])
  {
    hide Worker, Finish;
  }

  method RunFinish(utf8: seq<Byte> -> bool, ch: Input, records: seq<RecordCommit>) returns (result: Outcome)
    modifies ch
    ensures result == Finish(utf8, old(ch.data), records)
  {
    var sid := ReadStringFrom(ch);
    if sid.None? || !utf8(sid.value) {
      return Failed;
    }
    var name := ReadStringFrom(ch);
    if name.None? || !utf8(name.value) {
      return Failed;
    }
    result := Finished(sid.value, name.value, records, ch.data);
  }

  // ---------------------------------------------------------------- the client

  /** A successful operation: the ciphertext and tag it produced or was given. */
  datatype Operation = Encrypt(seqNo: nat, aad: seq<Byte>, ct: seq<Byte>, tag: seq<Byte>)
                     | Decrypt(seqNo: nat, aad: seq<Byte>, ct: seq<Byte>, tag: seq<Byte>)

  function OpByte(o: Operation): Byte {
    if o.Encrypt? then OP_ENCRYPT else OP_DECRYPT
  }

  /** The lengths fit their fields; the tag is a block. Encryption keeps the length, so the
      announced payload length is the ciphertext's. */
  predicate FitsOperation(o: Operation) {
    o.seqNo < 0x1_0000_0000_0000_0000 && |o.aad| < 0x1_0000 && |o.ct| < 0x1_0000_0000 && |o.tag| == 16
  }

  /** What the client writes for one operation: the header, then ciphertext and tag. */
  function OperationBytes(o: Operation): seq<Byte> {
    HeaderBytes(Header(OpByte(o), o.seqNo, o.aad, |o.ct|)) + (o.ct + o.tag)
  }

  function FinishBytes(sessionId: seq<Byte>, serverName: seq<Byte>): seq<Byte> {
    HeaderBytes(Header(OP_FINISH, 0, [], 0))
        + (BigEndian(2, |sessionId|) + sessionId + (BigEndian(2, |serverName|) + serverName))
  }

  /** What the client writes in a session: its operations, then the finish. */
  function SessionBytes(os: seq<Operation>, sessionId: seq<Byte>, serverName: seq<Byte>): seq<Byte> {
    if os == [] then FinishBytes(sessionId, serverName)
        else OperationBytes(os[0]) + SessionBytes(os[1..], sessionId, serverName)
  }

  /** The log line of an operation: 1 stands for an encryption, 2 for a decryption. */
  function CommitOf(hash: seq<Byte> -> seq<Byte>, o: Operation): RecordCommit {
    match o
    case Encrypt(seqNo, aad, ct, tag) => RecordCommit(1, seqNo, aad, hash(ct + tag))
    case Decrypt(seqNo, aad, ct, tag) => RecordCommit(2, seqNo, aad, hash(ct + tag))
  }

  /** What the client writes starts with the byte of the wire protocol: 1 for an encryption, 2
      for a decryption, 3 for the finish. */
  lemma FirstBytes(o: Operation, sessionId: seq<Byte>, serverName: seq<Byte>)
    ensures OperationBytes(o)[0] == if o.Encrypt? then 1 else 2
    ensures FinishBytes(sessionId, serverName)[0] == 3
  {
    HeaderParts(Header(OpByte(o), o.seqNo, o.aad, |o.ct|), o.ct + o.tag);
    HeaderParts(Header(OP_FINISH, 0, [], 0),
                BigEndian(2, |sessionId|) + sessionId + (BigEndian(2, |serverName|) + serverName));
  }

  function CommitsOf(hash: seq<Byte> -> seq<Byte>, os: seq<Operation>): (r: seq<RecordCommit>)
    ensures |r| == |os|
  {
    seq(|os|, i requires 0 <= i < |os| => CommitOf(hash, os[i]))
  }

  /** The bytes a party has written. */
  class Output {
    var sent: seq<Byte>

    constructor ()
      ensures sent == []
    {
      sent := [];
    }

    method WriteBytes(b: seq<Byte>)
      modifies this
      ensures sent == old(sent) + b
    {
      sent := sent + b;
    }
  }

  method WriteHeader(ch: Output, h: Header)
    modifies ch
    ensures ch.sent == old(ch.sent) + HeaderBytes(h)
  {
    ch.WriteBytes([h.op]);
    ch.WriteBytes(BigEndian(8, h.seqNo));
    ch.WriteBytes(BigEndian(2, |h.aad|));
    ch.WriteBytes(h.aad);
    ch.WriteBytes(BigEndian(4, h.payloadLen));
  }

  lemma FivePieces(before: seq<Byte>, a: seq<Byte>, b: seq<Byte>, c: seq<Byte>, d: seq<Byte>, e: seq<Byte>)
    ensures before + a + b + c + d + e == before + (a + (b + c + (d + e)))
  {}

  method WriteFinish(ch: Output, sessionId: seq<Byte>, serverName: seq<Byte>)
    modifies ch
    ensures ch.sent == old(ch.sent) + FinishBytes(sessionId, serverName)
  {
    ghost var before, header := ch.sent, HeaderBytes(Header(OP_FINISH, 0, [], 0));
    WriteHeader(ch, Header(OP_FINISH, 0, [], 0));
    ch.WriteBytes(BigEndian(2, |sessionId|));
    ch.WriteBytes(sessionId);
    ch.WriteBytes(BigEndian(2, |serverName|));
    ch.WriteBytes(serverName);
    FivePieces(before, header, BigEndian(2, |sessionId|), sessionId, BigEndian(2, |serverName|), serverName);
  }

  method WriteOperation(ch: Output, o: Operation)
    modifies ch
    ensures ch.sent == old(ch.sent) + OperationBytes(o)
  {
    WriteHeader(ch, Header(OpByte(o), o.seqNo, o.aad, |o.ct|));
    ch.WriteBytes(o.ct);
    ch.WriteBytes(o.tag);
  }

  /** The client's operations one after the other, then the finish. */
  method WriteSession(ch: Output, os: seq<Operation>, sessionId: seq<Byte>, serverName: seq<Byte>)
    modifies ch
    ensures ch.sent == old(ch.sent) + SessionBytes(os, sessionId, serverName)
  {
    var i := 0;
    assert os[0..] == os;
    while i < |os|
      invariant i <= |os|
      invariant ch.sent + SessionBytes(os[i..], sessionId, serverName)
                == old(ch.sent) + SessionBytes(os, sessionId, serverName)
    {
      var o := os[i];
      ghost var before, more := ch.sent, SessionBytes(os[i + 1..], sessionId, serverName);
      assert os[i..][1..] == os[i + 1..];
      WriteOperation(ch, o);
      assert (before + OperationBytes(o)) + more == before + (OperationBytes(o) + more);
      i := i + 1;
    }
    WriteFinish(ch, sessionId, serverName);
  }

  lemma WorkerOperation(hash: seq<Byte> -> seq<Byte>, utf8: seq<Byte> -> bool, o: Operation, rest: seq<Byte>,
                        log: seq<RecordCommit>)
    requires FitsOperation(o)
    ensures Worker(hash, utf8, OperationBytes(o) + rest, log) == Worker(hash, utf8, rest, log + [CommitOf(hash, o)])
  {
    var h := Header(OpByte(o), o.seqNo, o.aad, |o.ct|);
    var more := o.ct + o.tag + rest;
    var s := OperationBytes(o) + rest;
    assert s == HeaderBytes(h) + more;
    HeaderRoundTrip(h, more);
    assert s[|HeaderBytes(h)|..] == more;
    assert more[..|o.ct| + 16] == o.ct + o.tag && more[|o.ct| + 16..] == rest;
  }

  lemma ReadWritten(t: seq<Byte>, rest: seq<Byte>)
    requires |t| < 0x1_0000
    ensures ReadString(BigEndian(2, |t|) + t + rest) == Some((t, 2 + |t|))
    ensures (BigEndian(2, |t|) + t + rest)[2 + |t|..] == rest
  {
    var s := BigEndian(2, |t|) + t + rest;
    Widths();
    BigEndianInverse(2, |t|);
    assert s[..2] == BigEndian(2, |t|) && s[2..2 + |t|] == t;
  }

  lemma WorkerFinish(hash: seq<Byte> -> seq<Byte>, utf8: seq<Byte> -> bool, sid: seq<Byte>, name: seq<Byte>,
                     rest: seq<Byte>, log: seq<RecordCommit>)
    requires |sid| < 0x1_0000 && |name| < 0x1_0000 && utf8(sid) && utf8(name)
    ensures Worker(hash, utf8, FinishBytes(sid, name) + rest, log) == Finished(sid, name, log, rest)
  {
    var h := Header(OP_FINISH, 0, [], 0);
    var second := BigEndian(2, |name|) + name + rest;
    var more := BigEndian(2, |sid|) + sid + second;
    var s := FinishBytes(sid, name) + rest;
    assert s == HeaderBytes(h) + more;
    HeaderRoundTrip(h, more);
    assert s[|HeaderBytes(h)|..] == more;
    ReadWritten(sid, second);
    ReadWritten(name, rest);
  }

  /** Any run of successful operations and a finish. The worker reads exactly what the client
      wrote, and its log is the client's operations in order, each with the hash of its
      ciphertext and tag. */
  lemma {:induction false} SessionLogged(hash: seq<Byte> -> seq<Byte>, utf8: seq<Byte> -> bool, os: seq<Operation>,
                                         sid: seq<Byte>, name: seq<Byte>,
                                            rest: seq<Byte>, log: seq<RecordCommit>)
    requires forall i :: 0 <= i < |os| ==> FitsOperation(os[i])
    requires |sid| < 0x1_0000 && |name| < 0x1_0000 && utf8(sid) && utf8(name)
    ensures Worker(hash, utf8, SessionBytes(os, sid, name) + rest, log)
            == Finished(sid, name, log + CommitsOf(hash, os), rest)
    decreases |os|
  {
    if os == [] {
      assert log + CommitsOf(hash, os) == log;
      WorkerFinish(hash, utf8, sid, name, rest, log);
    } else {
      var first, more := OperationBytes(os[0]), SessionBytes(os[1..], sid, name);
      assert (first + more) + rest == first + (more + rest);
      WorkerOperation(hash, utf8, os[0], more + rest, log);
      SessionLogged(hash, utf8, os[1..], sid, name, rest, log + [CommitOf(hash, os[0])]);
      CommitsFirst(hash, os, log);
    }
  }

  lemma CommitsFirst(hash: seq<Byte> -> seq<Byte>, os: seq<Operation>, log: seq<RecordCommit>)
    requires os != []
    ensures (log + [CommitOf(hash, os[0])]) + CommitsOf(hash, os[1..]) == log + CommitsOf(hash, os)
  {
    assert CommitsOf(hash, os) == [CommitOf(hash, os[0])] + CommitsOf(hash, os[1..]);
  }
}
