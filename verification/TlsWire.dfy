/** TLS records and handshake messages as bytes: two printers, and the parsers of the guest
    and of the notary. */
module TlsWire {
  import opened Bytes

  datatype Option<+T> = None | Some(value: T)

  function Prepend<T>(done: seq<T>, rest: Option<seq<T>>): Option<seq<T>> {
    match rest
    case None => None
    case Some(more) => Some(done + more)
  }

  lemma PrependNothing<T>(done: seq<T>, rest: Option<seq<T>>)
    ensures Prepend([], rest) == rest && Prepend(done, Some([])) == Some(done)
  {
    assert done + [] == done;
    if rest.Some? {
      assert [] + rest.value == rest.value;
    }
  }

  lemma PrependTwice<T>(a: seq<T>, b: seq<T>, rest: Option<seq<T>>)
    ensures Prepend(a, Prepend(b, rest)) == Prepend(a + b, rest)
  {
    if rest.Some? {
      assert a + (b + rest.value) == (a + b) + rest.value;
    }
  }

  // ---------------------------------------------------------------- records

  /** Section 5.1 of RFC 8446; `version` is a 16-bit field. */
  datatype Record = Record(contentType: Byte, version: nat, payload: seq<Byte>)

  const HANDSHAKE: Byte := 22

  /** The record's fields fit their width on the wire. */
  predicate Fits(r: Record) {
    r.version < 0x1_0000 && |r.payload| < 0x1_0000
  }

  function RecordBytes(r: Record): (s: seq<Byte>)
    ensures |s| == 5 + |r.payload|
  {
    [r.contentType] + BigEndian(2, r.version) + BigEndian(2, |r.payload|) + r.payload
  }

  function RecordsBytes(rs: seq<Record>): seq<Byte> {
    if rs == [] then [] else RecordBytes(rs[0]) + RecordsBytes(rs[1..])
  }

  /** The record at the front of at least five bytes, if it is all there. */
  function FirstRecord(s: seq<Byte>): (r: Option<Record>)
    requires |s| >= 5
    ensures r.Some? ==> 5 + |r.value.payload| <= |s|
  {
    var length := FromBigEndian(s[3..5]);
    if 5 + length > |s| then None else Some(Record(s[0], FromBigEndian(s[1..3]), s[5..5 + length]))
  }

  /** Both parsers of records: a tail shorter than a header is ignored, a truncated payload
      fails (a panic in the guest, no result in the notary). */
  function ParseRecords(s: seq<Byte>): Option<seq<Record>>
    decreases |s|
  {
    if |s| < 5 then Some([])
    else match FirstRecord(s)
      case None => None
      case Some(r) => Prepend([r], ParseRecords(s[5 + |r.payload|..]))
  }

  lemma FirstOfPrinted(r: Record, rest: seq<Byte>)
    requires Fits(r)
    ensures FirstRecord(RecordBytes(r) + rest) == Some(r)
  {
    var s := RecordBytes(r) + rest;
    Widths();
    BigEndianInverse(2, r.version);
    BigEndianInverse(2, |r.payload|);
    assert s[1..3] == BigEndian(2, r.version);
    assert s[3..5] == BigEndian(2, |r.payload|);
    assert s[5..5 + |r.payload|] == r.payload;
    assert s[0] == r.contentType;
  }

  /** Parsing printed records returns them, whatever short tail follows. */
  lemma {:induction false} ParsePrintedRecords(rs: seq<Record>, tail: seq<Byte>)
    requires (forall r :: r in rs ==> Fits(r)) && |tail| < 5
    ensures ParseRecords(RecordsBytes(rs) + tail) == Some(rs)
    decreases |rs|
  {
    if rs == [] {
      assert RecordsBytes(rs) + tail == tail;
    } else {
      var s, rest := RecordsBytes(rs) + tail, RecordsBytes(rs[1..]) + tail;
      assert s == RecordBytes(rs[0]) + rest;
      FirstOfPrinted(rs[0], rest);
      assert s[5 + |rs[0].payload|..] == rest;
      ParsePrintedRecords(rs[1..], tail);
      assert rs == [rs[0]] + rs[1..];
    }
  }

  lemma PrintedFirst(s: seq<Byte>)
    requires |s| >= 5 && FirstRecord(s).Some?
    ensures Fits(FirstRecord(s).value)
    ensures RecordBytes(FirstRecord(s).value) == s[..5 + |FirstRecord(s).value.payload|]
  {
    var r := FirstRecord(s).value;
    Widths();
    FromBigEndianInverse(s[1..3]);
    FromBigEndianInverse(s[3..5]);
    var p := RecordBytes(r);
    assert p[0] == s[0] && p[1..3] == s[1..3] && p[3..5] == s[3..5] && p[5..] == s[5..5 + |r.payload|];
    assert s[..5 + |r.payload|] == [s[0]] + s[1..3] + s[3..5] + s[5..5 + |r.payload|];
  }

  /** Printing what was parsed gives the input back, up to a tail shorter than a header. */
  lemma {:induction false} PrintParsedRecords(s: seq<Byte>) returns (tail: seq<Byte>)
    requires ParseRecords(s).Some?
    ensures |tail| < 5 && RecordsBytes(ParseRecords(s).value) + tail == s
    ensures forall r :: r in ParseRecords(s).value ==> Fits(r)
    decreases |s|
  {
    if |s| < 5 {
      tail := s;
    } else {
      var r := FirstRecord(s).value;
      var n := 5 + |r.payload|;
      PrintedFirst(s);
      tail := PrintParsedRecords(s[n..]);
      var rs := ParseRecords(s[n..]).value;
      assert ([r] + rs)[1..] == rs;
      assert s == s[..n] + s[n..];
    }
  }

  /** One turn of the loop. */
  lemma RecordStep(bytes: seq<Byte>, pos: nat, length: nat)
    requires pos + 5 <= |bytes| && length == FromBigEndian(bytes[pos + 3..pos + 5])
    ensures pos + 5 + length > |bytes| ==> ParseRecords(bytes[pos..]) == None
    ensures pos + 5 + length <= |bytes| ==>
      var r := Record(bytes[pos], FromBigEndian(bytes[pos + 1..pos + 3]), bytes[pos + 5..pos + 5 + length]);
      ParseRecords(bytes[pos..]) == Prepend([r], ParseRecords(bytes[pos + 5 + length..]))
  {
    var rest := bytes[pos..];
    assert rest[1..3] == bytes[pos + 1..pos + 3] && rest[3..5] == bytes[pos + 3..pos + 5];
    if pos + 5 + length <= |bytes| {
      assert rest[5..5 + length] == bytes[pos + 5..pos + 5 + length] && rest[5 + length..] == bytes[pos + 5 + length..];
    }
  }

  /** The loop of both parsers. */
  method ParseRecordsLoop(bytes: seq<Byte>) returns (result: Option<seq<Record>>)
    ensures result == ParseRecords(bytes)
  {
    var records: seq<Record>, pos := [], 0;
    assert bytes[0..] == bytes;
    PrependNothing(records, ParseRecords(bytes));
    while pos + 5 <= |bytes|
      invariant pos <= |bytes|
      invariant ParseRecords(bytes) == Prepend(records, ParseRecords(bytes[pos..]))
      decreases |bytes| - pos
    {
      var ct := bytes[pos];
      var version := FromBigEndian(bytes[pos + 1..pos + 3]);
      var length := FromBigEndian(bytes[pos + 3..pos + 5]);
      RecordStep(bytes, pos, length);
      pos := pos + 5;
      if pos + length > |bytes| {
        return None;
      }
      PrependTwice(records, [Record(ct, version, bytes[pos..pos + length])], ParseRecords(bytes[pos + length..]));
      records := records + [Record(ct, version, bytes[pos..pos + length])];
      pos := pos + length;
    }
    PrependNothing(records, None);
    result := Some(records);
  }

  // ---------------------------------------------------------------- handshake messages

  /** Section 4 of RFC 8446. */
  datatype Message = Message(msgType: Byte, body: seq<Byte>)

  predicate FitsMessage(m: Message) {
    |m.body| < 0x100_0000
  }

  function HsHeader(m: Message): (s: seq<Byte>)
    ensures |s| == 4
  {
    [m.msgType] + BigEndian(3, |m.body|)
  }

  function MessageBytes(m: Message): (s: seq<Byte>)
    ensures |s| == 4 + |m.body|
  {
    HsHeader(m) + m.body
  }

  function MessagesBytes(ms: seq<Message>): seq<Byte> {
    if ms == [] then [] else MessageBytes(ms[0]) + MessagesBytes(ms[1..])
  }

  function FirstMessage(s: seq<Byte>): (r: Option<Message>)
    requires |s| >= 4
    ensures r.Some? ==> 4 + |r.value.body| <= |s|
  {
    var length := FromBigEndian(s[1..4]);
    if 4 + length > |s| then None else Some(Message(s[0], s[4..4 + length]))
  }

  /** The notary's parser: a tail shorter than a header is ignored. */
  function NotaryParse(s: seq<Byte>): Option<seq<Message>>
    decreases |s|
  {
    if |s| < 4 then Some([])
    else match FirstMessage(s)
      case None => None
      case Some(m) => Prepend([m], NotaryParse(s[4 + |m.body|..]))
  }

  datatype Parsed = Messages(ms: seq<Message>) | TruncatedHeader | TruncatedBody

  /** The guest's parser: every byte must belong to a message. */
  function GuestParse(s: seq<Byte>): Parsed
    decreases |s|
  {
    if s == [] then Messages([])
    else if |s| < 4 then TruncatedHeader
    else match FirstMessage(s)
      case None => TruncatedBody
      case Some(m) => After([m], GuestParse(s[4 + |m.body|..]))
  }

  function After(done: seq<Message>, rest: Parsed): Parsed {
    match rest
    case Messages(more) => Messages(done + more)
    case TruncatedHeader => TruncatedHeader
    case TruncatedBody => TruncatedBody
  }

  lemma FirstOfPrintedMessage(m: Message, rest: seq<Byte>)
    requires FitsMessage(m)
    ensures FirstMessage(MessageBytes(m) + rest) == Some(m)
  {
    var s := MessageBytes(m) + rest;
    Widths();
    BigEndianInverse(3, |m.body|);
    assert s[1..4] == BigEndian(3, |m.body|);
    assert s[4..4 + |m.body|] == m.body;
  }

  /** Both parsers return printed messages. */
  lemma {:induction false} ParsePrintedMessages(ms: seq<Message>)
    requires forall m :: m in ms ==> FitsMessage(m)
    ensures NotaryParse(MessagesBytes(ms)) == Some(ms)
    ensures GuestParse(MessagesBytes(ms)) == Messages(ms)
    decreases |ms|
  {
    if ms != [] {
      var s, rest := MessagesBytes(ms), MessagesBytes(ms[1..]);
      FirstOfPrintedMessage(ms[0], rest);
      assert s[4 + |ms[0].body|..] == rest;
      ParsePrintedMessages(ms[1..]);
      assert ms == [ms[0]] + ms[1..];
    }
  }

  lemma PrintedFirstMessage(s: seq<Byte>)
    requires |s| >= 4 && FirstMessage(s).Some?
    ensures FitsMessage(FirstMessage(s).value)
    ensures MessageBytes(FirstMessage(s).value) == s[..4 + |FirstMessage(s).value.body|]
  {
    var m := FirstMessage(s).value;
    Widths();
    FromBigEndianInverse(s[1..4]);
    assert s[..4 + |m.body|] == [s[0]] + s[1..4] + s[4..4 + |m.body|];
  }

  /** Printing what the guest parsed gives the input back. */
  lemma {:induction false} PrintGuestParsed(s: seq<Byte>)
    requires GuestParse(s).Messages?
    ensures MessagesBytes(GuestParse(s).ms) == s
    ensures forall m :: m in GuestParse(s).ms ==> FitsMessage(m)
    decreases |s|
  {
    if s != [] {
      var m := FirstMessage(s).value;
      var n := 4 + |m.body|;
      PrintedFirstMessage(s);
      PrintGuestParsed(s[n..]);
      assert GuestParse(s).ms[1..] == GuestParse(s[n..]).ms;
      assert s == s[..n] + s[n..];
    }
  }

  /** How the two parsers differ: only on what follows the last whole message. The guest
      accepts exactly when the notary does and nothing is left over. */
  lemma {:induction false} ParsersCompared(s: seq<Byte>)
    ensures GuestParse(s).TruncatedBody? <==> NotaryParse(s).None?
    ensures NotaryParse(s).Some? ==>
            |MessagesBytes(NotaryParse(s).value)| <= |s| < |MessagesBytes(NotaryParse(s).value)| + 4
    ensures NotaryParse(s).Some? ==> (GuestParse(s).Messages? <==> |MessagesBytes(NotaryParse(s).value)| == |s|)
    ensures GuestParse(s).Messages? ==> NotaryParse(s) == Some(GuestParse(s).ms)
    decreases |s|
  {
    if |s| >= 4 && FirstMessage(s).Some? {
      var m := FirstMessage(s).value;
      var rest := s[4 + |m.body|..];
      ParsersCompared(rest);
      if NotaryParse(rest).Some? {
        assert ([m] + NotaryParse(rest).value)[1..] == NotaryParse(rest).value;
      }
    }
  }

  /** One turn of either loop. */
  lemma MessageStep(data: seq<Byte>, pos: nat, length: nat)
    requires pos + 4 <= |data| && length == FromBigEndian(data[pos + 1..pos + 4])
    ensures FirstMessage(data[pos..])
         == if pos + 4 + length > |data| then None else Some(Message(data[pos], data[pos + 4..pos + 4 + length]))
    ensures pos + 4 + length <= |data| ==> data[pos..][4 + length..] == data[pos + 4 + length..]
  {
    var rest := data[pos..];
    assert rest[1..4] == data[pos + 1..pos + 4];
    if pos + 4 + length <= |data| {
      assert rest[4..4 + length] == data[pos + 4..pos + 4 + length];
    }
  }

  method NotaryParseLoop(payload: seq<Byte>) returns (result: Option<seq<Message>>)
    ensures result == NotaryParse(payload)
  {
    var out: seq<Message>, p := [], 0;
    assert payload[0..] == payload;
    PrependNothing(out, NotaryParse(payload));
    while p + 4 <= |payload|
      invariant p <= |payload|
      invariant NotaryParse(payload) == Prepend(out, NotaryParse(payload[p..]))
      decreases |payload| - p
    {
      var ty := payload[p];
      var len := FromBigEndian(payload[p + 1..p + 4]);
      MessageStep(payload, p, len);
      p := p + 4;
      if p + len > |payload| {
        return None;
      }
      PrependTwice(out, [Message(ty, payload[p..p + len])], NotaryParse(payload[p + len..]));
      out := out + [Message(ty, payload[p..p + len])];
      p := p + len;
    }
    PrependNothing(out, None);
    result := Some(out);
  }

  lemma AfterTwice(a: seq<Message>, b: seq<Message>, rest: Parsed)
    ensures After(a, After(b, rest)) == After(a + b, rest)
  {
    if rest.Messages? {
      assert a + (b + rest.ms) == (a + b) + rest.ms;
    }
  }

  method GuestParseLoop(data: seq<Byte>) returns (result: Parsed)
    ensures result == GuestParse(data)
  {
    var msgs: seq<Message>, pos := [], 0;
    assert data[0..] == data;
    while pos < |data|
      invariant pos <= |data|
      invariant GuestParse(data) == After(msgs, GuestParse(data[pos..]))
      decreases |data| - pos
    {
      if |data| - pos < 4 {
        return TruncatedHeader;
      }
      var ty := data[pos];
      var length := FromBigEndian([0] + data[pos + 1..pos + 4]);
      LeadingZero(data[pos + 1..pos + 4]);
      MessageStep(data, pos, length);
      pos := pos + 4;
      if |data| - pos < length {
        return TruncatedBody;
      }
      AfterTwice(msgs, [Message(ty, data[pos..pos + length])], GuestParse(data[pos + length..]));
      msgs := msgs + [Message(ty, data[pos..pos + length])];
      pos := pos + length;
    }
    result := Messages(msgs);
  }

  lemma {:induction false} LeadingZero(s: seq<Byte>)
    ensures FromBigEndian([0] + s) == FromBigEndian(s)
  {
    if s == [] {
      assert [0][..0] == [];
    } else {
      assert ([0] + s)[..|s|] == [0] + s[..|s| - 1];
      LeadingZero(s[..|s| - 1]);
    }
  }
}
