/** The server's X25519 key share: the extension list of a ServerHello, and the two readers of
    it, the guest's and the notary's. The two do not bound the key in the same way. */
module KeyShare {
  import opened Bytes
  import opened TlsWire

  // ---------------------------------------------------------------- printed extensions

  /** Section 4.2 of RFC 8446. */
  datatype Extension = Extension(extType: nat, data: seq<Byte>)

  const KEY_SHARE: nat := 0x33
  const X25519: nat := 0x1d

  predicate FitsExtension(e: Extension) {
    e.extType < 0x1_0000 && |e.data| < 0x1_0000
  }

  function ExtensionBytes(e: Extension): (s: seq<Byte>)
    ensures |s| == 4 + |e.data|
  {
    BigEndian(2, e.extType) + BigEndian(2, |e.data|) + e.data
  }

  function ExtensionsBytes(es: seq<Extension>): seq<Byte> {
    if es == [] then [] else ExtensionBytes(es[0]) + ExtensionsBytes(es[1..])
  }

  /** A key share entry announcing a key of 32 bytes of group 29, X25519 in section 4.2.7 of
      RFC 8446, however much of it is there. */
  predicate Announces(data: seq<Byte>) {
    |data| >= 4 && FromBigEndian(data[..2]) == 29 && FromBigEndian(data[2..4]) == 32
  }

  /** The extension, of type 51, holds an X25519 key, section 4.2.8 of RFC 8446. */
  predicate Offers(e: Extension) {
    e.extType == 51 && |e.data| >= 36 && Announces(e.data)
  }

  /** A key share extension too short for a group and a length. */
  predicate Stub(e: Extension) {
    e.extType == 51 && |e.data| < 4
  }

  /** The extension announces a key and ends one or two bytes before the key does. */
  predicate Overrun(e: Extension) {
    e.extType == 51 && 34 <= |e.data| < 36 && Announces(e.data)
  }

  // ---------------------------------------------------------------- the two readers of the list

  function GuestKey(exts: seq<Byte>): Option<seq<Byte>>
    decreases |exts|
  {
    if |exts| < 4 then None
    else
      var extType, n := FromBigEndian(exts[..2]), FromBigEndian(exts[2..4]);
      if 4 + n > |exts| then None
      else if extType == KEY_SHARE && n < 4 then None
      else if extType == KEY_SHARE && Announces(exts[4..4 + n]) && n >= 36 then Some(exts[8..40])
      else GuestKey(exts[4 + n..])
  }

  /** The notary asks for 34 bytes in the extension, and for the key to end inside the list. */
  function NotaryKey(exts: seq<Byte>): Option<seq<Byte>>
    decreases |exts|
  {
    if |exts| < 4 then None
    else
      var extType, n := FromBigEndian(exts[..2]), FromBigEndian(exts[2..4]);
      if 4 + n > |exts| then None
      else if extType == KEY_SHARE && n >= 34 && Announces(exts[4..4 + n]) && 40 <= |exts| then Some(exts[8..40])
      else NotaryKey(exts[4 + n..])
  }

  lemma KeysFirst(e: Extension, rest: seq<Byte>)
    requires FitsExtension(e)
    ensures GuestKey(ExtensionBytes(e) + rest)
         == if Stub(e) then None else if Offers(e) then Some(e.data[4..36]) else GuestKey(rest)
    ensures NotaryKey(ExtensionBytes(e) + rest)
         == if Offers(e) || (Overrun(e) && |e.data + rest| >= 36) then Some((e.data + rest)[4..36]) else NotaryKey(rest)
  {
    var s := ExtensionBytes(e) + rest;
    Widths();
    BigEndianInverse(2, e.extType);
    BigEndianInverse(2, |e.data|);
    assert s[..2] == BigEndian(2, e.extType) && s[2..4] == BigEndian(2, |e.data|);
    assert s[4..4 + |e.data|] == e.data && s[4 + |e.data|..] == rest;
    if |s| >= 40 {
      assert s[8..40] == (e.data + rest)[4..36];
    }
    if |e.data| >= 36 {
      assert (e.data + rest)[4..36] == e.data[4..36];
    }
  }

  // ---------------------------------------------------------------- what each reader returns

  /** The guest returns the key of extension `i`. */
  predicate GuestTakes(es: seq<Extension>, i: nat) {
    i < |es| && Offers(es[i]) && forall j :: 0 <= j < i ==> !Offers(es[j]) && !Stub(es[j])
  }

  predicate Taken(es: seq<Extension>, i: nat) {
    i < |es| && (Offers(es[i]) || (Overrun(es[i]) && i < |es| - 1))
  }

  /** The notary returns 32 bytes from extension `i` on. */
  predicate NotaryTakes(es: seq<Extension>, i: nat) {
    Taken(es, i) && forall j :: 0 <= j < i ==> !Taken(es, j)
  }

  predicate AllFit(es: seq<Extension>) {
    forall e :: e in es ==> FitsExtension(e)
  }

  lemma TailFits(es: seq<Extension>)
    requires AllFit(es) && es != []
    ensures AllFit(es[1..]) && FitsExtension(es[0])
  {}

  /** The guest returns the first key offered, unless a stub comes before it. */
  lemma {:induction false} GuestReturns(es: seq<Extension>, i: nat)
    requires AllFit(es) && GuestTakes(es, i)
    ensures GuestKey(ExtensionsBytes(es)) == Some(es[i].data[4..36])
    decreases |es|
  {
    var rest := es[1..];
    TailFits(es);
    KeysFirst(es[0], ExtensionsBytes(rest));
    if i > 0 {
      forall j | 0 <= j < i - 1 ensures !Offers(rest[j]) && !Stub(rest[j]) {
        assert rest[j] == es[j + 1];
      }
      assert !Offers(es[0]) && !Stub(es[0]);
      GuestReturns(rest, i - 1);
    }
  }

  lemma {:induction false} GuestReturnsNothing(es: seq<Extension>)
    requires AllFit(es) && forall i: nat :: !GuestTakes(es, i)
    ensures GuestKey(ExtensionsBytes(es)) == None
    decreases |es|
  {
    if es != [] {
      var rest := es[1..];
      TailFits(es);
      KeysFirst(es[0], ExtensionsBytes(rest));
      assert !GuestTakes(es, 0);
      if !Stub(es[0]) {
        forall i: nat ensures !GuestTakes(rest, i) {
          if GuestTakes(rest, i) {
            GuestTakesLater(es, i);
          }
        }
        GuestReturnsNothing(rest);
      }
    }
  }

  lemma GuestTakesLater(es: seq<Extension>, i: nat)
    requires es != [] && !Offers(es[0]) && !Stub(es[0]) && GuestTakes(es[1..], i)
    ensures GuestTakes(es, i + 1)
  {
    forall j | 0 <= j < i + 1 ensures !Offers(es[j]) && !Stub(es[j]) {
      if j > 0 {
        assert es[j] == es[1..][j - 1];
      }
    }
  }

  lemma PrintedLength(es: seq<Extension>)
    ensures es != [] ==> |ExtensionsBytes(es)| >= 4
  {}

  /** What the notary reads when it takes extension `i`: past the end of a short one it goes
      on into the extensions that follow. */
  function BytesFrom(es: seq<Extension>, i: nat): (s: seq<Byte>)
    requires i < |es|
    ensures Taken(es, i) ==> |s| >= 36
  {
    PrintedLength(es[i + 1..]);
    es[i].data + ExtensionsBytes(es[i + 1..])
  }

  lemma {:induction false} NotaryReturns(es: seq<Extension>, i: nat)
    requires AllFit(es) && NotaryTakes(es, i)
    ensures NotaryKey(ExtensionsBytes(es)) == Some(BytesFrom(es, i)[4..36])
    decreases |es|
  {
    var rest := es[1..];
    TailFits(es);
    PrintedLength(rest);
    KeysFirst(es[0], ExtensionsBytes(rest));
    if i > 0 {
      assert !Taken(es, 0);
      forall j: nat | j < i - 1 ensures !Taken(rest, j) {
        assert !Taken(es, j + 1);
      }
      NotaryReturns(rest, i - 1);
      assert rest[i..] == es[i + 1..];
    }
  }

  lemma {:induction false} NotaryReturnsNothing(es: seq<Extension>)
    requires AllFit(es) && forall i: nat :: !Taken(es, i)
    ensures NotaryKey(ExtensionsBytes(es)) == None
    decreases |es|
  {
    if es != [] {
      var rest := es[1..];
      TailFits(es);
      KeysFirst(es[0], ExtensionsBytes(rest));
      assert !Taken(es, 0);
      forall i: nat ensures !Taken(rest, i) {
        assert !Taken(es, i + 1);
      }
      NotaryReturnsNothing(rest);
    }
  }

  /** No two extensions of one type, section 4.2 of RFC 8446. */
  predicate Distinct(es: seq<Extension>) {
    forall i, j :: 0 <= i < j < |es| ==> es[i].extType != es[j].extType
  }

  /** An extension that is not the last one ends before the key it announces. */
  predicate KeyOverruns(es: seq<Extension>) {
    exists i :: 0 <= i < |es| - 1 && Overrun(es[i])
  }

  lemma OnlyOne(es: seq<Extension>, i: nat)
    requires Distinct(es) && i < |es| && es[i].extType == 51
    ensures forall j :: 0 <= j < |es| && j != i ==> es[j].extType != 51
  {
  }

  lemma OfferTaken(es: seq<Extension>, i: nat)
    requires Distinct(es) && i < |es| && Offers(es[i])
    ensures GuestTakes(es, i) && NotaryTakes(es, i) && !KeyOverruns(es)
    ensures BytesFrom(es, i)[4..36] == es[i].data[4..36]
  {
    OnlyOne(es, i);
  }

  lemma OverrunTaken(es: seq<Extension>, i: nat)
    requires Distinct(es) && i < |es| - 1 && Overrun(es[i])
    ensures NotaryTakes(es, i) && KeyOverruns(es)
  {
    OnlyOne(es, i);
  }

  /** With one extension a type, an offered key is what both sides read. */
  lemma OfferedIsRead(es: seq<Extension>, i: nat)
    requires AllFit(es) && Distinct(es) && i < |es| && Offers(es[i])
    ensures GuestKey(ExtensionsBytes(es)) == NotaryKey(ExtensionsBytes(es)) == Some(es[i].data[4..36])
    ensures !KeyOverruns(es)
  {
    OfferTaken(es, i);
    GuestReturns(es, i);
    NotaryReturns(es, i);
  }

  predicate NothingOffered(es: seq<Extension>) {
    forall i :: 0 <= i < |es| ==> !Offers(es[i])
  }

  lemma NothingIsRead(es: seq<Extension>)
    requires AllFit(es) && NothingOffered(es)
    ensures GuestKey(ExtensionsBytes(es)) == None
    ensures !KeyOverruns(es) ==> NotaryKey(ExtensionsBytes(es)) == None
  {
    GuestReturnsNothing(es);
    if !KeyOverruns(es) {
      NotaryReturnsNothing(es);
    }
  }

  /** With one extension a type, the readers agree exactly when no announced key overruns its
      extension; where they differ the guest has none and the notary has 32 other bytes. */
  lemma ReadersAgree(es: seq<Extension>)
    requires AllFit(es) && Distinct(es)
    ensures NotaryKey(ExtensionsBytes(es)) == GuestKey(ExtensionsBytes(es)) <==> !KeyOverruns(es)
    ensures KeyOverruns(es) ==> GuestKey(ExtensionsBytes(es)).None? && NotaryKey(ExtensionsBytes(es)).Some?
  {
    if !NothingOffered(es) {
      var i :| 0 <= i < |es| && Offers(es[i]);
      OfferedIsRead(es, i);
    } else {
      NothingIsRead(es);
      if KeyOverruns(es) {
        var i :| 0 <= i < |es| - 1 && Overrun(es[i]);
        OverrunTaken(es, i);
        NotaryReturns(es, i);
      }
    }
  }

  /** A list on which they differ: 30 bytes of key, then a supported_versions extension. */
  lemma OverrunExample() returns (es: seq<Extension>)
    ensures AllFit(es) && Distinct(es)
    ensures GuestKey(ExtensionsBytes(es)).None? && NotaryKey(ExtensionsBytes(es)).Some?
  {
    var data := [0, 0x1d, 0, 32] + ZeroBytes(30);
    FromTwo(0, 0x1d);
    FromTwo(0, 32);
    assert data[..2] == [0, 0x1d] && data[2..4] == [0, 32];
    es := [Extension(51, data), Extension(43, [3, 4])];
    assert Overrun(es[0]);
    ReadersAgree(es);
  }

  lemma FromTwo(a: Byte, b: Byte)
    ensures FromBigEndian([a, b]) == 256 * a + b
  {
    assert [a, b][..1] == [a] && [a][..0] == [];
    assert FromBigEndian([a]) == a;
  }

  // ---------------------------------------------------------------- the loops over the list

  method GuestKeyLoop(exts: seq<Byte>) returns (key: Option<seq<Byte>>)
    ensures key == GuestKey(exts)
  {
    var pos := 0;
    assert exts[0..|exts|] == exts;
    while pos + 4 <= |exts|
      invariant pos <= |exts|
      invariant GuestKey(exts) == GuestKey(exts[pos..|exts|])
      decreases |exts| - pos
    {
      var extType, n := FromBigEndian(exts[pos..pos + 2]), FromBigEndian(exts[pos + 2..pos + 4]);
      EntryAt(exts, pos, |exts|, n);
      pos := pos + 4;
      if pos + n > |exts| {
        break;
      }
      var data := exts[pos..pos + n];
      if extType == KEY_SHARE {
        if n < 4 {
          return None;
        }
        var group, klen := FromBigEndian(data[0..2]), FromBigEndian(data[2..4]);
        if group == X25519 && klen == 32 && n >= 4 + 32 {
          return Some(data[4..36]);
        }
      }
      pos := pos + n;
    }
    key := None;
  }

  lemma Slice(s: seq<Byte>, from: nat, to: nat, a: nat, b: nat)
    requires from <= to <= |s| && a <= b <= to - from
    ensures s[from..to][a..b] == s[from + a..from + b]
  {
    forall k | 0 <= k < b - a ensures s[from..to][a..b][k] == s[from + a..from + b][k] {}
  }

  /** The extension at `pos` of a list that ends at `end`, read in place. */
  lemma EntryAt(s: seq<Byte>, pos: nat, end: nat, n: nat)
    requires pos + 4 <= end <= |s|
    ensures s[pos..end][..2] == s[pos..pos + 2] && s[pos..end][2..4] == s[pos + 2..pos + 4]
    ensures pos + 4 + n <= end ==>
      s[pos..end][4..4 + n] == s[pos + 4..pos + 4 + n] && s[pos..end][4 + n..] == s[pos + 4 + n..end]
    ensures pos + 4 + n <= end && n >= 4 ==>
      s[pos + 4..pos + 4 + n][..2] == s[pos + 4..pos + 6] && s[pos + 4..pos + 4 + n][2..4] == s[pos + 6..pos + 8]
    ensures pos + 4 + n <= end && n >= 36 ==> s[pos + 4..pos + 4 + n][4..36] == s[pos + 8..pos + 40]
    ensures pos + 40 <= end ==> s[pos..end][8..40] == s[pos + 8..pos + 40]
  {
    Slice(s, pos, end, 0, 2);
    Slice(s, pos, end, 2, 4);
    if pos + 40 <= end {
      Slice(s, pos, end, 8, 40);
    }
    if pos + 4 + n <= end {
      Slice(s, pos, end, 4, 4 + n);
      Slice(s, pos, end, 4 + n, end - pos);
      if n >= 4 {
        Slice(s, pos + 4, pos + 4 + n, 0, 2);
        Slice(s, pos + 4, pos + 4 + n, 2, 4);
      }
      if n >= 36 {
        Slice(s, pos + 4, pos + 4 + n, 4, 36);
      }
    }
  }

  /** One turn of the notary's loop. */
  lemma NotaryStep(s: seq<Byte>, pos: nat, end: nat)
    requires pos + 4 <= end <= |s|
    ensures var extType, n := FromBigEndian(s[pos..pos + 2]), FromBigEndian(s[pos + 2..pos + 4]);
      NotaryKey(s[pos..end])
      == if pos + 4 + n > end then None
         else if extType == KEY_SHARE && n >= 34 && FromBigEndian(s[pos + 4..pos + 6]) == X25519
              && FromBigEndian(s[pos + 6..pos + 8]) == 32 && pos + 40 <= end then Some(s[pos + 8..pos + 40])
         else NotaryKey(s[pos + 4 + n..end])
  {
    EntryAt(s, pos, end, FromBigEndian(s[pos + 2..pos + 4]));
  }

  // ---------------------------------------------------------------- the hello around the list

  /** Section 4.1.3 of RFC 8446. */
  datatype ServerHello = ServerHello(version: nat, random: seq<Byte>, sessionId: seq<Byte>, suite: nat,
                                     compression: Byte, extensions: seq<Extension>)

  predicate FitsHello(h: ServerHello) {
    && h.version < 0x1_0000 && |h.random| == 32 && |h.sessionId| < 0x100 && h.suite < 0x1_0000
    && AllFit(h.extensions) && |ExtensionsBytes(h.extensions)| < 0x1_0000
  }

  function HelloPrefix(h: ServerHello): (s: seq<Byte>)
    requires FitsHello(h)
    ensures |s| == 40 + |h.sessionId|
  {
    BigEndian(2, h.version) + h.random + [|h.sessionId|] + h.sessionId
    + BigEndian(2, h.suite) + [h.compression] + BigEndian(2, |ExtensionsBytes(h.extensions)|)
  }

  function HelloBody(h: ServerHello): seq<Byte>
    requires FitsHello(h)
  {
    HelloPrefix(h) + ExtensionsBytes(h.extensions)
  }

  /** The guest skips one byte of compression method, and cuts a list that is too long. */
  function GuestHello(body: seq<Byte>): Option<seq<Byte>> {
    if |body| <= 34 then None
    else
      var sessionIdLen: nat := body[34];
      var p := 38 + sessionIdLen;
      if p + 2 > |body| then None
      else
        var total := FromBigEndian(body[p..p + 2]);
        GuestKey(body[p + 2..if p + 2 + total <= |body| then p + 2 + total else |body|])
  }

  /** The notary takes the compression methods for a list, and refuses an extension list that
      is too long. */
  function NotaryHello(body: seq<Byte>): Option<seq<Byte>> {
    if |body| < 35 then None
    else
      var sessionIdLen: nat := body[34];
      var p := 37 + sessionIdLen;
      if p >= |body| then None
      else
        var compLen: nat := body[p];
        var q := p + 1 + compLen;
        if q + 2 > |body| then None
        else
          var end := q + 2 + FromBigEndian(body[q..q + 2]);
          if end > |body| then None else NotaryKey(body[q + 2..end])
  }

  lemma HelloFields(h: ServerHello, rest: seq<Byte>)
    requires FitsHello(h)
    ensures var body, n := HelloBody(h) + rest, |h.sessionId|;
      && |body| == 40 + n + |ExtensionsBytes(h.extensions)| + |rest|
      && body[34] == n && body[37 + n] == h.compression
      && FromBigEndian(body[38 + n..40 + n]) == |ExtensionsBytes(h.extensions)|
      && body[40 + n..40 + n + |ExtensionsBytes(h.extensions)|] == ExtensionsBytes(h.extensions)
  {
    var body, n, exts := HelloBody(h) + rest, |h.sessionId|, ExtensionsBytes(h.extensions);
    Widths();
    BigEndianInverse(2, |exts|);
    var prefix := HelloPrefix(h);
    assert prefix[34] == n && prefix[37 + n] == h.compression && prefix[38 + n..40 + n] == BigEndian(2, |exts|);
    assert body == prefix + (exts + rest);
    assert body[38 + n..40 + n] == prefix[38 + n..40 + n];
  }

  /** A printed hello is read as its extension list; the notary needs the null compression
      method, and looks at the whole rest of the record. */
  lemma HelloRead(h: ServerHello, rest: seq<Byte>)
    requires FitsHello(h)
    ensures GuestHello(HelloBody(h)) == GuestKey(ExtensionsBytes(h.extensions))
    ensures h.compression == 0 ==> NotaryHello(HelloBody(h) + rest) == NotaryKey(ExtensionsBytes(h.extensions))
  {
    HelloFields(h, rest);
    HelloFields(h, []);
    assert HelloBody(h) + [] == HelloBody(h);
  }

  method NotaryHelloLoop(body: seq<Byte>) returns (key: Option<seq<Byte>>)
    ensures key == NotaryHello(body)
  {
    if |body| < 2 + 32 + 1 {
      return None;
    }
    var p: nat := 2 + 32;
    var sessionIdLen := body[p];
    p := p + 1 + sessionIdLen;
    if p + 2 > |body| {
      return None;
    }
    p := p + 2;
    if p >= |body| {
      return None;
    }
    var compLen := body[p];
    p := p + 1 + compLen;
    if p + 2 > |body| {
      return None;
    }
    var extLen := FromBigEndian(body[p..p + 2]);
    p := p + 2;
    var extEnd := p + extLen;
    if extEnd > |body| {
      return None;
    }
    key := NotaryKeyLoop(body, p, extEnd);
  }

  /** The loop over the extensions from `start` to `extEnd`. */
  method NotaryKeyLoop(body: seq<Byte>, start: nat, extEnd: nat) returns (key: Option<seq<Byte>>)
    requires start <= extEnd <= |body|
    ensures key == NotaryKey(body[start..extEnd])
  {
    var p := start;
    while p + 4 <= extEnd
      invariant p <= extEnd
      invariant NotaryKey(body[start..extEnd]) == NotaryKey(body[p..extEnd])
      decreases extEnd - p
    {
      var extType, n := FromBigEndian(body[p..p + 2]), FromBigEndian(body[p + 2..p + 4]);
      NotaryStep(body, p, extEnd);
      p := p + 4;
      if p + n > extEnd {
        break;
      }
      if extType == KEY_SHARE && n >= 2 + 32 {
        var group := FromBigEndian(body[p..p + 2]);
        if group == X25519 {
          var klen := FromBigEndian(body[p + 2..p + 4]);
          if klen == 32 && p + 4 + 32 <= extEnd {
            return Some(body[p + 4..p + 4 + 32]);
          }
        }
      }
      p := p + n;
    }
    key := None;
  }

  // ---------------------------------------------------------------- the hello in the stream

  const SERVER_HELLO: Byte := 2

  function FirstHandshake(rs: seq<Record>): Option<Record> {
    if rs == [] then None
    else if rs[0].contentType == HANDSHAKE then Some(rs[0])
    else FirstHandshake(rs[1..])
  }

  function FirstHello(ms: seq<Message>): Option<Message> {
    if ms == [] then None else if ms[0].msgType == SERVER_HELLO then Some(ms[0]) else FirstHello(ms[1..])
  }

  /** The guest looks in the first handshake record only, for the first ServerHello. */
  function GuestShare(inbound: seq<Byte>): Option<seq<Byte>> {
    match ParseRecords(inbound)
    case None => None
    case Some(rs) =>
      match FirstHandshake(rs)
      case None => None
      case Some(r) =>
        match GuestParse(r.payload)
        case TruncatedHeader => None
        case TruncatedBody => None
        case Messages(ms) =>
          match FirstHello(ms)
          case None => None
          case Some(m) => GuestHello(m.body)
  }

  /** The notary looks in every handshake record that starts with a ServerHello, and stops at
      the first that gives a key. */
  function NotaryShare(inbound: seq<Byte>): Option<seq<Byte>>
    decreases |inbound|
  {
    if |inbound| < 5 then None
    else
      match FirstRecord(inbound)
      case None => None
      case Some(r) =>
        var here := RecordShare(r.contentType, r.payload);
        if here.Some? then here else NotaryShare(inbound[5 + |r.payload|..])
  }

  function RecordShare(contentType: Byte, payload: seq<Byte>): Option<seq<Byte>> {
    if contentType == HANDSHAKE && |payload| >= 4 && payload[0] == SERVER_HELLO
    then NotaryHello(payload[4..])
    else None
  }

  method NotaryShareLoop(inbound: seq<Byte>) returns (key: Option<seq<Byte>>)
    ensures key == NotaryShare(inbound)
  {
    hide NotaryHello, FirstRecord;
    var pos := 0;
    assert inbound[0..] == inbound;
    while pos + 5 <= |inbound|
      invariant pos <= |inbound|
      invariant NotaryShare(inbound) == NotaryShare(inbound[pos..])
      decreases |inbound| - pos
    {
      var ct := inbound[pos];
      var len := FromBigEndian(inbound[pos + 3..pos + 5]);
      RecordAt(inbound, pos, len);
      pos := pos + 5;
      if pos + len > |inbound| {
        break;
      }
      var payload := inbound[pos..pos + len];
      pos := pos + len;
      if ct != HANDSHAKE {
        continue;
      }
      if |payload| < 4 || payload[0] != SERVER_HELLO {
        continue;
      }
      var found := NotaryHelloLoop(payload[4..]);
      if found.Some? {
        return found;
      }
    }
    key := None;
  }

  lemma RecordAt(s: seq<Byte>, pos: nat, len: nat)
    requires pos + 5 <= |s| && len == FromBigEndian(s[pos + 3..pos + 5])
    ensures pos + 5 + len > |s| ==> FirstRecord(s[pos..]).None?
    ensures pos + 5 + len <= |s| ==>
      && FirstRecord(s[pos..]).Some?
      && FirstRecord(s[pos..]).value.contentType == s[pos]
      && FirstRecord(s[pos..]).value.payload == s[pos + 5..pos + 5 + len]
      && s[pos..][5 + len..] == s[pos + 5 + len..]
  {
    assert s[pos..][3..5] == s[pos + 3..pos + 5];
    if pos + 5 + len <= |s| {
      assert s[pos..][5..5 + len] == s[pos + 5..pos + 5 + len];
    }
  }

  predicate NoHandshake(rs: seq<Record>) {
    forall r :: r in rs ==> Fits(r) && r.contentType != 22
  }

  lemma {:induction false} GuestSkips(before: seq<Record>, r: Record, after: seq<Record>)
    requires NoHandshake(before) && r.contentType == 22
    ensures FirstHandshake(before + [r] + after) == Some(r)
    decreases |before|
  {
    var rs := before + [r] + after;
    if before != [] {
      assert rs[1..] == before[1..] + [r] + after && rs[0] == before[0];
      GuestSkips(before[1..], r, after);
    }
  }

  /** What the notary does with one printed record. */
  lemma NotaryReadsRecord(r: Record, rest: seq<Byte>)
    requires Fits(r)
    ensures NotaryShare(RecordBytes(r) + rest)
         == var here := RecordShare(r.contentType, r.payload); if here.Some? then here else NotaryShare(rest)
  {
    FirstOfPrinted(r, rest);
    assert (RecordBytes(r) + rest)[5 + |r.payload|..] == rest;
  }

  lemma {:induction false} NotarySkips(before: seq<Record>, rest: seq<Byte>)
    requires NoHandshake(before)
    ensures NotaryShare(RecordsBytes(before) + rest) == NotaryShare(rest)
    decreases |before|
  {
    if before == [] {
      assert RecordsBytes(before) + rest == rest;
    } else {
      var more := RecordsBytes(before[1..]) + rest;
      assert RecordsBytes(before) + rest == RecordBytes(before[0]) + more;
      NotaryReadsRecord(before[0], more);
      NotarySkips(before[1..], rest);
    }
  }

  lemma {:induction false} RecordsConcat(a: seq<Record>, b: seq<Record>)
    ensures RecordsBytes(a + b) == RecordsBytes(a) + RecordsBytes(b)
    decreases |a|
  {
    if a == [] {
      assert a + b == b;
    } else {
      assert (a + b)[1..] == a[1..] + b;
      RecordsConcat(a[1..], b);
    }
  }

  /** The server's side of the stream as far as its hello matters: one cleartext handshake
      record that starts with the hello, among records of other types. */
  datatype Stream = Stream(before: seq<Record>, hello: ServerHello, more: seq<Message>, version: nat,
                           after: seq<Record>, tail: seq<Byte>)

  predicate FitsStream(s: Stream) {
    && NoHandshake(s.before) && NoHandshake(s.after) && |s.tail| < 5
    && FitsHello(s.hello) && (forall m :: m in s.more ==> FitsMessage(m))
    && Fits(HelloRecord(s))
  }

  function HelloRecord(s: Stream): Record
    requires FitsHello(s.hello)
  {
    Record(22, s.version, MessagesBytes([Message(2, HelloBody(s.hello))] + s.more))
  }

  function StreamBytes(s: Stream): seq<Byte>
    requires FitsStream(s)
  {
    RecordsBytes(s.before + [HelloRecord(s)] + s.after) + s.tail
  }

  lemma HelloPayload(s: Stream)
    requires FitsStream(s)
    ensures var m, payload := Message(2, HelloBody(s.hello)), HelloRecord(s).payload;
      && |payload| >= 4 && payload[0] == 2 && payload[4..] == HelloBody(s.hello) + MessagesBytes(s.more)
      && FitsMessage(m) && FirstHello([m] + s.more) == Some(m)
  {
    var m := Message(2, HelloBody(s.hello));
    var ms := [m] + s.more;
    assert ms[0] == m && ms[1..] == s.more;
    assert HelloRecord(s).payload == HsHeader(m) + (m.body + MessagesBytes(s.more));
  }

  lemma GuestReadsStream(s: Stream)
    requires FitsStream(s)
    ensures GuestShare(StreamBytes(s)) == GuestKey(ExtensionsBytes(s.hello.extensions))
  {
    var r := HelloRecord(s);
    ParsePrintedRecords(s.before + [r] + s.after, s.tail);
    GuestSkips(s.before, r, s.after);
    HelloPayload(s);
    ParsePrintedMessages([Message(2, HelloBody(s.hello))] + s.more);
    HelloRead(s.hello, []);
  }

  lemma StreamSplits(s: Stream)
    requires FitsStream(s)
    ensures StreamBytes(s) == RecordsBytes(s.before) + (RecordBytes(HelloRecord(s)) + (RecordsBytes(s.after) + s.tail))
  {
    var r := HelloRecord(s);
    RecordsConcat(s.before + [r], s.after);
    RecordsConcat(s.before, [r]);
    assert RecordsBytes([r]) == RecordBytes(r);
    Regroup(RecordsBytes(s.before), RecordBytes(r), RecordsBytes(s.after), s.tail);
  }

  lemma Regroup(a: seq<Byte>, b: seq<Byte>, c: seq<Byte>, d: seq<Byte>)
    ensures a + b + c + d == a + (b + (c + d))
  {}

  lemma HelloShare(s: Stream)
    requires FitsStream(s) && s.hello.compression == 0
    ensures RecordShare(22, HelloRecord(s).payload) == NotaryKey(ExtensionsBytes(s.hello.extensions))
  {
    HelloPayload(s);
    HelloRead(s.hello, MessagesBytes(s.more));
  }

  lemma NotaryReadsStream(s: Stream)
    requires FitsStream(s) && s.hello.compression == 0
    ensures NotaryShare(StreamBytes(s)) == NotaryKey(ExtensionsBytes(s.hello.extensions))
  {
    var r, rest := HelloRecord(s), RecordsBytes(s.after) + s.tail;
    StreamSplits(s);
    NotarySkips(s.before, RecordBytes(r) + rest);
    NotaryReadsRecord(r, rest);
    HelloShare(s);
    NotarySkips(s.after, s.tail);
  }

  /** Guest and notary take the same server key out of one captured stream exactly when the
      key share does not end before the key it announces. */
  lemma SidesTakeTheSameKey(s: Stream)
    requires FitsStream(s) && s.hello.compression == 0 && Distinct(s.hello.extensions)
    ensures NotaryShare(StreamBytes(s)) == GuestShare(StreamBytes(s)) <==> !KeyOverruns(s.hello.extensions)
    ensures forall e :: e in s.hello.extensions && Offers(e) ==>
      GuestShare(StreamBytes(s)) == NotaryShare(StreamBytes(s)) == Some(e.data[4..36])
  {
    GuestReadsStream(s);
    NotaryReadsStream(s);
    var es := s.hello.extensions;
    ReadersAgree(es);
    forall e | e in es && Offers(e)
      ensures GuestShare(StreamBytes(s)) == NotaryShare(StreamBytes(s)) == Some(e.data[4..36])
    {
      var i :| 0 <= i < |es| && es[i] == e;
      OfferedIsRead(es, i);
    }
  }
}
