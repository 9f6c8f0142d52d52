/** The handshake transcript up to the server's Finished, as the notary and as the guest
    rebuild it from encrypted records. */
module Transcript {
  import opened Bytes
  import opened TlsWire

  /** A decrypted record: its content and its last byte. */
  datatype Inner = Inner(plain: seq<Byte>, contentType: Byte)

  /** Record decryption under one key, by sequence number. */
  type Decrypt = (nat, Record) -> Option<Inner>

  const APPLICATION_DATA: Byte := 23
  const FINISHED: Byte := 20

  function MessageList(ms: seq<Message>): (r: seq<seq<Byte>>)
    ensures |r| == |ms|
  {
    seq(|ms|, i requires 0 <= i < |ms| => MessageBytes(ms[i]))
  }

  function Flatten(parts: seq<seq<Byte>>): seq<Byte> {
    if parts == [] then [] else parts[0] + Flatten(parts[1..])
  }

  predicate Has(ms: seq<Message>, msgType: Byte) {
    exists i :: 0 <= i < |ms| && ms[i].msgType == msgType
  }

  /** Finished is message type 20 in section 4 of RFC 8446. */
  predicate HasFinished(ms: seq<Message>) {
    Has(ms, 20)
  }

  // ---------------------------------------------------------------- the notary

  /** What one decrypted record adds: its messages, re-encoded, and whether Finished was among
      them. A record that is not handshake adds nothing. */
  function Appended(inner: Inner): Option<(seq<seq<Byte>>, bool)> {
    if inner.contentType != HANDSHAKE then Some(([], false))
    else match NotaryParse(inner.plain)
      case None => None
      case Some(ms) => Some((MessageList(ms), HasFinished(ms)))
  }

  /** The messages of the server's flight, and whether it ended with Finished. */
  function Flight(decrypt: Decrypt, inp: seq<Record>, hsSeq: nat): Option<(seq<seq<Byte>>, bool)>
    decreases |inp|
  {
    if inp == [] then Some(([], false))
    else if inp[0].contentType != APPLICATION_DATA then Flight(decrypt, inp[1..], hsSeq)
    else match decrypt(hsSeq, inp[0])
      case None => None
      case Some(inner) =>
        match Appended(inner)
        case None => None
        case Some(added) =>
          if added.1 then Some((added.0, true)) else Joined(added.0, Flight(decrypt, inp[1..], hsSeq + 1))
  }

  function Joined(done: seq<seq<Byte>>, rest: Option<(seq<seq<Byte>>, bool)>): Option<(seq<seq<Byte>>, bool)> {
    match rest
    case None => None
    case Some(more) => Some((done + more.0, more.1))
  }

  /** The hash through the server's Finished: at least six messages, the last flight complete. */
  function NotaryHash<H>(hash: seq<Byte> -> H, decrypt: Decrypt, ch: seq<Byte>, sh: seq<Byte>,
                         inp: seq<Record>): Option<H> {
    match Flight(decrypt, inp, 0)
    case None => None
    case Some(flight) =>
      if !flight.1 || 2 + |flight.0| < 6 then None else Some(hash(Flatten([ch, sh] + flight.0)))
  }

  /** The loop of `append_hs_messages`. */
  method AppendHsMessages(messages: seq<seq<Byte>>, inner: Inner) returns (result: Option<(seq<seq<Byte>>, bool)>)
    ensures result == match Appended(inner) {
                        case None => None
                        case Some(added) => Some((messages + added.0, added.1))
                      }
  {
    if inner.contentType != HANDSHAKE {
      assert messages + [] == messages;
      return Some((messages, false));
    }
    var parsed := NotaryParseLoop(inner.plain);
    if parsed.None? {
      return None;
    }
    var ms, out, saw, i := parsed.value, messages, false, 0;
    while i < |ms|
      invariant i <= |ms| && out == messages + MessageList(ms)[..i]
      invariant saw == exists j :: 0 <= j < i && ms[j].msgType == FINISHED
    {
      var raw := HsHeader(ms[i]) + ms[i].body;
      if ms[i].msgType == FINISHED {
        saw := true;
      }
      out := out + [raw];
      i := i + 1;
    }
    assert MessageList(ms)[..i] == MessageList(ms);
    assert saw == HasFinished(ms);
    result := Some((out, saw));
  }

  /** The loop over the inbound records: after Finished the rest is skipped. */
  method ServerFinishedHash<H>(hash: seq<Byte> -> H, decrypt: Decrypt, ch: seq<Byte>, sh: seq<Byte>, inp: seq<Record>)
    returns (result: Option<H>)
    ensures result == NotaryHash(hash, decrypt, ch, sh, inp)
  {
    var messages, hsSeq, saw, i := [ch, sh], 0, false, 0;
    ghost var flight := Flight(decrypt, inp, 0);
    assert inp[0..] == inp;
    JoinedNothing([ch, sh], flight);
    while i < |inp|
      invariant i <= |inp|
      invariant saw ==> Joined([ch, sh], flight) == Some((messages, true))
      invariant !saw ==> Joined([ch, sh], flight) == Joined(messages, Flight(decrypt, inp[i..], hsSeq))
    {
      assert inp[i..][1..] == inp[i + 1..];
      if inp[i].contentType == APPLICATION_DATA && !saw {
        var plain := decrypt(hsSeq, inp[i]);
        if plain.None? {
          return None;
        }
        JoinedRecord(messages, decrypt, inp[i..], hsSeq);
        hsSeq := hsSeq + 1;
        var added := AppendHsMessages(messages, plain.value);
        if added.None? {
          return None;
        }
        messages, saw := added.value.0, added.value.1;
      }
      i := i + 1;
    }
    JoinedNothing(messages, flight);
    if !saw || |messages| < 6 {
      return None;
    }
    result := Some(hash(Flatten(messages)));
  }

  lemma JoinedNothing(done: seq<seq<Byte>>, rest: Option<(seq<seq<Byte>>, bool)>)
    ensures Joined(done, Some(([], false))) == Some((done, false))
  {
    assert done + [] == done;
  }

  lemma JoinedRecord(done: seq<seq<Byte>>, decrypt: Decrypt, inp: seq<Record>, hsSeq: nat)
    requires inp != [] && inp[0].contentType == APPLICATION_DATA && decrypt(hsSeq, inp[0]).Some?
    ensures
      match Appended(decrypt(hsSeq, inp[0]).value)
      case None => Joined(done, Flight(decrypt, inp, hsSeq)) == None
      case Some(added) =>
        Joined(done, Flight(decrypt, inp, hsSeq))
        == if added.1 then Some((done + added.0, true))
            else Joined(done + added.0, Flight(decrypt, inp[1..], hsSeq + 1))
  {
    var a := Appended(decrypt(hsSeq, inp[0]).value);
    var rest := Flight(decrypt, inp[1..], hsSeq + 1);
    if a.Some? && !a.value.1 && rest.Some? {
      assert done + (a.value.0 + rest.value.0) == (done + a.value.0) + rest.value.0;
    }
  }

  // ---------------------------------------------------------------- grouping

  /** What one encrypted record carries: whole handshake messages, or something else. */
  datatype Group = Hs(ms: seq<Message>) | Other(plain: seq<Byte>, contentType: Byte)

  function HandshakeOf(g: Group): seq<Message> {
    if g.Hs? then g.ms else []
  }

  function MessagesOf(gs: seq<Group>): seq<Message> {
    if gs == [] then [] else HandshakeOf(gs[0]) + MessagesOf(gs[1..])
  }

  function InnerOf(g: Group): Inner {
    match g
    case Hs(ms) => Inner(MessagesBytes(ms), 22)
    case Other(plain, ct) => Inner(plain, ct)
  }

  /** The encrypted records of `inp`, of type 23, decrypt, in order, to the groups; records of other types
      stand between them, and anything may follow the last group. */
  predicate Carries(decrypt: Decrypt, inp: seq<Record>, hsSeq: nat, gs: seq<Group>)
    decreases |inp|
  {
    gs == []
    || (inp != []
        && if inp[0].contentType != 23 then Carries(decrypt, inp[1..], hsSeq, gs)
           else decrypt(hsSeq, inp[0]) == Some(InnerOf(gs[0])) && Carries(decrypt, inp[1..], hsSeq + 1, gs[1..]))
  }

  /** Finished is the last message of all, and in the last group. */
  predicate EndsInFinished(gs: seq<Group>) {
    && gs != [] && gs[|gs| - 1].Hs? && HasFinished(gs[|gs| - 1].ms)
    && forall i :: 0 <= i < |gs| - 1 ==>
       (gs[i].Hs? ==> !HasFinished(gs[i].ms)) && (gs[i].Other? ==> gs[i].contentType != 22)
  }

  predicate AllFit(gs: seq<Group>) {
    forall i :: 0 <= i < |gs| && gs[i].Hs? ==> forall m :: m in gs[i].ms ==> FitsMessage(m)
  }

  lemma MessageListConcat(a: seq<Message>, b: seq<Message>)
    ensures MessageList(a + b) == MessageList(a) + MessageList(b)
  {}

  lemma AppendedGroup(g: Group)
    requires g.Hs? ==> forall m :: m in g.ms ==> FitsMessage(m)
    requires g.Other? ==> g.contentType != 22
    ensures Appended(InnerOf(g)) == Some((MessageList(HandshakeOf(g)), HasFinished(HandshakeOf(g))))
  {
    if g.Hs? {
      ParsePrintedMessages(g.ms);
    }
  }

  /** The flight the notary rebuilds is the messages, however they were grouped. */
  lemma {:induction false} FlightOfGroups(decrypt: Decrypt, inp: seq<Record>, hsSeq: nat, gs: seq<Group>)
    requires Carries(decrypt, inp, hsSeq, gs) && EndsInFinished(gs) && AllFit(gs)
    ensures Flight(decrypt, inp, hsSeq) == Some((MessageList(MessagesOf(gs)), true))
    decreases |inp|
  {
    if inp[0].contentType != APPLICATION_DATA {
      FlightOfGroups(decrypt, inp[1..], hsSeq, gs);
    } else {
      var ms, rest := HandshakeOf(gs[0]), MessagesOf(gs[1..]);
      AppendedGroup(gs[0]);
      if |gs| == 1 {
        assert rest == [] && ms + rest == ms;
      } else {
        FlightOfGroups(decrypt, inp[1..], hsSeq + 1, gs[1..]);
        MessageListConcat(ms, rest);
      }
    }
  }

  /** Two captures whose records carry the same messages, grouped in any two ways, under any
      two sequences of records, give the notary the same hash: that of the hellos and the
      messages as sent, when there are at least four of them. */
  lemma GroupingDoesNotMatter<H>(hash: seq<Byte> -> H, decrypt: Decrypt, decrypt': Decrypt, ch: seq<Byte>,
                                 sh: seq<Byte>, inp: seq<Record>, inp': seq<Record>, gs: seq<Group>, gs': seq<Group>)
    requires Carries(decrypt, inp, 0, gs) && EndsInFinished(gs) && AllFit(gs)
    requires Carries(decrypt', inp', 0, gs') && EndsInFinished(gs') && AllFit(gs')
    requires MessagesOf(gs) == MessagesOf(gs')
    ensures NotaryHash(hash, decrypt, ch, sh, inp) == NotaryHash(hash, decrypt', ch, sh, inp')
    ensures NotaryHash(hash, decrypt, ch, sh, inp)
         == if |MessagesOf(gs)| < 4 then None else Some(hash(ch + sh + MessagesBytes(MessagesOf(gs))))
  {
    FlightOfGroups(decrypt, inp, 0, gs);
    FlightOfGroups(decrypt', inp', 0, gs');
    HellosThen(ch, sh, MessagesOf(gs));
  }

  lemma {:induction false} FlattenList(ms: seq<Message>)
    ensures Flatten(MessageList(ms)) == MessagesBytes(ms)
  {
    if ms != [] {
      assert MessageList(ms)[1..] == MessageList(ms[1..]);
      FlattenList(ms[1..]);
    }
  }

  lemma HellosThen(ch: seq<Byte>, sh: seq<Byte>, ms: seq<Message>)
    ensures Flatten([ch, sh] + MessageList(ms)) == ch + sh + MessagesBytes(ms)
  {
    var l := MessageList(ms);
    FlattenList(ms);
    assert ([ch, sh] + l)[1..] == [sh] + l && ([sh] + l)[1..] == l;
    assert ch + (sh + Flatten(l)) == ch + sh + Flatten(l);
  }

  // ---------------------------------------------------------------- the guest

  /** The guest's loop state: the messages after the hellos, the records left for application
      data, and which of the messages it needs it has seen. */
  datatype GuestState = GuestState(
    messages: seq<seq<Byte>>, done: bool, app: seq<seq<Byte>>, hasCertificate: bool, hasVerify: bool, hasFinished: bool)

  const CERTIFICATE: Byte := 11
  const CERTIFICATE_VERIFY: Byte := 15

  /** One message; a Certificate that does not parse is a panic. */
  function GuestMessage(certOk: seq<Byte> -> bool, st: GuestState, m: Message): Option<GuestState> {
    var st1 := st.(messages := st.messages + [MessageBytes(m)]);
    if m.msgType == CERTIFICATE then (if certOk(m.body) then Some(st1.(hasCertificate := true)) else None)
    else if m.msgType == CERTIFICATE_VERIFY then Some(st1.(hasVerify := true))
    else if m.msgType == FINISHED then Some(st1.(hasFinished := true, done := true))
    else Some(st1)
  }

  function GuestMessages(certOk: seq<Byte> -> bool, st: GuestState, ms: seq<Message>): Option<GuestState>
    decreases |ms|
  {
    if ms == [] then Some(st)
    else match GuestMessage(certOk, st, ms[0])
      case None => None
      case Some(next) => GuestMessages(certOk, next, ms[1..])
  }

  /** One record: an application record ends the handshake; every other one is parsed as
      handshake. */
  function GuestRecord(certOk: seq<Byte> -> bool, decrypt: Decrypt, st: GuestState, hsSeq: nat,
                       r: Record): Option<GuestState> {
    match decrypt(hsSeq, r)
    case None => None
    case Some(inner) =>
      if inner.contentType == APPLICATION_DATA then Some(st.(done := true, app := st.app + [RecordBytes(r)]))
      else match GuestParse(inner.plain)
        case Messages(ms) => GuestMessages(certOk, st, ms)
        case TruncatedHeader => None
        case TruncatedBody => None
  }

  function GuestFlight(certOk: seq<Byte> -> bool, decrypt: Decrypt, st: GuestState, hsSeq: nat,
                       inp: seq<Record>): Option<GuestState>
    decreases |inp|
  {
    if inp == [] then Some(st)
    else if inp[0].contentType != APPLICATION_DATA then GuestFlight(certOk, decrypt, st, hsSeq, inp[1..])
    else if st.done then GuestFlight(certOk, decrypt, st.(app := st.app + [RecordBytes(inp[0])]), hsSeq, inp[1..])
    else match GuestRecord(certOk, decrypt, st, hsSeq, inp[0])
      case None => None
      case Some(next) => GuestFlight(certOk, decrypt, next, hsSeq + 1, inp[1..])
  }

  function GuestStart(): GuestState {
    GuestState([], false, [], false, false, false)
  }

  /** The transcript hashes that the guest computes: before CertificateVerify, before Finished
      and after it. */
  datatype Hashes<H> = Hashes(beforeVerify: H, beforeFinished: H, afterFinished: H)

  function FirstHashed<H>(hash: seq<Byte> -> H, messages: seq<seq<Byte>>, n: nat): H
    requires n <= |messages|
  {
    hash(Flatten(messages[..n]))
  }

  /** The guest hashes the first four, five and six messages. */
  function GuestHashes<H>(hash: seq<Byte> -> H, certOk: seq<Byte> -> bool, decrypt: Decrypt, ch: seq<Byte>,
                          sh: seq<Byte>, inp: seq<Record>): Option<Hashes<H>> {
    match GuestFlight(certOk, decrypt, GuestStart(), 0, inp)
    case None => None
    case Some(st) =>
      var all := [ch, sh] + st.messages;
      if |all| < 6 || !st.hasCertificate || !st.hasVerify || !st.hasFinished then None
      else Some(Hashes(FirstHashed(hash, all, 4), FirstHashed(hash, all, 5), FirstHashed(hash, all, 6)))
  }

  /** Hashing a prefix of some messages, one after the other. */
  method HashFirst<H>(hash: seq<Byte> -> H, messages: seq<seq<Byte>>, n: nat) returns (h: H)
    requires n <= |messages|
    ensures h == FirstHashed(hash, messages, n)
  {
    var buf: seq<Byte>, i := [], 0;
    while i < n
      invariant i <= n && buf + Flatten(messages[i..n]) == Flatten(messages[..n])
    {
      assert messages[i..n][0] == messages[i] && messages[i..n][1..] == messages[i + 1..n];
      assert (buf + messages[i]) + Flatten(messages[i + 1..n]) == buf + (messages[i] + Flatten(messages[i + 1..n]));
      buf := buf + messages[i];
      i := i + 1;
    }
    assert buf + [] == buf;
    h := hash(buf);
  }

  method GuestHandshake<H>(hash: seq<Byte> -> H, certOk: seq<Byte> -> bool, decrypt: Decrypt, ch: seq<Byte>,
                           sh: seq<Byte>, inp: seq<Record>)
    returns (result: Option<Hashes<H>>)
    ensures result == GuestHashes(hash, certOk, decrypt, ch, sh, inp)
  {
    var st, hsSeq, i := GuestStart(), 0, 0;
    assert inp[0..] == inp;
    while i < |inp|
      invariant i <= |inp|
      invariant GuestFlight(certOk, decrypt, GuestStart(), 0, inp)
             == GuestFlight(certOk, decrypt, st, hsSeq, inp[i..])
    {
      assert inp[i..][1..] == inp[i + 1..];
      var r := inp[i];
      if r.contentType == APPLICATION_DATA {
        if st.done {
          st := st.(app := st.app + [RecordBytes(r)]);
        } else {
          var next := GuestReadRecord(certOk, decrypt, st, hsSeq, r);
          if next.None? {
            return None;
          }
          st := next.value;
          hsSeq := hsSeq + 1;
        }
      }
      i := i + 1;
    }
    var messages := [ch, sh] + st.messages;
    if |messages| < 6 || !st.hasCertificate || !st.hasVerify || !st.hasFinished {
      return None;
    }
    var beforeVerify := HashFirst(hash, messages, 4);
    var beforeFinished := HashFirst(hash, messages, 5);
    var afterFinished := HashFirst(hash, messages, 6);
    result := Some(Hashes(beforeVerify, beforeFinished, afterFinished));
  }

  method GuestReadRecord(certOk: seq<Byte> -> bool, decrypt: Decrypt, st0: GuestState, hsSeq: nat, r: Record)
    returns (result: Option<GuestState>)
    ensures result == GuestRecord(certOk, decrypt, st0, hsSeq, r)
  {
    var plain := decrypt(hsSeq, r);
    if plain.None? {
      return None;
    }
    if plain.value.contentType == APPLICATION_DATA {
      return Some(st0.(done := true, app := st0.app + [RecordBytes(r)]));
    }
    var parsed := GuestParseLoop(plain.value.plain);
    if !parsed.Messages? {
      return None;
    }
    var ms, st, i := parsed.ms, st0, 0;
    assert ms[0..] == ms;
    while i < |ms|
      invariant i <= |ms| && GuestMessages(certOk, st0, ms) == GuestMessages(certOk, st, ms[i..])
    {
      assert ms[i..][1..] == ms[i + 1..];
      var next := GuestMessage(certOk, st, ms[i]);
      if next.None? {
        return None;
      }
      st := next.value;
      i := i + 1;
    }
    result := Some(st);
  }

  // ---------------------------------------------------------------- agreement

  /** The guest's state after the messages `ms`, none of which fails to parse. */
  function AfterMessages(st: GuestState, ms: seq<Message>): GuestState {
    GuestState(st.messages + MessageList(ms), st.done || HasFinished(ms), st.app,
               st.hasCertificate || Has(ms, 11),
               st.hasVerify || Has(ms, 15),
               st.hasFinished || HasFinished(ms))
  }

  predicate CertificatesParse(certOk: seq<Byte> -> bool, ms: seq<Message>) {
    forall i :: 0 <= i < |ms| && ms[i].msgType == 11 ==> certOk(ms[i].body)
  }

  lemma {:induction false} GuestMessagesValue(certOk: seq<Byte> -> bool, st: GuestState, ms: seq<Message>)
    requires CertificatesParse(certOk, ms)
    ensures GuestMessages(certOk, st, ms) == Some(AfterMessages(st, ms))
    decreases |ms|
  {
    if ms == [] {
      assert st.messages + MessageList(ms) == st.messages;
    } else {
      OneMessage(certOk, st, ms[0]);
      forall i | 0 <= i < |ms[1..]| && ms[1..][i].msgType == 11 ensures certOk(ms[1..][i].body) {
        assert ms[i + 1] == ms[1..][i];
      }
      GuestMessagesValue(certOk, AfterMessages(st, [ms[0]]), ms[1..]);
      AfterFirst(st, ms);
    }
  }

  lemma OneMessage(certOk: seq<Byte> -> bool, st: GuestState, m: Message)
    requires m.msgType == 11 ==> certOk(m.body)
    ensures GuestMessage(certOk, st, m) == Some(AfterMessages(st, [m]))
  {
    assert MessageList([m]) == [MessageBytes(m)];
    assert [m][0] == m;
  }

  lemma AfterFirst(st: GuestState, ms: seq<Message>)
    requires ms != []
    ensures AfterMessages(AfterMessages(st, [ms[0]]), ms[1..]) == AfterMessages(st, ms)
  {
    AfterConcat(st, [ms[0]], ms[1..]);
    assert [ms[0]] + ms[1..] == ms;
  }

  lemma HasConcat(a: seq<Message>, b: seq<Message>, t: Byte)
    ensures Has(a + b, t) <==> Has(a, t) || Has(b, t)
  {
    if Has(a, t) {
      var i :| 0 <= i < |a| && a[i].msgType == t;
      assert (a + b)[i].msgType == t;
    }
    if Has(b, t) {
      var i :| 0 <= i < |b| && b[i].msgType == t;
      assert (a + b)[|a| + i].msgType == t;
    }
  }

  lemma AfterConcat(st: GuestState, a: seq<Message>, b: seq<Message>)
    ensures AfterMessages(AfterMessages(st, a), b) == AfterMessages(st, a + b)
  {
    MessageListConcat(a, b);
    assert st.messages + MessageList(a) + MessageList(b) == st.messages + (MessageList(a) + MessageList(b));
    HasConcat(a, b, 20);
    HasConcat(a, b, 11);
    HasConcat(a, b, 15);
  }

  /** After Finished the guest only sets records aside. */
  lemma {:induction false} GuestAfterDone(certOk: seq<Byte> -> bool, decrypt: Decrypt, st: GuestState, hsSeq: nat,
                                          inp: seq<Record>)
    requires st.done
    ensures GuestFlight(certOk, decrypt, st, hsSeq, inp).Some?
    ensures GuestFlight(certOk, decrypt, st, hsSeq, inp).value
            == st.(app := GuestFlight(certOk, decrypt, st, hsSeq, inp).value.app)
    decreases |inp|
  {
    if inp != [] {
      if inp[0].contentType != APPLICATION_DATA {
        GuestAfterDone(certOk, decrypt, st, hsSeq, inp[1..]);
      } else {
        GuestAfterDone(certOk, decrypt, st.(app := st.app + [RecordBytes(inp[0])]), hsSeq, inp[1..]);
      }
    }
  }

  /** Every group is handshake. */
  predicate AllHandshake(gs: seq<Group>) {
    forall i :: 0 <= i < |gs| ==> gs[i].Hs?
  }

  lemma CertificatesSplit(certOk: seq<Byte> -> bool, a: seq<Message>, b: seq<Message>)
    requires CertificatesParse(certOk, a + b)
    ensures CertificatesParse(certOk, a) && CertificatesParse(certOk, b)
  {
    assert forall i :: 0 <= i < |a| ==> (a + b)[i] == a[i];
    assert forall i :: 0 <= i < |b| ==> (a + b)[|a| + i] == b[i];
  }

  /** A Certificate that does not parse stops the guest. */
  lemma {:induction false} GuestMessagesFail(certOk: seq<Byte> -> bool, st: GuestState, ms: seq<Message>)
    requires !CertificatesParse(certOk, ms)
    ensures GuestMessages(certOk, st, ms) == None
    decreases |ms|
  {
    if CertificatesParse(certOk, [ms[0]]) {
      assert [ms[0]][0] == ms[0];
      OneMessage(certOk, st, ms[0]);
      var i :| 0 <= i < |ms| && ms[i].msgType == 11 && !certOk(ms[i].body);
      assert i > 0 && ms[1..][i - 1] == ms[i];
      GuestMessagesFail(certOk, AfterMessages(st, [ms[0]]), ms[1..]);
    }
  }

  lemma CertificatesConcat(certOk: seq<Byte> -> bool, a: seq<Message>, b: seq<Message>)
    ensures CertificatesParse(certOk, a + b) <==> CertificatesParse(certOk, a) && CertificatesParse(certOk, b)
  {
    if CertificatesParse(certOk, a + b) {
      CertificatesSplit(certOk, a, b);
    }
  }

  /** What the guest makes of a flight, in any grouping: nothing if a Certificate in it does not
      parse, and otherwise the state after its messages. */
  lemma {:induction false} GuestOfGroups(certOk: seq<Byte> -> bool, decrypt: Decrypt, st: GuestState, hsSeq: nat,
                                         inp: seq<Record>, gs: seq<Group>)
    requires !st.done && Carries(decrypt, inp, hsSeq, gs) && EndsInFinished(gs) && AllFit(gs) && AllHandshake(gs)
    ensures GuestFlight(certOk, decrypt, st, hsSeq, inp).Some? <==> CertificatesParse(certOk, MessagesOf(gs))
    ensures CertificatesParse(certOk, MessagesOf(gs))
        ==> GuestFlight(certOk, decrypt, st, hsSeq, inp).value.(app := [])
            == AfterMessages(st, MessagesOf(gs)).(app := [])
    decreases |inp|
  {
    if inp[0].contentType != APPLICATION_DATA {
      GuestOfGroups(certOk, decrypt, st, hsSeq, inp[1..], gs);
    } else {
      var ms, rest, next := gs[0].ms, MessagesOf(gs[1..]), AfterMessages(st, gs[0].ms);
      CertificatesConcat(certOk, ms, rest);
      GuestRecordValue(certOk, decrypt, st, hsSeq, inp[0], ms);
      if |gs| == 1 {
        assert rest == [] && ms + rest == ms;
        GuestAfterDone(certOk, decrypt, next, hsSeq + 1, inp[1..]);
      } else if CertificatesParse(certOk, ms) {
        GuestOfGroups(certOk, decrypt, next, hsSeq + 1, inp[1..], gs[1..]);
        AfterConcat(st, ms, rest);
      }
    }
  }

  lemma GuestRecordValue(certOk: seq<Byte> -> bool, decrypt: Decrypt, st: GuestState, hsSeq: nat, r: Record,
                         ms: seq<Message>)
    requires decrypt(hsSeq, r) == Some(Inner(MessagesBytes(ms), 22))
    requires forall m :: m in ms ==> FitsMessage(m)
    ensures GuestRecord(certOk, decrypt, st, hsSeq, r)
         == if CertificatesParse(certOk, ms) then Some(AfterMessages(st, ms)) else None
  {
    ParsePrintedMessages(ms);
    if CertificatesParse(certOk, ms) {
      GuestMessagesValue(certOk, st, ms);
    } else {
      GuestMessagesFail(certOk, st, ms);
    }
  }

  /** What the guest needs of a flight beside its length: Certificate is 11, CertificateVerify 15
      in section 4 of RFC 8446. */
  predicate GuestAccepts(certOk: seq<Byte> -> bool, ms: seq<Message>) {
    CertificatesParse(certOk, ms) && Has(ms, 11) && Has(ms, 15)
  }

  lemma FinishedIn(gs: seq<Group>)
    requires EndsInFinished(gs)
    ensures HasFinished(MessagesOf(gs))
    decreases |gs|
  {
    HasConcat(HandshakeOf(gs[0]), MessagesOf(gs[1..]), 20);
    if |gs| > 1 {
      FinishedIn(gs[1..]);
    }
  }

  /** The hash of the hellos and the first `n` messages of a flight. */
  function HashThrough<H>(hash: seq<Byte> -> H, ch: seq<Byte>, sh: seq<Byte>, ms: seq<Message>, n: nat): H
    requires n <= |ms|
  {
    hash(ch + sh + MessagesBytes(ms[..n]))
  }

  lemma FirstIsThrough<H>(hash: seq<Byte> -> H, ch: seq<Byte>, sh: seq<Byte>, ms: seq<Message>, n: nat)
    requires n <= |ms|
    ensures FirstHashed(hash, [ch, sh] + MessageList(ms), n + 2) == HashThrough(hash, ch, sh, ms, n)
  {
    assert ([ch, sh] + MessageList(ms))[..n + 2] == [ch, sh] + MessageList(ms[..n]);
    HellosThen(ch, sh, ms[..n]);
  }

  /** The guest's hashes of a flight, in any grouping and with anything after it: those through
      its second, third and fourth message, whatever these are. */
  lemma GuestHashesFlight<H>(hash: seq<Byte> -> H, certOk: seq<Byte> -> bool, decrypt: Decrypt, ch: seq<Byte>,
                             sh: seq<Byte>, inp: seq<Record>, gs: seq<Group>, ms: seq<Message>)
    requires Carries(decrypt, inp, 0, gs) && EndsInFinished(gs) && AllFit(gs) && AllHandshake(gs)
    requires ms == MessagesOf(gs)
    ensures GuestHashes(hash, certOk, decrypt, ch, sh, inp)
         == if |ms| < 4 || !GuestAccepts(certOk, ms) then None
            else Some(Hashes(HashThrough(hash, ch, sh, ms, 2), HashThrough(hash, ch, sh, ms, 3),
                             HashThrough(hash, ch, sh, ms, 4)))
  {
    GuestOfGroups(certOk, decrypt, GuestStart(), 0, inp, gs);
    FinishedIn(gs);
    assert [] + MessageList(ms) == MessageList(ms);
    if |ms| >= 4 {
      FirstIsThrough(hash, ch, sh, ms, 2);
      FirstIsThrough(hash, ch, sh, ms, 3);
      FirstIsThrough(hash, ch, sh, ms, 4);
    }
  }

  ghost predicate Injective<H(!new)>(hash: seq<Byte> -> H) {
    forall a: seq<Byte>, b: seq<Byte> :: hash(a) == hash(b) ==> a == b
  }

  lemma {:induction false} BytesConcat(a: seq<Message>, b: seq<Message>)
    ensures MessagesBytes(a + b) == MessagesBytes(a) + MessagesBytes(b)
    decreases |a|
  {
    if a == [] {
      assert a + b == b;
    } else {
      BytesConcat(a[1..], b);
      assert (a + b)[1..] == a[1..] + b;
      assert MessageBytes(a[0]) + (MessagesBytes(a[1..]) + MessagesBytes(b)) == MessagesBytes(a) + MessagesBytes(b);
    }
  }

  /** A message more is at least four bytes more. */
  lemma LongerFlight(ms: seq<Message>, n: nat)
    requires n < |ms|
    ensures |MessagesBytes(ms[..n])| < |MessagesBytes(ms)|
  {
    BytesConcat(ms[..n], ms[n..]);
    assert ms == ms[..n] + ms[n..];
  }

  /** The hash through Finished that the guest takes. */
  function GuestHash<H>(hash: seq<Byte> -> H, certOk: seq<Byte> -> bool, decrypt: Decrypt, ch: seq<Byte>,
                        sh: seq<Byte>, inp: seq<Record>): Option<H> {
    match GuestHashes(hash, certOk, decrypt, ch, sh, inp)
    case None => None
    case Some(h) => Some(h.afterFinished)
  }

  /** When guest and notary compute the same hash of a flight, each from its own capture with
      its own grouping: exactly when both refuse it as too short, or it has four messages and
      the guest accepts it. With a fifth message the guest leaves the last ones out. */
  lemma GuestAndNotaryAgree<H(!new)>(hash: seq<Byte> -> H, certOk: seq<Byte> -> bool, decrypt: Decrypt,
                                     decrypt': Decrypt, ch: seq<Byte>, sh: seq<Byte>, inp: seq<Record>,
                                     inp': seq<Record>, gs: seq<Group>, gs': seq<Group>, ms: seq<Message>)
    requires Injective(hash) && ms == MessagesOf(gs) == MessagesOf(gs')
    requires Carries(decrypt, inp, 0, gs) && EndsInFinished(gs) && AllFit(gs) && AllHandshake(gs)
    requires Carries(decrypt', inp', 0, gs') && EndsInFinished(gs') && AllFit(gs')
    ensures GuestHash(hash, certOk, decrypt, ch, sh, inp) == NotaryHash(hash, decrypt', ch, sh, inp')
       <==> |ms| < 4 || (|ms| == 4 && GuestAccepts(certOk, ms))
    ensures |ms| == 4 && GuestAccepts(certOk, ms)
        ==> GuestHash(hash, certOk, decrypt, ch, sh, inp) == Some(hash(ch + sh + MessagesBytes(ms)))
  {
    GroupingDoesNotMatter(hash, decrypt', decrypt', ch, sh, inp', inp', gs', gs');
    GuestHashesFlight(hash, certOk, decrypt, ch, sh, inp, gs, ms);
    if |ms| == 4 {
      assert ms[..4] == ms;
    } else if |ms| > 4 {
      LongerFlight(ms, 4);
    }
  }

  /** A flight in which the server also asks for a certificate. */
  function WithRequest(): seq<Message> {
    [Message(8, []), Message(13, []), Message(11, []), Message(15, []), Message(20, [])]
  }

  /** On it the two hashes differ. */
  lemma CertificateRequestExample(record: Record, decrypt: Decrypt, ch: seq<Byte>, sh: seq<Byte>)
    requires record.contentType == 23
    requires decrypt(0, record) == Some(Inner(MessagesBytes(WithRequest()), 22))
    ensures GuestHash(s => s, c => true, decrypt, ch, sh, [record]).Some?
    ensures NotaryHash(s => s, decrypt, ch, sh, [record]).Some?
    ensures GuestHash(s => s, c => true, decrypt, ch, sh, [record]) != NotaryHash(s => s, decrypt, ch, sh, [record])
  {
    var ms, gs, hash := WithRequest(), [Hs(WithRequest())], (s: seq<Byte>) => s;
    assert ms[2].msgType == 11 && ms[3].msgType == 15 && ms[4].msgType == 20;
    assert gs[1..] == [] && MessagesOf(gs) == ms + [] == ms;
    assert Carries(decrypt, [record], 0, gs);
    GroupingDoesNotMatter(hash, decrypt, decrypt, ch, sh, [record], [record], gs, gs);
    GuestHashesFlight(hash, c => true, decrypt, ch, sh, [record], gs, ms);
    LongerFlight(ms, 4);
  }
}
