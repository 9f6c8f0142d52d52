/** The notary's and the client's key schedule functions: what they call and what they return. */
module HkdfParties {
  import opened Bytes
  import opened Hmac
  import opened HmacParties
  import opened Hkdf

  /** The public parameters of a run, one party's share of the key material, and where its
      session stood at the start. */
  datatype Run = Run(c: Compress, ikm: Digest, afterSh: Digest, afterSf: Digest, calls: seq<Call>, replies: seq<Digest>)

  /** The first forty replies; zeros stand in for those the party will not get. */
  function Forty(replies: seq<Digest>): (r: seq<Digest>)
    ensures |r| == 40
    ensures |replies| >= 40 ==> r == replies[..40]
  {
    (replies + seq(40, _ => ZeroBytes(32)))[..40]
  }

  function Share(run: Run, j: nat): Digest
    requires j < 10
  {
    ShareAt(Forty(run.replies), j)
  }

  function Message(run: Run, j: nat): (m: seq<Byte>)
    requires 0 < j < 10
    ensures |m| <= 55
  {
    MessageAt(run.c, run.afterSh, run.afterSf, j)
  }

  /** After the start of `run`, a party has made the calls `parts`, four replies each. */
  ghost predicate Done(run: Run, calls: seq<Call>, replies: seq<Digest>, parts: seq<FourCalls>) {
    && |run.replies| >= 4 * |parts| && replies == run.replies[4 * |parts|..]
    && calls == run.calls + Joined(parts)
  }

  lemma Advance(run: Run, calls: seq<Call>, replies: seq<Digest>, parts: seq<FourCalls>, p: FourCalls)
    requires Done(run, calls, replies, parts) && |replies| >= 4
    ensures Done(run, calls + p, replies[4..], parts + [p])
  {
    var ps := parts + [p];
    assert ps[..|ps| - 1] == parts;
    assert (run.calls + Joined(parts)) + p == run.calls + (Joined(parts) + p);
  }

  /** The next four replies are those of the next HMAC. */
  lemma NextReplies(run: Run, replies: seq<Digest>, n: nat)
    requires n < 10 && |run.replies| >= 4 * n && replies == run.replies[4 * n..] && |replies| >= 4
    ensures replies[..4] == RepliesAt(Forty(run.replies), n) && replies[3] == Share(run, n)
  {
    forall k | 0 <= k < 4
      ensures replies[k] == Forty(run.replies)[4 * n + k]
    {
      assert replies[k] == run.replies[4 * n + k];
    }
    assert replies[3] == Forty(run.replies)[4 * n + 3];
  }

  /** The notary has done `n` HMACs of the schedule. */
  ghost predicate NotaryDone(run: Run, calls: seq<Call>, replies: seq<Digest>, n: nat)
    requires n <= 10
  {
    Done(run, calls, replies, NotaryParts(run.c, run.ikm, run.afterSh, run.afterSf, Forty(run.replies), n))
  }

  ghost predicate ClientDone(run: Run, calls: seq<Call>, replies: seq<Digest>, n: nat)
    requires n <= 10
  {
    Done(run, calls, replies, ClientParts(run.c, run.ikm, run.afterSh, run.afterSf, Forty(run.replies), n))
  }

  /** The party has made the forty calls of the schedule and holds the shares `t`. */
  ghost predicate NotaryEnded(run: Run, calls: seq<Call>, replies: seq<Digest>, t: Traffic) {
    && |run.replies| >= 40 && replies == run.replies[40..]
    && calls == run.calls + Joined(NotaryParts(run.c, run.ikm, run.afterSh, run.afterSf, run.replies[..40], 10))
    && t == TrafficShares(run.replies[..40])
  }

  lemma NotaryFinished(run: Run, calls: seq<Call>, replies: seq<Digest>)
    requires NotaryDone(run, calls, replies, 10)
    ensures NotaryEnded(run, calls, replies,
                        Traffic(Share(run, 6)[..16], Share(run, 8)[..12], Share(run, 7)[..16], Share(run, 9)[..12]))
  {}

  lemma NotaryAdvance(run: Run, calls: seq<Call>, replies: seq<Digest>, n: nat, more: FourCalls)
    requires n < 10 && NotaryDone(run, calls, replies, n) && |replies| >= 4
    requires more == NotaryCallsAt(run.c, run.ikm, run.afterSh, run.afterSf, Forty(run.replies), n)
    ensures NotaryDone(run, calls + more, replies[4..], n + 1)
  {
    var ps := NotaryParts(run.c, run.ikm, run.afterSh, run.afterSf, Forty(run.replies), n);
    Advance(run, calls, replies, ps, more);
    NotaryPartsNext(run.c, run.ikm, run.afterSh, run.afterSf, Forty(run.replies), n);
  }

  /** The party has made the forty calls of the schedule and holds the shares `t`. */
  ghost predicate ClientEnded(run: Run, calls: seq<Call>, replies: seq<Digest>, t: Traffic) {
    && |run.replies| >= 40 && replies == run.replies[40..]
    && calls == run.calls + Joined(ClientParts(run.c, run.ikm, run.afterSh, run.afterSf, run.replies[..40], 10))
    && t == TrafficShares(run.replies[..40])
  }

  lemma ClientFinished(run: Run, calls: seq<Call>, replies: seq<Digest>)
    requires ClientDone(run, calls, replies, 10)
    ensures ClientEnded(run, calls, replies,
                        Traffic(Share(run, 6)[..16], Share(run, 8)[..12], Share(run, 7)[..16], Share(run, 9)[..12]))
  {}

  lemma ClientAdvance(run: Run, calls: seq<Call>, replies: seq<Digest>, n: nat, more: FourCalls)
    requires n < 10 && ClientDone(run, calls, replies, n) && |replies| >= 4
    requires more == ClientCallsAt(run.c, run.ikm, run.afterSh, run.afterSf, Forty(run.replies), n)
    ensures ClientDone(run, calls + more, replies[4..], n + 1)
  {
    var ps := ClientParts(run.c, run.ikm, run.afterSh, run.afterSf, Forty(run.replies), n);
    Advance(run, calls, replies, ps, more);
    ClientPartsNext(run.c, run.ikm, run.afterSh, run.afterSf, Forty(run.replies), n);
  }

  // ---------------------------------------------------------------- the notary

  method NotaryFirst(s: Session, ghost run: Run, salt: Digest, ikmN: Digest) returns (r: CallResult<Digest>)
    requires NotaryDone(run, s.calls, s.replies, 0)
    requires salt == FirstDerived(run.c) && ikmN == run.ikm
    modifies s
    ensures r.Ok? == (|old(s.replies)| >= 4) && !r.Panic?
    ensures r.Ok? ==> r.value == Share(run, 0) && NotaryDone(run, s.calls, s.replies, 1)
  {
    ghost var calls, replies := s.calls, s.replies;
    r := NotaryHmacXorMsg(s, salt, ikmN);
    if r.Ok? {
      NextReplies(run, replies, 0);
      NotaryAdvance(run, calls, replies, 0, NotaryHmacCalls(salt, ikmN + OuterSuffix(), replies[..4]));
    }
  }

  /** HMAC `n` of the schedule, keyed with the notary's share of an earlier result. */
  method NotaryNext(s: Session, ghost run: Run, ghost n: nat, secretN: Digest, msgLen: nat)
    returns (r: CallResult<Digest>)
    requires 0 < n < 10 && NotaryDone(run, s.calls, s.replies, n)
    requires secretN == Share(run, KeyFrom(n)) && msgLen == |Message(run, n)|
    modifies s
    ensures r.Ok? == (|old(s.replies)| >= 4) && !r.Panic?
    ensures r.Ok? ==> r.value == Share(run, n) && NotaryDone(run, s.calls, s.replies, n + 1)
  {
    ghost var calls, replies := s.calls, s.replies;
    r := NotaryHmac(s, secretN, msgLen);
    if r.Ok? {
      NextReplies(run, replies, n);
      NotaryAdvance(run, calls, replies, n, NotaryHmacCalls(secretN, NotaryInnerPadding(msgLen), replies[..4]));
    }
  }

  function InfoLen(name: string, context: seq<Byte>, length: nat): (n: nat)
    ensures n == |ExpandLabelInfo(name, context, length)|
  {
    |ExpandLabelInfo(name, context, length)|
  }

  /** The handshake secret, the unused client handshake secret, and the salt of the master secret. */
  method NotaryHandshake(s: Session, ghost run: Run, c: Compress, ikmN: Digest, afterSh: Digest)
    returns (r: CallResult<Digest>)
    requires run.c == c && run.ikm == ikmN && run.afterSh == afterSh && run.calls == s.calls && run.replies == s.replies
    modifies s
    ensures r.Ok? == (|old(s.replies)| >= 12) && !r.Panic?
    ensures r.Ok? ==> r.value == Share(run, 2) && NotaryDone(run, s.calls, s.replies, 3)
  {
    var empty := Sha(c, []);
    var early := HmacSha(c, ZeroBytes(32), ZeroBytes(32));
    var derived1 := ExpandLabel(c, early, "derived", empty, 32);
    var hs :- NotaryFirst(s, run, derived1, ikmN);
    var clientHs :- NotaryNext(s, run, 1, hs, InfoLen("c hs traffic", afterSh, 32));
    var derived2 :- NotaryNext(s, run, 2, hs, InfoLen("derived", empty, 32));
    r := Ok(derived2);
  }

  /** The master secret and the two application traffic secrets. */
  method NotaryMaster(s: Session, ghost run: Run, derived2: Digest, afterSf: Digest)
    returns (r: CallResult<(Digest, Digest)>)
    requires NotaryDone(run, s.calls, s.replies, 3) && derived2 == Share(run, 2) && afterSf == run.afterSf
    modifies s
    ensures r.Ok? == (|old(s.replies)| >= 12) && !r.Panic?
    ensures r.Ok? ==> r.value == (Share(run, 4), Share(run, 5)) && NotaryDone(run, s.calls, s.replies, 6)
  {
    var master :- NotaryNext(s, run, 3, derived2, 32);
    r := NotarySecrets(s, run, master, afterSf);
  }

  method NotarySecrets(s: Session, ghost run: Run, master: Digest, afterSf: Digest)
    returns (r: CallResult<(Digest, Digest)>)
    requires NotaryDone(run, s.calls, s.replies, 4) && master == Share(run, 3) && afterSf == run.afterSf
    modifies s
    ensures r.Ok? == (|old(s.replies)| >= 8) && !r.Panic?
    ensures r.Ok? ==> r.value == (Share(run, 4), Share(run, 5)) && NotaryDone(run, s.calls, s.replies, 6)
  {
    var clientApp :- NotaryNext(s, run, 4, master, InfoLen("c ap traffic", afterSf, 32));
    var serverApp :- NotaryNext(s, run, 5, master, InfoLen("s ap traffic", afterSf, 32));
    r := Ok((clientApp, serverApp));
  }

  /** The write and the read key. */
  method NotaryKeys(s: Session, ghost run: Run, clientApp: Digest, serverApp: Digest)
    returns (r: CallResult<(Digest, Digest)>)
    requires NotaryDone(run, s.calls, s.replies, 6) && clientApp == Share(run, 4) && serverApp == Share(run, 5)
    modifies s
    ensures r.Ok? == (|old(s.replies)| >= 8) && !r.Panic?
    ensures r.Ok? ==> r.value == (Share(run, 6), Share(run, 7)) && NotaryDone(run, s.calls, s.replies, 8)
  {
    var tx :- NotaryNext(s, run, 6, clientApp, InfoLen("key", [], 16));
    var rx :- NotaryNext(s, run, 7, serverApp, InfoLen("key", [], 16));
    r := Ok((tx, rx));
  }

  /** The write and the read IV. */
  method NotaryIvs(s: Session, ghost run: Run, clientApp: Digest, serverApp: Digest)
    returns (r: CallResult<(Digest, Digest)>)
    requires NotaryDone(run, s.calls, s.replies, 8) && clientApp == Share(run, 4) && serverApp == Share(run, 5)
    modifies s
    ensures r.Ok? == (|old(s.replies)| >= 8) && !r.Panic?
    ensures r.Ok? ==> r.value == (Share(run, 8), Share(run, 9)) && NotaryDone(run, s.calls, s.replies, 10)
  {
    var tx :- NotaryNext(s, run, 8, clientApp, InfoLen("iv", [], 12));
    var rx :- NotaryNext(s, run, 9, serverApp, InfoLen("iv", [], 12));
    r := Ok((tx, rx));
  }

  /** The notary's schedule: with forty replies it makes exactly the forty calls of the ten
      HMACs and returns its key and IV shares; no message is too long, so it never panics. */
  method NotaryTraffic(s: Session, c: Compress, ikmN: Digest, afterSh: Digest, afterSf: Digest)
    returns (r: CallResult<Traffic>)
    modifies s
    ensures r.Ok? == (|old(s.replies)| >= 40) && !r.Panic?
    ensures r.Ok? ==> r.value == TrafficShares(old(s.replies)[..40]) && s.replies == old(s.replies)[40..]
    ensures r.Ok? ==> s.calls == old(s.calls) + Joined(NotaryParts(c, ikmN, afterSh, afterSf, old(s.replies)[..40], 10))
  {
    ghost var run := Run(c, ikmN, afterSh, afterSf, s.calls, s.replies);
    var derived2 :- NotaryHandshake(s, run, c, ikmN, afterSh);
    var secrets :- NotaryMaster(s, run, derived2, afterSf);
    var clientApp, serverApp := secrets.0, secrets.1;
    var keys :- NotaryKeys(s, run, clientApp, serverApp);
    var ivs :- NotaryIvs(s, run, clientApp, serverApp);
    NotaryFinished(run, s.calls, s.replies);
    r := Ok(Traffic(keys.0[..16], ivs.0[..12], keys.1[..16], ivs.1[..12]));
  }

  // ---------------------------------------------------------------- the client

  method ClientFirst(s: Session, ghost run: Run, ikmC: Digest) returns (r: CallResult<Digest>)
    requires ClientDone(run, s.calls, s.replies, 0) && ikmC == run.ikm
    modifies s
    ensures r.Ok? == (|old(s.replies)| >= 4) && !r.Panic?
    ensures r.Ok? ==> r.value == Share(run, 0) && ClientDone(run, s.calls, s.replies, 1)
  {
    ghost var calls, replies := s.calls, s.replies;
    r := ClientHmacXorMsg(s, ZeroBytes(32), ikmC);
    if r.Ok? {
      NextReplies(run, replies, 0);
      ClientAdvance(run, calls, replies, 0, ClientHmacCalls(ZeroBytes(32), ikmC + ZeroBytes(32), replies[..4]));
    }
  }

  /** The message of an HKDF-Expand-Label, piece by piece. */
  method LabelInfo(name: string, context: seq<Byte>, length: nat) returns (info: seq<Byte>)
    ensures info == ExpandLabelInfo(name, context, length)
  {
    var full := "tls13 " + name;
    info := BigEndian(2, length);
    info := info + [|full| % 256];
    info := info + Ascii(full);
    info := info + [|context| % 256];
    info := info + context;
    info := info + [1];
    assert Ascii(full) == Ascii("tls13 ") + Ascii(name);
  }

  /** HMAC `n` of the schedule, keyed with the client's share of an earlier result. */
  method ClientNext(s: Session, ghost run: Run, ghost n: nat, secretC: Digest, msg: seq<Byte>)
    returns (r: CallResult<Digest>)
    requires 0 < n < 10 && ClientDone(run, s.calls, s.replies, n)
    requires secretC == Share(run, KeyFrom(n)) && msg == Message(run, n)
    modifies s
    ensures r.Ok? == (|old(s.replies)| >= 4) && !r.Panic?
    ensures r.Ok? ==> r.value == Share(run, n) && ClientDone(run, s.calls, s.replies, n + 1)
  {
    ghost var calls, replies := s.calls, s.replies;
    r := ClientHmac(s, secretC, msg);
    if r.Ok? {
      NextReplies(run, replies, n);
      ClientAdvance(run, calls, replies, n, ClientHmacCalls(secretC, ClientInnerMsg(msg), replies[..4]));
    }
  }

  /** The handshake secret, the unused client handshake secret, and the salt of the master secret. */
  method ClientHandshake(s: Session, ghost run: Run, c: Compress, ikmC: Digest, afterSh: Digest)
    returns (r: CallResult<Digest>)
    requires run.c == c && run.ikm == ikmC && run.afterSh == afterSh && run.calls == s.calls && run.replies == s.replies
    modifies s
    ensures r.Ok? == (|old(s.replies)| >= 12) && !r.Panic?
    ensures r.Ok? ==> r.value == Share(run, 2) && ClientDone(run, s.calls, s.replies, 3)
  {
    hide ExpandLabelInfo, Sha;
    var empty := Sha(c, []);
    var hs :- ClientFirst(s, run, ikmC);
    var clientHsInfo := LabelInfo("c hs traffic", afterSh, 32);
    var clientHs :- ClientNext(s, run, 1, hs, clientHsInfo);
    var derived2Info := LabelInfo("derived", empty, 32);
    var derived2 :- ClientNext(s, run, 2, hs, derived2Info);
    r := Ok(derived2);
  }

  /** The master secret and the two application traffic secrets. */
  method ClientMaster(s: Session, ghost run: Run, derived2: Digest, afterSf: Digest)
    returns (r: CallResult<(Digest, Digest)>)
    requires ClientDone(run, s.calls, s.replies, 3) && derived2 == Share(run, 2) && afterSf == run.afterSf
    modifies s
    ensures r.Ok? == (|old(s.replies)| >= 12) && !r.Panic?
    ensures r.Ok? ==> r.value == (Share(run, 4), Share(run, 5)) && ClientDone(run, s.calls, s.replies, 6)
  {
    var master :- ClientNext(s, run, 3, derived2, ZeroBytes(32));
    var clientAppInfo := LabelInfo("c ap traffic", afterSf, 32);
    var clientApp :- ClientNext(s, run, 4, master, clientAppInfo);
    var serverAppInfo := LabelInfo("s ap traffic", afterSf, 32);
    var serverApp :- ClientNext(s, run, 5, master, serverAppInfo);
    r := Ok((clientApp, serverApp));
  }

  /** The write and the read key. */
  method ClientKeys(s: Session, ghost run: Run, clientApp: Digest, serverApp: Digest)
    returns (r: CallResult<(Digest, Digest)>)
    requires ClientDone(run, s.calls, s.replies, 6) && clientApp == Share(run, 4) && serverApp == Share(run, 5)
    modifies s
    ensures r.Ok? == (|old(s.replies)| >= 8) && !r.Panic?
    ensures r.Ok? ==> r.value == (Share(run, 6), Share(run, 7)) && ClientDone(run, s.calls, s.replies, 8)
  {
    var txInfo := LabelInfo("key", [], 16);
    var tx :- ClientNext(s, run, 6, clientApp, txInfo);
    var rxInfo := LabelInfo("key", [], 16);
    var rx :- ClientNext(s, run, 7, serverApp, rxInfo);
    r := Ok((tx, rx));
  }

  /** The write and the read IV. */
  method ClientIvs(s: Session, ghost run: Run, clientApp: Digest, serverApp: Digest)
    returns (r: CallResult<(Digest, Digest)>)
    requires ClientDone(run, s.calls, s.replies, 8) && clientApp == Share(run, 4) && serverApp == Share(run, 5)
    modifies s
    ensures r.Ok? == (|old(s.replies)| >= 8) && !r.Panic?
    ensures r.Ok? ==> r.value == (Share(run, 8), Share(run, 9)) && ClientDone(run, s.calls, s.replies, 10)
  {
    var txInfo := LabelInfo("iv", [], 12);
    var tx :- ClientNext(s, run, 8, clientApp, txInfo);
    var rxInfo := LabelInfo("iv", [], 12);
    var rx :- ClientNext(s, run, 9, serverApp, rxInfo);
    r := Ok((tx, rx));
  }

  /** The client's schedule, call for call in step with the notary's. */
  method ClientTraffic(s: Session, c: Compress, ikmC: Digest, afterSh: Digest, afterSf: Digest)
    returns (r: CallResult<Traffic>)
    modifies s
    ensures r.Ok? == (|old(s.replies)| >= 40) && !r.Panic?
    ensures r.Ok? ==> r.value == TrafficShares(old(s.replies)[..40]) && s.replies == old(s.replies)[40..]
    ensures r.Ok? ==> s.calls == old(s.calls) + Joined(ClientParts(c, ikmC, afterSh, afterSf, old(s.replies)[..40], 10))
  {
    ghost var run := Run(c, ikmC, afterSh, afterSf, s.calls, s.replies);
    var derived2 :- ClientHandshake(s, run, c, ikmC, afterSh);
    var secrets :- ClientMaster(s, run, derived2, afterSf);
    var clientApp, serverApp := secrets.0, secrets.1;
    var keys :- ClientKeys(s, run, clientApp, serverApp);
    var ivs :- ClientIvs(s, run, clientApp, serverApp);
    ClientFinished(run, s.calls, s.replies);
    r := Ok(Traffic(keys.0[..16], ivs.0[..12], keys.1[..16], ivs.1[..12]));
  }
}
