/** The TLS 1.3 client traffic schedule between two parties that hold XOR shares of the
    input key material: ten HMACs, forty joint compressions. */
module Hkdf {
  import opened Bytes
  import opened Hmac

  // ---------------------------------------------------------------- the reference

  function Ascii(s: string): (r: seq<Byte>)
    ensures |r| == |s|
  {
    seq(|s|, i requires 0 <= i < |s| => (s[i] as int) % 256)
  }

  /** HkdfLabel of section 7.1 of RFC 8446, then the counter byte of the only iteration of
      HKDF-Expand. Lengths are cut to their field's width. */
  function ExpandLabelInfo(name: string, context: seq<Byte>, length: nat): (r: seq<Byte>)
    ensures |r| == 11 + |name| + |context|
  {
    BigEndian(2, length) + [(6 + |name|) % 256] + Ascii("tls13 ") + Ascii(name) + [|context| % 256] + context + [1]
  }

  function ExpandLabel(c: Compress, prk: Digest, name: string, context: seq<Byte>, length: nat): Digest {
    HmacSha(c, prk, ExpandLabelInfo(name, context, length))
  }

  datatype Traffic = Traffic(txKey: seq<Byte>, txIv: seq<Byte>, rxKey: seq<Byte>, rxIv: seq<Byte>)

  /** The salt of the handshake secret: public, since no pre-shared key is used. */
  function FirstDerived(c: Compress): Digest {
    ExpandLabel(c, HmacSha(c, ZeroBytes(32), ZeroBytes(32)), "derived", Sha(c, []), 32)
  }

  function HandshakeSecret(c: Compress, ikm: Digest): Digest {
    HmacSha(c, FirstDerived(c), ikm)
  }

  function MasterSecret(c: Compress, ikm: Digest): Digest {
    HmacSha(c, ExpandLabel(c, HandshakeSecret(c, ikm), "derived", Sha(c, []), 32), ZeroBytes(32))
  }

  /** The client's write and read keys and IVs of section 7.1 and 7.3 of RFC 8446. */
  function ReferenceTraffic(c: Compress, ikm: Digest, afterSf: Digest): Traffic {
    var client := ExpandLabel(c, MasterSecret(c, ikm), "c ap traffic", afterSf, 32);
    var server := ExpandLabel(c, MasterSecret(c, ikm), "s ap traffic", afterSf, 32);
    Traffic(ExpandLabel(c, client, "key", [], 16)[..16], ExpandLabel(c, client, "iv", [], 12)[..12],
            ExpandLabel(c, server, "key", [], 16)[..16], ExpandLabel(c, server, "iv", [], 12)[..12])
  }

  // ---------------------------------------------------------------- the ten HMACs

  /** Which earlier HMAC's result is the key of HMAC `j`. */
  function KeyFrom(j: nat): (k: nat)
    requires 0 < j < 10
    ensures k < j
  {
    match j
    case 1 => 0
    case 2 => 0
    case 3 => 2
    case 4 => 3
    case 5 => 3
    case 6 => 4
    case 7 => 5
    case 8 => 4
    case _ => 5
  }

  /** The message of HMAC `j`; it always fits the single last block. */
  function MessageAt(c: Compress, afterSh: Digest, afterSf: Digest, j: nat): (m: seq<Byte>)
    requires 0 < j < 10
    ensures |m| <= 55
  {
    match j
    case 1 => ExpandLabelInfo("c hs traffic", afterSh, 32)
    case 2 => ExpandLabelInfo("derived", Sha(c, []), 32)
    case 3 => ZeroBytes(32)
    case 4 => ExpandLabelInfo("c ap traffic", afterSf, 32)
    case 5 => ExpandLabelInfo("s ap traffic", afterSf, 32)
    case 6 => ExpandLabelInfo("key", [], 16)
    case 7 => ExpandLabelInfo("key", [], 16)
    case 8 => ExpandLabelInfo("iv", [], 12)
    case _ => ExpandLabelInfo("iv", [], 12)
  }

  /** What HMAC `j` yields when one party runs the schedule. */
  function ResultAt(c: Compress, ikm: Digest, afterSh: Digest, afterSf: Digest, j: nat): Digest
    requires j < 10
  {
    if j == 0 then HandshakeSecret(c, ikm)
    else HmacSha(c, ResultAt(c, ikm, afterSh, afterSf, KeyFrom(j)), MessageAt(c, afterSh, afterSf, j))
  }

  /** A party's share of the result of HMAC `j`: the last of its four replies. */
  function ShareAt(r: seq<Digest>, j: nat): Digest
    requires |r| == 40 && j < 10
  {
    r[4 * j + 3]
  }

  /** The replies to HMAC `j`. */
  function RepliesAt(r: seq<Digest>, j: nat): (p: seq<Digest>)
    requires |r| == 40 && j < 10
    ensures |p| == 4 && p[3] == ShareAt(r, j)
  {
    r[4 * j..4 * j + 4]
  }

  function NotaryCallsAt(c: Compress, ikmN: Digest, afterSh: Digest, afterSf: Digest, r: seq<Digest>, j: nat): FourCalls
    requires |r| == 40 && j < 10
  {
    if j == 0 then NotaryHmacCalls(FirstDerived(c), ikmN + OuterSuffix(), RepliesAt(r, 0))
    else NotaryHmacCalls(ShareAt(r, KeyFrom(j)), NotaryInnerPadding(|MessageAt(c, afterSh, afterSf, j)|),
                         RepliesAt(r, j))
  }

  function ClientCallsAt(c: Compress, ikmC: Digest, afterSh: Digest, afterSf: Digest, r: seq<Digest>, j: nat): FourCalls
    requires |r| == 40 && j < 10
  {
    if j == 0 then ClientHmacCalls(ZeroBytes(32), ikmC + ZeroBytes(32), RepliesAt(r, 0))
    else ClientHmacCalls(ShareAt(r, KeyFrom(j)), ClientInnerMsg(MessageAt(c, afterSh, afterSf, j)), RepliesAt(r, j))
  }

  /** Lists of four calls, one after the other. */
  function Joined(parts: seq<FourCalls>): (cs: seq<Call>)
    ensures |cs| == 4 * |parts|
  {
    if parts == [] then [] else Joined(parts[..|parts| - 1]) + parts[|parts| - 1]
  }

  lemma {:induction false} JoinedPart(parts: seq<FourCalls>, j: nat)
    requires j < |parts|
    ensures Joined(parts)[4 * j..4 * j + 4] == parts[j]
    decreases |parts|
  {
    if j < |parts| - 1 {
      var init := parts[..|parts| - 1];
      JoinedPart(init, j);
      assert Joined(parts)[4 * j..4 * j + 4] == Joined(init)[4 * j..4 * j + 4];
    }
  }

  /** The notary's calls, HMAC by HMAC. */
  function NotaryParts(c: Compress, ikmN: Digest, afterSh: Digest, afterSf: Digest, r: seq<Digest>,
                       n: nat): (ps: seq<FourCalls>)
    requires |r| == 40 && n <= 10
    ensures |ps| == n && forall j :: 0 <= j < n ==> ps[j] == NotaryCallsAt(c, ikmN, afterSh, afterSf, r, j)
  {
    seq(n, j requires 0 <= j < n => NotaryCallsAt(c, ikmN, afterSh, afterSf, r, j))
  }

  lemma NotaryPartsNext(c: Compress, ikmN: Digest, afterSh: Digest, afterSf: Digest, r: seq<Digest>, n: nat)
    requires |r| == 40 && n < 10
    ensures NotaryParts(c, ikmN, afterSh, afterSf, r, n + 1)
            == NotaryParts(c, ikmN, afterSh, afterSf, r, n) + [NotaryCallsAt(c, ikmN, afterSh, afterSf, r, n)]
  {}

  function ClientParts(c: Compress, ikmC: Digest, afterSh: Digest, afterSf: Digest, r: seq<Digest>,
                       n: nat): (ps: seq<FourCalls>)
    requires |r| == 40 && n <= 10
    ensures |ps| == n && forall j :: 0 <= j < n ==> ps[j] == ClientCallsAt(c, ikmC, afterSh, afterSf, r, j)
  {
    seq(n, j requires 0 <= j < n => ClientCallsAt(c, ikmC, afterSh, afterSf, r, j))
  }

  lemma ClientPartsNext(c: Compress, ikmC: Digest, afterSh: Digest, afterSf: Digest, r: seq<Digest>, n: nat)
    requires |r| == 40 && n < 10
    ensures ClientParts(c, ikmC, afterSh, afterSf, r, n + 1)
            == ClientParts(c, ikmC, afterSh, afterSf, r, n) + [ClientCallsAt(c, ikmC, afterSh, afterSf, r, n)]
  {}

  // ---------------------------------------------------------------- correctness

  /** An honest run of the schedule: what each party called, and what it got back. */
  ghost predicate HonestSchedule(c: Compress, ikmN: Digest, ikmC: Digest, afterSh: Digest, afterSf: Digest,
                                 rn: seq<Digest>, rc: seq<Digest>) {
    && |rn| == |rc| == 40
    && Honest(c, Joined(NotaryParts(c, ikmN, afterSh, afterSf, rn, 10)), rn,
              Joined(ClientParts(c, ikmC, afterSh, afterSf, rc, 10)), rc)
  }

  lemma HonestAt(c: Compress, ikmN: Digest, ikmC: Digest, afterSh: Digest, afterSf: Digest, rn: seq<Digest>,
                 rc: seq<Digest>, j: nat)
    requires HonestSchedule(c, ikmN, ikmC, afterSh, afterSf, rn, rc) && j < 10
    ensures Honest(c, NotaryCallsAt(c, ikmN, afterSh, afterSf, rn, j), RepliesAt(rn, j),
                   ClientCallsAt(c, ikmC, afterSh, afterSf, rc, j), RepliesAt(rc, j))
  {
    var pn, pc := NotaryParts(c, ikmN, afterSh, afterSf, rn, 10), ClientParts(c, ikmC, afterSh, afterSf, rc, 10);
    JoinedPart(pn, j);
    JoinedPart(pc, j);
    HonestPart(c, Joined(pn), rn, Joined(pc), rc, 4 * j, 4 * j + 4);
  }

  /** Every HMAC of the schedule leaves the parties with XOR shares of what one party would get. */
  lemma {:induction false} ScheduleShares(c: Compress, ikmN: Digest, ikmC: Digest, afterSh: Digest, afterSf: Digest,
                                          rn: seq<Digest>, rc: seq<Digest>, j: nat)
    requires HonestSchedule(c, ikmN, ikmC, afterSh, afterSf, rn, rc) && j < 10
    ensures XorBytes(ShareAt(rn, j), ShareAt(rc, j)) == ResultAt(c, XorBytes(ikmN, ikmC), afterSh, afterSf, j)
  {
    HonestAt(c, ikmN, ikmC, afterSh, afterSf, rn, rc, j);
    if j == 0 {
      XorBytesZero(FirstDerived(c));
      HmacXorMessageShares(c, FirstDerived(c), ZeroBytes(32), ikmN, ikmC, RepliesAt(rn, 0), RepliesAt(rc, 0));
    } else {
      var k := KeyFrom(j);
      ScheduleShares(c, ikmN, ikmC, afterSh, afterSf, rn, rc, k);
      HmacMessageShares(c, ShareAt(rn, k), ShareAt(rc, k), MessageAt(c, afterSh, afterSf, j), RepliesAt(rn, j),
                        RepliesAt(rc, j));
    }
  }

  /** The key and IV shares a party ends with. */
  function TrafficShares(r: seq<Digest>): Traffic
    requires |r| == 40
  {
    Traffic(ShareAt(r, 6)[..16], ShareAt(r, 8)[..12], ShareAt(r, 7)[..16], ShareAt(r, 9)[..12])
  }

  predicate SameShape(a: Traffic, b: Traffic) {
    |a.txKey| == |b.txKey| && |a.txIv| == |b.txIv| && |a.rxKey| == |b.rxKey| && |a.rxIv| == |b.rxIv|
  }

  function XorTraffic(a: Traffic, b: Traffic): Traffic
    requires SameShape(a, b)
  {
    Traffic(XorBytes(a.txKey, b.txKey), XorBytes(a.txIv, b.txIv), XorBytes(a.rxKey, b.rxKey), XorBytes(a.rxIv, b.rxIv))
  }

  lemma XorPrefix(a: Digest, b: Digest, n: nat)
    requires n <= 32
    ensures XorBytes(a[..n], b[..n]) == XorBytes(a, b)[..n]
  {}

  /** For every split of the key material and every pair of transcript hashes, the two
      parties' key and IV shares add up to the traffic keys and IVs of one party. */
  lemma TrafficSharesCorrect(c: Compress, ikmN: Digest, ikmC: Digest, afterSh: Digest, afterSf: Digest,
                             rn: seq<Digest>, rc: seq<Digest>)
    requires HonestSchedule(c, ikmN, ikmC, afterSh, afterSf, rn, rc)
    ensures XorTraffic(TrafficShares(rn), TrafficShares(rc)) == ReferenceTraffic(c, XorBytes(ikmN, ikmC), afterSf)
  {
    var ikm := XorBytes(ikmN, ikmC);
    ScheduleShares(c, ikmN, ikmC, afterSh, afterSf, rn, rc, 6);
    ScheduleShares(c, ikmN, ikmC, afterSh, afterSf, rn, rc, 7);
    ScheduleShares(c, ikmN, ikmC, afterSh, afterSf, rn, rc, 8);
    ScheduleShares(c, ikmN, ikmC, afterSh, afterSf, rn, rc, 9);
    XorPrefix(ShareAt(rn, 6), ShareAt(rc, 6), 16);
    XorPrefix(ShareAt(rn, 7), ShareAt(rc, 7), 16);
    XorPrefix(ShareAt(rn, 8), ShareAt(rc, 8), 12);
    XorPrefix(ShareAt(rn, 9), ShareAt(rc, 9), 12);
    TrafficResults(c, ikm, afterSh, afterSf);
  }

  /** One HMAC of the schedule, from the result its key is. */
  lemma NextResult(c: Compress, ikm: Digest, afterSh: Digest, afterSf: Digest, j: nat, key: Digest)
    requires 0 < j < 10 && key == ResultAt(c, ikm, afterSh, afterSf, KeyFrom(j))
    ensures ResultAt(c, ikm, afterSh, afterSf, j) == HmacSha(c, key, MessageAt(c, afterSh, afterSf, j))
  {}

  /** The two application traffic secrets. */
  lemma SecretResults(c: Compress, ikm: Digest, afterSh: Digest, afterSf: Digest)
    ensures ResultAt(c, ikm, afterSh, afterSf, 4) == ExpandLabel(c, MasterSecret(c, ikm), "c ap traffic", afterSf, 32)
    ensures ResultAt(c, ikm, afterSh, afterSf, 5) == ExpandLabel(c, MasterSecret(c, ikm), "s ap traffic", afterSf, 32)
  {
    var hs := HandshakeSecret(c, ikm);
    NextResult(c, ikm, afterSh, afterSf, 2, hs);
    NextResult(c, ikm, afterSh, afterSf, 3, ExpandLabel(c, hs, "derived", Sha(c, []), 32));
    NextResult(c, ikm, afterSh, afterSf, 4, MasterSecret(c, ikm));
    NextResult(c, ikm, afterSh, afterSf, 5, MasterSecret(c, ikm));
  }

  lemma TrafficResults(c: Compress, ikm: Digest, afterSh: Digest, afterSf: Digest)
    ensures
      var t := ReferenceTraffic(c, ikm, afterSf);
      && ResultAt(c, ikm, afterSh, afterSf, 6)[..16] == t.txKey && ResultAt(c, ikm, afterSh, afterSf, 8)[..12] == t.txIv
      && ResultAt(c, ikm, afterSh, afterSf, 7)[..16] == t.rxKey && ResultAt(c, ikm, afterSh, afterSf, 9)[..12] == t.rxIv
  {
    var client := ExpandLabel(c, MasterSecret(c, ikm), "c ap traffic", afterSf, 32);
    var server := ExpandLabel(c, MasterSecret(c, ikm), "s ap traffic", afterSf, 32);
    SecretResults(c, ikm, afterSh, afterSf);
    NextResult(c, ikm, afterSh, afterSf, 6, client);
    NextResult(c, ikm, afterSh, afterSf, 8, client);
    NextResult(c, ikm, afterSh, afterSf, 7, server);
    NextResult(c, ikm, afterSh, afterSf, 9, server);
  }

  // ---------------------------------------------------------------- runs of the schedule

  /** The client's forty calls, from all its replies. */
  function ClientScheduleList(c: Compress, ikmC: Digest, afterSh: Digest, afterSf: Digest): CallList {
    (r: seq<Digest>) => if |r| == 40 then Joined(ClientParts(c, ikmC, afterSh, afterSf, r, 10)) else []
  }

  lemma ListAt(c: Compress, ikmC: Digest, afterSh: Digest, afterSf: Digest, r: seq<Digest>, j: nat, m: nat)
    requires |r| == 40 && j < 10 && m < 4
    ensures |ClientScheduleList(c, ikmC, afterSh, afterSf)(r)| == 40
    ensures ClientScheduleList(c, ikmC, afterSh, afterSf)(r)[4 * j + m]
            == ClientCallsAt(c, ikmC, afterSh, afterSf, r, j)[m]
  {
    var parts := ClientParts(c, ikmC, afterSh, afterSf, r, 10);
    var list := Joined(parts);
    JoinedPart(parts, j);
    assert list[4 * j + m] == list[4 * j..4 * j + 4][m];
  }

  lemma ScheduleListCausal(c: Compress, ikmC: Digest, afterSh: Digest, afterSf: Digest)
    ensures Causal(ClientScheduleList(c, ikmC, afterSh, afterSf), 40)
  {
    var calls := ClientScheduleList(c, ikmC, afterSh, afterSf);
    forall r: seq<Digest> | |r| == 40 ensures |calls(r)| == 40 {
      ListAt(c, ikmC, afterSh, afterSf, r, 0, 0);
    }
    forall r: seq<Digest>, r': seq<Digest>, i: nat | |r| == |r'| == 40 && i < 40 && r[..i] == r'[..i]
      ensures calls(r)[i] == calls(r')[i]
    {
      assert i == 4 * (i / 4) + i % 4;
      ListAt(c, ikmC, afterSh, afterSf, r, i / 4, i % 4);
      ListAt(c, ikmC, afterSh, afterSf, r', i / 4, i % 4);
      ScheduleCallCausal(c, ikmC, afterSh, afterSf, r, r', i / 4, i % 4);
    }
  }

  /** Call `m` of HMAC `j` uses an earlier HMAC's share as its key, and its own earlier replies. */
  lemma ScheduleCallCausal(c: Compress, ikmC: Digest, afterSh: Digest, afterSf: Digest, r: seq<Digest>, r': seq<Digest>,
                           j: nat, m: nat)
    requires |r| == |r'| == 40 && j < 10 && m < 4 && r[..4 * j + m] == r'[..4 * j + m]
    ensures ClientCallsAt(c, ikmC, afterSh, afterSf, r, j)[m] == ClientCallsAt(c, ikmC, afterSh, afterSf, r', j)[m]
  {
    hide MessageAt, ClientInnerMsg, ClientHmacCalls, KeyFrom, ShareAt;
    SameBefore(r, r', 4 * j, m);
    var p, p' := RepliesAt(r, j), RepliesAt(r', j);
    if j == 0 {
      HmacCallsCausal(ZeroBytes(32), ZeroBytes(32), ikmC + ZeroBytes(32), p, p', m);
    } else {
      var k := KeyFrom(j);
      SameShare(r, r', 4 * j + m, k);
      HmacCallsCausal(ShareAt(r, k), ShareAt(r', k), ClientInnerMsg(MessageAt(c, afterSh, afterSf, j)), p, p', m);
    }
  }

  lemma SameShare(r: seq<Digest>, r': seq<Digest>, n: nat, k: nat)
    requires |r| == |r'| == 40 && k < 10 && 4 * k + 3 < n <= 40 && r[..n] == r'[..n]
    ensures ShareAt(r, k) == ShareAt(r', k)
  {
    assert r[4 * k + 3] == r[..n][4 * k + 3] && r'[4 * k + 3] == r'[..n][4 * k + 3];
  }

  lemma SameBefore(r: seq<Digest>, r': seq<Digest>, at: nat, m: nat)
    requires at + 4 <= |r| == |r'| && m < 4 && r[..at + m] == r'[..at + m]
    ensures r[at..at + 4][..m] == r'[at..at + 4][..m]
  {
    assert r[at..at + 4][..m] == r[..at + m][at..];
    assert r'[at..at + 4][..m] == r'[..at + m][at..];
  }

  /** For every choice of the notary's forty masks there is an honest run of the schedule. */
  lemma HonestScheduleExists(c: Compress, ikmN: Digest, ikmC: Digest, afterSh: Digest, afterSf: Digest, rn: seq<Digest>)
    returns (rc: seq<Digest>)
    requires |rn| == 40
    ensures HonestSchedule(c, ikmN, ikmC, afterSh, afterSf, rn, rc)
  {
    ScheduleListCausal(c, ikmC, afterSh, afterSf);
    rc := HonestListExists(c, Joined(NotaryParts(c, ikmN, afterSh, afterSf, rn, 10)),
                           ClientScheduleList(c, ikmC, afterSh, afterSf), rn);
  }
}
