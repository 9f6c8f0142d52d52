/** The signed bundle: the bytes that are signed, which bundles they determine, and when a
    signed bundle verifies. */
module Bundle {
  import opened Bytes

  datatype RecordCommit = RecordCommit(op: Byte, seqNo: nat, aad: seq<Byte>, commitHash: seq<Byte>)

  datatype Binding = Binding(
    serverEpk: seq<Byte>, certChainHash: seq<Byte>, handshakeTranscriptHash: seq<Byte>,
    keyScheduleContextHash: seq<Byte>, circuitAes: seq<Byte>, circuitSha256: seq<Byte>, garblingMode: Byte)

  /** The fields that are signed. */
  datatype Signed = Signed(
    version: Byte, notaryPubkey: seq<Byte>, timestamp: nat, sessionId: seq<Byte>, serverName: seq<Byte>,
    records: seq<RecordCommit>, keyTx: seq<Byte>, ivTx: seq<Byte>, keyRx: seq<Byte>, ivRx: seq<Byte>, binding: Binding)

  const BUNDLE_VERSION_BINDING: Byte := 1

  /** The widths that the types fix, and the lengths that fit their length fields. */
  predicate FitsCommit(r: RecordCommit) {
    r.seqNo < 0x1_0000_0000_0000_0000 && |r.aad| < 0x1_0000 && |r.commitHash| == 32
  }

  predicate FitsBinding(b: Binding) {
    && |b.serverEpk| == |b.certChainHash| == |b.handshakeTranscriptHash| == |b.keyScheduleContextHash| == 32
    && |b.circuitAes| == |b.circuitSha256| == 32
  }

  predicate Fits(s: Signed) {
    && |s.notaryPubkey| == 32 && s.timestamp < 0x1_0000_0000_0000_0000
    && |s.sessionId| < 0x1_0000 && |s.serverName| < 0x1_0000
    && |s.records| < 0x1_0000_0000 && (forall i :: 0 <= i < |s.records| ==> FitsCommit(s.records[i]))
    && |s.keyTx| == |s.keyRx| == 16 && |s.ivTx| == |s.ivRx| == 12
    && FitsBinding(s.binding)
  }

  function CommitBytes(r: RecordCommit): seq<Byte> {
    [r.op] + (BigEndian(8, r.seqNo) + (BigEndian(2, |r.aad|) + (r.aad + r.commitHash)))
  }

  function CommitsBytes(rs: seq<RecordCommit>): seq<Byte> {
    if rs == [] then [] else CommitBytes(rs[0]) + CommitsBytes(rs[1..])
  }

  function BindingBytes(b: Binding): seq<Byte> {
    b.serverEpk + (b.certChainHash + (b.handshakeTranscriptHash + (b.keyScheduleContextHash
      + (b.circuitAes + (b.circuitSha256 + [b.garblingMode])))))
  }

  function KeyBytes(s: Signed): seq<Byte> {
    s.keyTx + (s.ivTx + (s.keyRx + s.ivRx))
  }

  /** The encoding after the public key. */
  function FieldBytes(s: Signed): seq<Byte> {
    BigEndian(8, s.timestamp) + (BigEndian(2, |s.sessionId|) + (s.sessionId
      + (BigEndian(2, |s.serverName|) + (s.serverName
      + (BigEndian(4, |s.records|) + (CommitsBytes(s.records) + KeyBytes(s)))))))
  }

  /** The encoding without version and binding. */
  function LegacyBytes(s: Signed): seq<Byte> {
    s.notaryPubkey + FieldBytes(s)
  }

  /** The binding is covered from version 1 on. */
  function BindingPart(s: Signed): seq<Byte> {
    if s.version >= BUNDLE_VERSION_BINDING then BindingBytes(s.binding) else []
  }

  function CanonicalBytes(s: Signed): seq<Byte> {
    [s.version] + (LegacyBytes(s) + BindingPart(s))
  }

  // ---------------------------------------------------------------- the loop that builds them

  method AppendCommits(buf0: seq<Byte>, records: seq<RecordCommit>) returns (buf: seq<Byte>)
    ensures buf == buf0 + CommitsBytes(records)
  {
    buf := buf0;
    var i := 0;
    assert records[0..] == records;
    while i < |records|
      invariant i <= |records| && buf + CommitsBytes(records[i..]) == buf0 + CommitsBytes(records)
    {
      var r := records[i];
      assert records[i..][1..] == records[i + 1..];
      ghost var before := buf;
      buf := buf + [r.op];
      buf := buf + BigEndian(8, r.seqNo);
      buf := buf + BigEndian(2, |r.aad|);
      buf := buf + r.aad;
      buf := buf + r.commitHash;
      assert buf == before + CommitBytes(r);
      Regroup(before, CommitBytes(r), CommitsBytes(records[i + 1..]));
      i := i + 1;
    }
  }

  method CanonicalSigningBytes(s: Signed) returns (buf: seq<Byte>)
    ensures buf == CanonicalBytes(s)
  {
    buf := [s.version];
    var legacy := LegacySigningBytes(s);
    buf := buf + legacy;
    if s.version >= BUNDLE_VERSION_BINDING {
      var b := s.binding;
      ghost var before := buf;
      buf := buf + b.serverEpk + b.certChainHash + b.handshakeTranscriptHash + b.keyScheduleContextHash;
      buf := buf + b.circuitAes + b.circuitSha256 + [b.garblingMode];
      assert buf == before + BindingBytes(b);
      assert ([s.version] + legacy) + BindingBytes(b) == [s.version] + (legacy + BindingBytes(b));
    } else {
      assert legacy + [] == legacy;
    }
  }

  lemma HeadRegrouped(s: Signed, head: seq<Byte>, k: seq<Byte>)
    requires head == s.notaryPubkey + BigEndian(8, s.timestamp) + BigEndian(2, |s.sessionId|) + s.sessionId
                     + BigEndian(2, |s.serverName|) + s.serverName + BigEndian(4, |s.records|)
    ensures head + k
         == s.notaryPubkey + (BigEndian(8, s.timestamp) + (BigEndian(2, |s.sessionId|) + (s.sessionId
            + (BigEndian(2, |s.serverName|) + (s.serverName + (BigEndian(4, |s.records|) + k))))))
  {}

  method LegacySigningBytes(s: Signed) returns (buf: seq<Byte>)
    ensures buf == LegacyBytes(s)
  {
    var head := s.notaryPubkey + BigEndian(8, s.timestamp) + BigEndian(2, |s.sessionId|) + s.sessionId;
    head := head + BigEndian(2, |s.serverName|) + s.serverName + BigEndian(4, |s.records|);
    buf := AppendCommits(head, s.records);
    buf := buf + s.keyTx + s.ivTx + s.keyRx + s.ivRx;
    assert buf == head + (CommitsBytes(s.records) + KeyBytes(s));
    HeadRegrouped(s, head, CommitsBytes(s.records) + KeyBytes(s));
  }

  // ---------------------------------------------------------------- unique readability

  /** Equal strings with first parts of equal length have equal parts. */
  lemma Peel(a: seq<Byte>, x: seq<Byte>, b: seq<Byte>, y: seq<Byte>)
    requires a + x == b + y && |a| == |b|
    ensures a == b && x == y
  {
    assert a == (a + x)[..|a|] && b == (b + y)[..|a|];
    assert x == (a + x)[|a|..] && y == (b + y)[|a|..];
  }

  lemma PeelNumber(n: nat, v: nat, x: seq<Byte>, w: nat, y: seq<Byte>)
    requires BigEndian(n, v) + x == BigEndian(n, w) + y && v < Pow256(n) && w < Pow256(n)
    ensures v == w && x == y
  {
    Peel(BigEndian(n, v), x, BigEndian(n, w), y);
    BigEndianInverse(n, v);
    BigEndianInverse(n, w);
  }

  /** A string after its two-byte length. */
  lemma PeelString(s: seq<Byte>, x: seq<Byte>, t: seq<Byte>, y: seq<Byte>)
    requires BigEndian(2, |s|) + (s + x) == BigEndian(2, |t|) + (t + y) && |s| < 0x1_0000 && |t| < 0x1_0000
    ensures s == t && x == y
  {
    Widths();
    PeelNumber(2, |s|, s + x, |t|, t + y);
    Peel(s, x, t, y);
  }

  lemma Regroup(a: seq<Byte>, b: seq<Byte>, c: seq<Byte>)
    ensures (a + b) + c == a + (b + c)
  {}

  lemma PeelCommit(r: RecordCommit, x: seq<Byte>, q: RecordCommit, y: seq<Byte>)
    requires CommitBytes(r) + x == CommitBytes(q) + y && FitsCommit(r) && FitsCommit(q)
    ensures r == q && x == y
  {
    Widths();
    var r3, q3 := r.commitHash + x, q.commitHash + y;
    var r2, q2 := BigEndian(2, |r.aad|) + (r.aad + r3), BigEndian(2, |q.aad|) + (q.aad + q3);
    var r1, q1 := BigEndian(8, r.seqNo) + r2, BigEndian(8, q.seqNo) + q2;
    assert CommitBytes(r) + x == [r.op] + r1 && CommitBytes(q) + y == [q.op] + q1;
    Peel([r.op], r1, [q.op], q1);
    PeelNumber(8, r.seqNo, r2, q.seqNo, q2);
    PeelString(r.aad, r3, q.aad, q3);
    Peel(r.commitHash, x, q.commitHash, y);
    assert [r.op][0] == [q.op][0];
  }

  lemma {:induction false} PeelCommits(rs: seq<RecordCommit>, x: seq<Byte>, qs: seq<RecordCommit>, y: seq<Byte>)
    requires |rs| == |qs| && CommitsBytes(rs) + x == CommitsBytes(qs) + y
    requires forall i :: 0 <= i < |rs| ==> FitsCommit(rs[i]) && FitsCommit(qs[i])
    ensures rs == qs && x == y
    decreases |rs|
  {
    if rs == [] {
      assert [] + x == x && [] + y == y;
    } else {
      var r1, q1 := CommitsBytes(rs[1..]), CommitsBytes(qs[1..]);
      Regroup(CommitBytes(rs[0]), r1, x);
      Regroup(CommitBytes(qs[0]), q1, y);
      PeelCommit(rs[0], r1 + x, qs[0], q1 + y);
      PeelCommits(rs[1..], x, qs[1..], y);
      assert rs == [rs[0]] + rs[1..] && qs == [qs[0]] + qs[1..];
    }
  }

  lemma PeelKeys(s: Signed, x: seq<Byte>, t: Signed, y: seq<Byte>)
    requires Fits(s) && Fits(t) && KeyBytes(s) + x == KeyBytes(t) + y
    ensures s.keyTx == t.keyTx && s.ivTx == t.ivTx && s.keyRx == t.keyRx && s.ivRx == t.ivRx && x == y
  {
    Peel(KeyBytes(s), x, KeyBytes(t), y);
    Peel(s.keyTx, s.ivTx + (s.keyRx + s.ivRx), t.keyTx, t.ivTx + (t.keyRx + t.ivRx));
    Peel(s.ivTx, s.keyRx + s.ivRx, t.ivTx, t.keyRx + t.ivRx);
    Peel(s.keyRx, s.ivRx, t.keyRx, t.ivRx);
  }

  predicate SameButBinding(s: Signed, t: Signed) {
    && s.notaryPubkey == t.notaryPubkey && s.timestamp == t.timestamp
    && s.sessionId == t.sessionId && s.serverName == t.serverName && s.records == t.records
    && s.keyTx == t.keyTx && s.ivTx == t.ivTx && s.keyRx == t.keyRx && s.ivRx == t.ivRx
  }

  /** The encoding of the fields other than the binding can be read back, whatever follows. */
  lemma PeelLegacy(s: Signed, x: seq<Byte>, t: Signed, y: seq<Byte>)
    requires Fits(s) && Fits(t) && LegacyBytes(s) + x == LegacyBytes(t) + y
    ensures SameButBinding(s, t) && x == y
  {
    Widths();
    var s6, t6 := CommitsBytes(s.records) + (KeyBytes(s) + x), CommitsBytes(t.records) + (KeyBytes(t) + y);
    var s5, t5 := BigEndian(4, |s.records|) + s6, BigEndian(4, |t.records|) + t6;
    var s4 := BigEndian(2, |s.serverName|) + (s.serverName + s5);
    var t4 := BigEndian(2, |t.serverName|) + (t.serverName + t5);
    var s3, t3 := BigEndian(2, |s.sessionId|) + (s.sessionId + s4), BigEndian(2, |t.sessionId|) + (t.sessionId + t4);
    LegacyUnfolds(s, x, s6);
    LegacyUnfolds(t, y, t6);
    Peel(s.notaryPubkey, BigEndian(8, s.timestamp) + s3, t.notaryPubkey, BigEndian(8, t.timestamp) + t3);
    PeelNumber(8, s.timestamp, s3, t.timestamp, t3);
    PeelString(s.sessionId, s4, t.sessionId, t4);
    PeelString(s.serverName, s5, t.serverName, t5);
    PeelNumber(4, |s.records|, s6, |t.records|, t6);
    PeelCommits(s.records, KeyBytes(s) + x, t.records, KeyBytes(t) + y);
    PeelKeys(s, x, t, y);
  }

  lemma LegacyUnfolds(s: Signed, x: seq<Byte>, s6: seq<Byte>)
    requires s6 == CommitsBytes(s.records) + (KeyBytes(s) + x)
    ensures LegacyBytes(s) + x
         == s.notaryPubkey + (BigEndian(8, s.timestamp) + (BigEndian(2, |s.sessionId|) + (s.sessionId
            + (BigEndian(2, |s.serverName|) + (s.serverName + (BigEndian(4, |s.records|) + s6))))))
  {
    var k := CommitsBytes(s.records) + KeyBytes(s);
    var head := s.notaryPubkey + BigEndian(8, s.timestamp) + BigEndian(2, |s.sessionId|) + s.sessionId
                + BigEndian(2, |s.serverName|) + s.serverName + BigEndian(4, |s.records|);
    HeadRegrouped(s, head, k);
    HeadRegrouped(s, head, s6);
    Regroup(CommitsBytes(s.records), KeyBytes(s), x);
    Regroup(head, k, x);
  }

  lemma PeelBinding(b: Binding, d: Binding)
    requires FitsBinding(b) && FitsBinding(d) && BindingBytes(b) == BindingBytes(d)
    ensures b == d
  {
    var b6, d6 := b.circuitSha256 + [b.garblingMode], d.circuitSha256 + [d.garblingMode];
    var b5, d5 := b.circuitAes + b6, d.circuitAes + d6;
    var b4, d4 := b.keyScheduleContextHash + b5, d.keyScheduleContextHash + d5;
    var b3, d3 := b.handshakeTranscriptHash + b4, d.handshakeTranscriptHash + d4;
    Peel(b.serverEpk, b.certChainHash + b3, d.serverEpk, d.certChainHash + d3);
    Peel(b.certChainHash, b3, d.certChainHash, d3);
    Peel(b.handshakeTranscriptHash, b4, d.handshakeTranscriptHash, d4);
    Peel(b.keyScheduleContextHash, b5, d.keyScheduleContextHash, d5);
    Peel(b.circuitAes, b6, d.circuitAes, d6);
    Peel(b.circuitSha256, [b.garblingMode], d.circuitSha256, [d.garblingMode]);
    assert [b.garblingMode][0] == [d.garblingMode][0];
  }

  /** The signed bytes determine the bundle. Two bundles whose lengths fit have the same bytes
      exactly when all their fields agree; before version 1 the binding is not covered. */
  lemma CanonicalInjective(s: Signed, t: Signed)
    requires Fits(s) && Fits(t)
    ensures CanonicalBytes(s) == CanonicalBytes(t)
       <==> s.version == t.version && SameButBinding(s, t)
            && (s.version >= 1 ==> s.binding == t.binding)
  {
    if CanonicalBytes(s) == CanonicalBytes(t) {
      var x, y := BindingPart(s), BindingPart(t);
      Peel([s.version], LegacyBytes(s) + x, [t.version], LegacyBytes(t) + y);
      assert [s.version][0] == [t.version][0];
      PeelLegacy(s, x, t, y);
      if s.version >= BUNDLE_VERSION_BINDING {
        PeelBinding(s.binding, t.binding);
      }
    }
  }

  // ---------------------------------------------------------------- signing

  /** A signature scheme that accepts a signature for exactly the message that was signed. */
  datatype Scheme<!K, !S> = Scheme(
    publicKey: K -> seq<Byte>, sign: (K, seq<Byte>) -> S, check: (seq<Byte>, seq<Byte>, S) -> bool)

  ghost predicate Ideal<K(!new), S(!new)>(scheme: Scheme<K, S>) {
    forall k: K, m: seq<Byte>, m': seq<Byte> {:trigger scheme.check(scheme.publicKey(k), m', scheme.sign(k, m))} ::
      scheme.check(scheme.publicKey(k), m', scheme.sign(k, m)) <==> m == m'
  }

  /** The signature covers the canonical bytes, whatever the version. */
  function SignWithVersion<K, S>(scheme: Scheme<K, S>, key: K, s: Signed): (Signed, S) {
    var bundle := s.(notaryPubkey := scheme.publicKey(key));
    (bundle, scheme.sign(key, CanonicalBytes(bundle)))
  }

  /** Verification takes the legacy bytes before version 1. */
  function Verify<K, S>(scheme: Scheme<K, S>, bundle: Signed, signature: S): bool {
    var bytes := if bundle.version >= BUNDLE_VERSION_BINDING then CanonicalBytes(bundle) else LegacyBytes(bundle);
    scheme.check(bundle.notaryPubkey, bytes, signature)
  }

  /** A freshly signed bundle verifies exactly when its version is at least 1. */
  lemma SignThenVerify<K(!new), S(!new)>(scheme: Scheme<K, S>, key: K, s: Signed)
    requires Ideal(scheme)
    ensures
      var signed := SignWithVersion(scheme, key, s);
      Verify(scheme, signed.0, signed.1) <==> s.version >= 1
  {
    var b := s.(notaryPubkey := scheme.publicKey(key));
    if s.version < BUNDLE_VERSION_BINDING {
      assert |CanonicalBytes(b)| == 1 + |LegacyBytes(b)|;
    }
  }

  predicate AllBytes(s: seq<Byte>, v: Byte) {
    forall i :: 0 <= i < |s| ==> s[i] == v
  }

  /** A string is the same after a byte put before it only if it is that byte throughout. */
  lemma {:induction false} Shifted(s: seq<Byte>, x: seq<Byte>, v: Byte, y: seq<Byte>)
    ensures s + x == [v] + (s + y) <==> AllBytes(s, v) && x == [v] + y
    decreases |s|
  {
    if s == [] {
      assert s + x == x && s + y == y;
    } else {
      var rest := s[1..];
      assert s == [s[0]] + rest;
      Shifted(rest, x, v, y);
      ShiftedOnce(s[0], rest, x, v, y);
      assert AllBytes(s, v) <==> s[0] == v && AllBytes(rest, v) by {
        assert forall i :: 0 < i < |s| ==> s[i] == rest[i - 1];
      }
    }
  }

  lemma ShiftedOnce(b: Byte, rest: seq<Byte>, x: seq<Byte>, v: Byte, y: seq<Byte>)
    ensures ([b] + rest) + x == [v] + (([b] + rest) + y) <==> b == v && rest + x == [v] + (rest + y)
  {
    Regroup([b], rest, x);
    Regroup([b], rest, y);
    if [b] + (rest + x) == [v] + ([b] + (rest + y)) {
      Peel([b], rest + x, [v], [b] + (rest + y));
      assert [b][0] == [v][0];
    }
  }

  /** The fields of `t` read as the version of `s`, its fields and its binding. */
  predicate ReadsShifted(s: Signed, t: Signed) {
    FieldBytes(t) == [s.version] + (FieldBytes(s) + BindingPart(s))
  }

  lemma LegacyIsCanonical(s: Signed, t: Signed)
    requires s.notaryPubkey == t.notaryPubkey
    ensures LegacyBytes(t) == CanonicalBytes(s) <==> AllBytes(s.notaryPubkey, s.version) && ReadsShifted(s, t)
  {
    var key, b := s.notaryPubkey, BindingPart(s);
    Regroup(key, FieldBytes(s), b);
    assert CanonicalBytes(s) == [s.version] + (key + (FieldBytes(s) + b));
    Shifted(key, FieldBytes(t), s.version, FieldBytes(s) + b);
  }

  /** Which bundles a signature verifies under its key. From version 1 on, the bundle that was
      signed and no other. A bundle of version 0, whose version byte verification leaves out:
      none, unless every byte of the public key equals the version that was signed and the
      fields can be read one byte later. */
  lemma VerifiesOnlyItself<K(!new), S(!new)>(scheme: Scheme<K, S>, key: K, s: Signed, t: Signed)
    requires Ideal(scheme) && Fits(s) && Fits(t)
    requires s.notaryPubkey == t.notaryPubkey == scheme.publicKey(key)
    ensures Verify(scheme, t, SignWithVersion(scheme, key, s).1)
       <==> if t.version >= 1 then t == s
            else AllBytes(s.notaryPubkey, s.version) && ReadsShifted(s, t)
  {
    assert s.(notaryPubkey := scheme.publicKey(key)) == s;
    if t.version >= BUNDLE_VERSION_BINDING {
      CanonicalInjective(s, t);
    } else {
      LegacyIsCanonical(s, t);
    }
  }
}
