/** The joint compressions of an HMAC, and of the whole key schedule, as one program of masked
    runs of the generated circuit: what the two parties are left with, in every interleaving of
    all their messages. */
module CompressCalls {
  import opened Bytes
  import opened Network
  import opened MaskedRun
  import opened Hmac
  import opened Ops
  import opened Programs
  import Bits
  import Circuit
  import Compression
  import Hkdf
  import Sha256

  /** SHA-256 compression on bytes. */
  function Sha256Compress(iv: Digest, block: Chunk): Digest {
    Pack(Sha256.CompressBits(Unpack(iv), Unpack(block)))
  }

  // ---------------------------------------------------------------- one session

  function CallBits(c: Call): (r: seq<bool>)
    ensures |r| == 768
  {
    Unpack(c.iv + c.block)
  }

  /** An honest session on the generated compression circuit. */
  ghost predicate CompressSession(x: Session, gates: seq<Circuit.Gate>) {
    && Compression.IsSha256Compress(gates) && x.inner == Sha256Circuit(gates)
    && x.inputs == 768 && |x.mask| == 32 && HonestSession(x)
  }

  /** Its two ends are shares of the compression of the summed arguments. */
  lemma CompressReply(x: Session, gates: seq<Circuit.Gate>, cn: Call, cc: Call)
    requires CompressSession(x, gates)
    ensures XorBytes(x.mask, Reply(x, CallBits(cn), CallBits(cc)))
         == Sha256Compress(XorBytes(cn.iv, cc.iv), XorBytes(cn.block, cc.block))
  {
    CompressOutput(gates, (cn.iv, cc.iv), (cn.block, cc.block));
    ReplyShares(x, CallBits(cn), CallBits(cc));
  }

  // ---------------------------------------------------------------- a list of calls

  function AsDigest(s: seq<Byte>): Digest {
    if |s| == 32 then s else ZeroBytes(32)
  }

  /** The replies so far, with zeros for those to come. */
  function Filled(replies: seq<seq<Byte>>, n: nat): (r: seq<Digest>)
    ensures |r| == n
  {
    seq<Digest>(n, i requires 0 <= i < n => if i < |replies| then AsDigest(replies[i]) else ZeroBytes(32))
  }

  function NextCall(calls: CallList, n: nat, replies: seq<seq<Byte>>): seq<bool> {
    var cs := calls(Filled(replies, n));
    if |replies| < |cs| then CallBits(cs[|replies|]) else []
  }

  function NotaryCall(cn: seq<Call>): nat -> seq<bool> {
    (i: nat) => if i < |cn| then CallBits(cn[i]) else []
  }

  /** Both sides of `n` joint compressions and nothing else. */
  function CompressProgram(xs: seq<Session>, cn: seq<Call>, calls: CallList, n: nat): Program<seq<Digest>> {
    Program(xs, Notary(NotaryCall(cn), (i: nat, got: seq<Label>) => Bits.Zeros(128)),
            Client((replies: seq<seq<Byte>>) => NextCall(calls, n, replies), (i: nat) => Bits.Zeros(128),
                   (replies: seq<seq<Byte>>, got: seq<Label>) => Filled(replies, n)))
  }

  ghost predicate CompressSessions(xs: seq<Session>, gates: seq<Circuit.Gate>, n: nat) {
    |xs| == n && forall i :: 0 <= i < n ==> CompressSession(xs[i], gates)
  }

  lemma CompressCircuitFits(gates: seq<Circuit.Gate>)
    requires Compression.IsSha256Compress(gates)
    ensures ValidCircuit(Sha256Circuit(gates), 768) && |Sha256Circuit(gates).outs| == 256
  {
    var zero, block := ZeroBytes(32), ZeroBytes(64);
    CompressOutput(gates, (zero, zero), (block, block));
  }

  /** Whatever masks the notary draws, there are such sessions. */
  lemma CompressSessionsExist(gates: seq<Circuit.Gate>, masks: seq<Digest>) returns (xs: seq<Session>)
    requires Compression.IsSha256Compress(gates)
    ensures CompressSessions(xs, gates, |masks|) && forall i :: 0 <= i < |masks| ==> xs[i].mask == masks[i]
  {
    hide HonestSession, Compression.CompressesAt, ValidCircuit;
    CompressCircuitFits(gates);
    xs := SessionsExist(Sha256Circuit(gates), 768, masks);
  }

  /** The notary's shares: its masks. */
  function Masks(xs: seq<Session>): (r: seq<Digest>)
    ensures |r| == |xs|
  {
    seq<Digest>(|xs|, i requires 0 <= i < |xs| => AsDigest(xs[i].mask))
  }

  lemma FilledPrefix(a: seq<seq<Byte>>, b: seq<seq<Byte>>, n: nat, i: nat)
    requires i <= n && i <= |a| && i <= |b| && a[..i] == b[..i]
    ensures Filled(a, n)[..i] == Filled(b, n)[..i]
  {
    forall j | 0 <= j < i ensures Filled(a, n)[j] == Filled(b, n)[j] {
      assert a[j] == a[..i][j] && b[j] == b[..i][j];
    }
  }

  lemma NextCallAt(calls: CallList, n: nat, replies: seq<seq<Byte>>, rc: seq<Digest>)
    requires Causal(calls, n) && |rc| == n && |replies| < n && Filled(replies, n)[..|replies|] == rc[..|replies|]
    ensures |calls(rc)| == n && NextCall(calls, n, replies) == CallBits(calls(rc)[|replies|])
  {
    var now := Filled(replies, n);
    assert calls(now)[|replies|] == calls(rc)[|replies|];
  }

  /** The client's call `i` during the run is its call `i` seen from the end. */
  lemma CallAt(p: Program<seq<Digest>>, rc: seq<Digest>, xs: seq<Session>, cn: seq<Call>, calls: CallList, n: nat,
               i: nat)
    requires |xs| == |cn| == n && Causal(calls, n) && i < n
    requires p == CompressProgram(xs, cn, calls, n) && rc == Filled(Replies(p, n), n)
    ensures |calls(rc)| == n && p.c.call(Replies(p, i)) == CallBits(calls(rc)[i]) && p.n.call(i) == CallBits(cn[i])
  {
    RepliesPrefix(p, i, n);
    FilledPrefix(Replies(p, i), Replies(p, n), n, i);
    NextCallAt(calls, n, Replies(p, i), rc);
  }

  /** One call of the list: it fits its session, and leaves shares of its compression. */
  lemma SessionHonest(p: Program<seq<Digest>>, rc: seq<Digest>, xs: seq<Session>, gates: seq<Circuit.Gate>,
                      cn: seq<Call>, calls: CallList, n: nat, i: nat)
    requires |xs| == |cn| == n && Causal(calls, n) && i < n && CompressSession(xs[i], gates)
    requires p == CompressProgram(xs, cn, calls, n) && rc == Filled(Replies(p, n), n)
    ensures CallFits(p, i) && |calls(rc)| == n
    ensures XorBytes(Masks(xs)[i], rc[i])
         == Sha256Compress(XorBytes(cn[i].iv, calls(rc)[i].iv), XorBytes(cn[i].block, calls(rc)[i].block))
  {
    CallAt(p, rc, xs, cn, calls, n, i);
    ReplyAt(p, i, n);
    CompressReply(xs[i], gates, cn[i], calls(rc)[i]);
  }

  /** What honest sessions leave the client with is an honest run of the calls. */
  lemma SessionsHonest(p: Program<seq<Digest>>, rc: seq<Digest>, xs: seq<Session>, gates: seq<Circuit.Gate>,
                       cn: seq<Call>, calls: CallList, n: nat)
    requires CompressSessions(xs, gates, n) && |cn| == n && Causal(calls, n)
    requires p == CompressProgram(xs, cn, calls, n) && rc == Filled(Replies(p, n), n)
    ensures forall i :: 0 <= i < n ==> CallFits(p, i)
    ensures Honest(Sha256Compress, cn, Masks(xs), calls(rc), rc)
  {
    forall i | 0 <= i < n
      ensures CallFits(p, i) && |calls(rc)| == n
      ensures XorBytes(Masks(xs)[i], rc[i])
           == Sha256Compress(XorBytes(cn[i].iv, calls(rc)[i].iv), XorBytes(cn[i].block, calls(rc)[i].block))
    {
      SessionHonest(p, rc, xs, gates, cn, calls, n, i);
    }
  }

  lemma {:induction false} AllJoint(n: nat)
    ensures Joints(Rounds(n, [Joint])) == n && Matched(Rounds(n, [Joint]), Rounds(n, [Joint]))
  {
    if n > 0 {
      AllJoint(n - 1);
      assert ([Joint] + Rounds(n - 1, [Joint]))[1..] == Rounds(n - 1, [Joint]);
    }
  }

  /** The two programs at their start. */
  function CompressStart(xs: seq<Session>, cn: seq<Call>, calls: CallList, n: nat): Net<seq<Label>, seq<Digest>> {
    StartOf(CompressProgram(xs, cn, calls, n), Rounds(n, [Joint]), Rounds(n, [Joint]))
  }

  /** In every interleaving: no abort, and once complete, the client's replies `rc` make an
      honest run with the notary's masks. */
  lemma CompressProgramRuns(xs: seq<Session>, gates: seq<Circuit.Gate>, cn: seq<Call>, calls: CallList, n: nat,
                            soFar: seq<Move>)
    returns (rest: seq<Move>, rc: seq<Digest>)
    requires CompressSessions(xs, gates, n) && |cn| == n && Causal(calls, n)
    requires Schedule(CompressStart(xs, cn, calls, n), soFar)
    ensures Completes(CompressStart(xs, cn, calls, n), soFar, rest, rc)
    ensures |rc| == n && Honest(Sha256Compress, cn, Masks(xs), calls(rc), rc)
  {
    var p, ops := CompressProgram(xs, cn, calls, n), Rounds(n, [Joint]);
    rc := Filled(Replies(p, n), n);
    AllJoint(n);
    SessionsHonest(p, rc, xs, gates, cn, calls, n);
    rest := MatchedProgramsRun(p, ops, ops, soFar);
  }

  // ---------------------------------------------------------------- one HMAC

  /** The two HMAC programs at their start. */
  function HmacStart(xs: seq<Session>, kn: Digest, kc: Digest, msg: seq<Byte>): Net<seq<Label>, seq<Digest>>
    requires |xs| == 4 && |msg| <= 55
  {
    CompressStart(xs, NotaryHmacCalls(kn, NotaryInnerPadding(|msg|), Masks(xs)),
                  ClientHmacList(kc, ClientInnerMsg(msg)), 4)
  }

  /** Two-party HMAC-SHA-256, as engine runs: for every key split, message that fits one block
      and honest setup of four sessions, in every interleaving no party aborts, the run can be
      completed, and the notary's last mask and the client's last reply are then shares of HMAC. */
  lemma HmacRuns(xs: seq<Session>, gates: seq<Circuit.Gate>, kn: Digest, kc: Digest, msg: seq<Byte>, soFar: seq<Move>)
    returns (rest: seq<Move>, rc: seq<Digest>)
    requires CompressSessions(xs, gates, 4) && |msg| <= 55
    requires Schedule(HmacStart(xs, kn, kc, msg), soFar)
    ensures Completes(HmacStart(xs, kn, kc, msg), soFar, rest, rc)
    ensures |rc| == 4 && XorBytes(Masks(xs)[3], rc[3]) == HmacSha(Sha256Compress, XorBytes(kn, kc), msg)
  {
    HmacListCausal(kc, ClientInnerMsg(msg));
    rest, rc := CompressProgramRuns(xs, gates, NotaryHmacCalls(kn, NotaryInnerPadding(|msg|), Masks(xs)),
                                    ClientHmacList(kc, ClientInnerMsg(msg)), 4, soFar);
    HmacMessageShares(Sha256Compress, kn, kc, msg, Masks(xs), rc);
  }

  // ---------------------------------------------------------------- the key schedule

  /** The two transcript hashes the schedule is given. */
  datatype Hashes = Hashes(afterSh: Digest, afterSf: Digest)

  function NotaryScheduleCalls(ikmN: Digest, t: Hashes, rn: seq<Digest>): seq<Call>
    requires |rn| == 40
  {
    Hkdf.Joined(Hkdf.NotaryParts(Sha256Compress, ikmN, t.afterSh, t.afterSf, rn, 10))
  }

  /** The two schedule programs at their start. */
  function TrafficStart(xs: seq<Session>, ikmN: Digest, ikmC: Digest, t: Hashes): Net<seq<Label>, seq<Digest>>
    requires |xs| == 40
  {
    CompressStart(xs, NotaryScheduleCalls(ikmN, t, Masks(xs)),
                  Hkdf.ClientScheduleList(Sha256Compress, ikmC, t.afterSh, t.afterSf), 40)
  }

  /** The two-party TLS 1.3 key schedule, as engine runs: for every split of the key material and
      honest setup of forty sessions, in every interleaving no party aborts, the run can be
      completed, and the shares both parties then hold add up to the reference keys and IVs. */
  lemma TrafficRuns(xs: seq<Session>, gates: seq<Circuit.Gate>, ikmN: Digest, ikmC: Digest, t: Hashes, soFar: seq<Move>)
    returns (rest: seq<Move>, rc: seq<Digest>)
    requires CompressSessions(xs, gates, 40)
    requires Schedule(TrafficStart(xs, ikmN, ikmC, t), soFar)
    ensures Completes(TrafficStart(xs, ikmN, ikmC, t), soFar, rest, rc)
    ensures |rc| == 40
    ensures Hkdf.XorTraffic(Hkdf.TrafficShares(Masks(xs)), Hkdf.TrafficShares(rc))
         == Hkdf.ReferenceTraffic(Sha256Compress, XorBytes(ikmN, ikmC), t.afterSf)
  {
    Hkdf.ScheduleListCausal(Sha256Compress, ikmC, t.afterSh, t.afterSf);
    rest, rc := CompressProgramRuns(xs, gates, NotaryScheduleCalls(ikmN, t, Masks(xs)),
                                    Hkdf.ClientScheduleList(Sha256Compress, ikmC, t.afterSh, t.afterSf), 40, soFar);
    Hkdf.TrafficSharesCorrect(Sha256Compress, ikmN, ikmC, t.afterSh, t.afterSf, Masks(xs), rc);
  }
}
