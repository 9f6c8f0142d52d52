/** Two programs on one connection: joint calls, each a masked session of the engine with all
    its messages, and blocks sent between them. */
module Programs {
  import opened Bits
  import opened Bytes
  import opened Network
  import opened Parties
  import opened JointRun
  import opened MaskedRun
  import opened Ops
  import opened Shares
  import opened Tape
  import Circuit
  import Exchange
  import HonestStart

  // ---------------------------------------------------------------- one joint call

  /** A joint call to come: the circuit, its inputs a side, the notary's mask, and what the
      session starts from. */
  datatype Session = Session(inner: BinaryCircuit, inputs: nat, mask: seq<Byte>, setup: Setup)

  ghost predicate HonestSession(x: Session) {
    && ValidCircuit(x.inner, x.inputs) && |x.inner.outs| == 8 * |x.mask|
    && HonestSetup(x.setup, Wrapped(x.inner, x.inputs).gates, 2 * (x.inputs + 8 * |x.mask|))
  }

  /** For every circuit and mask there is an honest session. */
  lemma SessionExists(inner: BinaryCircuit, inputs: nat, mask: seq<Byte>) returns (x: Session)
    requires ValidCircuit(inner, inputs) && |inner.outs| == 8 * |mask|
    ensures HonestSession(x) && x == Session(inner, inputs, mask, x.setup)
  {
    hide HonestSetup, Wrapped;
    var gates, n := Wrapped(inner, inputs).gates, 2 * (inputs + 8 * |mask|);
    WrappedValid(inner, inputs, n);
    var u := HonestStart.SetupExists(gates, n);
    x := Session(inner, inputs, mask, u);
  }

  /** And a list of them for every list of masks. */
  lemma {:induction false} SessionsExist(inner: BinaryCircuit, inputs: nat, masks: seq<seq<Byte>>)
    returns (xs: seq<Session>)
    requires ValidCircuit(inner, inputs) && forall i :: 0 <= i < |masks| ==> |inner.outs| == 8 * |masks[i]|
    ensures |xs| == |masks|
    ensures forall i :: 0 <= i < |masks| ==>
            HonestSession(xs[i]) && xs[i] == Session(inner, inputs, masks[i], xs[i].setup)
    decreases |masks|
  {
    hide HonestSession, ValidCircuit;
    if masks == [] {
      xs := [];
    } else {
      var n := |masks| - 1;
      var first := SessionsExist(inner, inputs, masks[..n]);
      var x := SessionExists(inner, inputs, masks[n]);
      xs := first + [x];
    }
  }

  /** The notary's side: the garbler's run on its argument and its mask, then `next`. */
  function GbCall<T>(x: Session, a: seq<bool>, next: Proc<T>): Proc<T> {
    var c := Wrapped(x.inner, x.inputs);
    GbMain(x.setup.lib, x.setup.g, NotaryInputs(a, x.mask), |a| + 8 * |x.mask|, c.gates, c.outs, Then(next))
  }

  function Then<S, T>(next: Proc<T>): S -> Proc<T> {
    (s: S) => next
  }

  /** The client's side: the evaluator's run on its argument; the packed outputs are the reply. */
  function EvCall<T>(x: Session, b: seq<bool>, k: seq<Byte> -> Proc<T>): Proc<T> {
    var c := Wrapped(x.inner, x.inputs);
    EvMain(x.setup.lib, x.setup.e, |b| + 8 * |x.mask|, ClientInputs(b, 8 * |x.mask|), c.gates, c.outs, Packing(k))
  }

  function Packing<T>(k: seq<Byte> -> Proc<T>): (EvState, seq<bool>) -> Proc<T> {
    (s: EvState, bits: seq<bool>) => if |bits| % 8 == 0 then k(Pack(bits)) else Fail
  }

  predicate Fits(x: Session, a: seq<bool>, b: seq<bool>) {
    |a| == |b| == x.inputs && ValidCircuit(x.inner, x.inputs) && |x.inner.outs| == 8 * |x.mask|
  }

  /** What a joint call computes: the circuit on the summed arguments, in bytes. */
  function ResultOf(x: Session, a: seq<bool>, b: seq<bool>): (r: seq<Byte>)
    requires Fits(x, a, b)
    ensures |r| == |x.mask|
  {
    Pack(Output(x.inner, Xor(a, b)))
  }

  /** The client's share of the result; the notary's is its mask. */
  function Reply(x: Session, a: seq<bool>, b: seq<bool>): (r: seq<Byte>)
    ensures |r| == |x.mask|
  {
    if Fits(x, a, b) then XorBytes(x.mask, ResultOf(x, a, b)) else x.mask
  }

  lemma ReplyShares(x: Session, a: seq<bool>, b: seq<bool>)
    requires Fits(x, a, b)
    ensures XorBytes(x.mask, Reply(x, a, b)) == ResultOf(x, a, b)
  {
    XorBytesCancel(ResultOf(x, a, b), x.mask);
  }

  /** The outputs that the evaluator ends a session with are the reply, in bits. */
  lemma ClearReply(x: Session, a: seq<bool>, b: seq<bool>, c: BinaryCircuit, gin: seq<nat>, ein: seq<nat>)
    requires Fits(x, a, b) && Masking(x.inner, a, x.mask, b, c, gin, ein)
    ensures Boolean(gin) && Boolean(ein) && ValidCircuit(c, |gin| + |ein|)
    ensures |ClearOutputs(c.gates, c.outs, gin, ein)| == 8 * |x.mask|
    ensures Pack(ClearOutputs(c.gates, c.outs, gin, ein)) == Reply(x, a, b)
  {
    MaskedOutput(x.inner, a, x.mask, b, c, gin, ein);
    var out := ClearOutputs(c.gates, c.outs, gin, ein);
    assert out == Output(c, BitsFromInputs(gin) + BitsFromInputs(ein));
    XorBytesCancel(Pack(out), x.mask);
  }

  /** A joint call goes through, whatever comes next. */
  lemma CallReaches<A, B>(x: Session, a: seq<bool>, b: seq<bool>, next: Proc<A>, k: seq<Byte> -> Proc<B>)
    requires HonestSession(x) && |a| == |b| == x.inputs
    ensures Reaches(Net(GbCall(x, a, next), EvCall(x, b, k), [], []), Net(next, k(Reply(x, a, b)), [], []))
  {
    var c, gin, ein := Wrapped(x.inner, x.inputs), NotaryInputs(a, x.mask), ClientInputs(b, 8 * |x.mask|);
    var n := x.inputs + 8 * |x.mask|;
    CallsAre(x, c, a, b, gin, ein, n, next, k);
    ClearReply(x, a, b, c, gin, ein);
    SessionThrough(x, a, b, c, gin, ein, n, 2 * n, GbCall(x, a, next), EvCall(x, b, k), next, k);
  }

  lemma CallsAre<A, B>(x: Session, c: BinaryCircuit, a: seq<bool>, b: seq<bool>, gin: seq<nat>, ein: seq<nat>, n: nat,
                       next: Proc<A>, k: seq<Byte> -> Proc<B>)
    requires c == Wrapped(x.inner, x.inputs) && |a| == |b| == x.inputs && n == x.inputs + 8 * |x.mask|
    requires gin == NotaryInputs(a, x.mask) && ein == ClientInputs(b, 8 * |x.mask|)
    ensures |gin| == |ein| == n
    ensures GbCall(x, a, next) == GbMain(x.setup.lib, x.setup.g, gin, n, c.gates, c.outs, Then(next))
    ensures EvCall(x, b, k) == EvMain(x.setup.lib, x.setup.e, n, ein, c.gates, c.outs, Packing(k))
  {}

  lemma SessionThrough<A, B>(x: Session, a: seq<bool>, b: seq<bool>, c: BinaryCircuit, gin: seq<nat>, ein: seq<nat>,
                             n: nat, total: nat, p: Proc<A>, q: Proc<B>, next: Proc<A>, k: seq<Byte> -> Proc<B>)
    requires |gin| == |ein| == n && total == 2 * n && Boolean(gin) && Boolean(ein) && ValidCircuit(c, |gin| + |ein|)
    requires HonestSetup(x.setup, c.gates, total)
    requires |ClearOutputs(c.gates, c.outs, gin, ein)| % 8 == 0
    requires Pack(ClearOutputs(c.gates, c.outs, gin, ein)) == Reply(x, a, b)
    requires p == GbMain(x.setup.lib, x.setup.g, gin, n, c.gates, c.outs, Then(next))
    requires q == EvMain(x.setup.lib, x.setup.e, n, ein, c.gates, c.outs, Packing(k))
    ensures Reaches(Net(p, q, [], []), Net(next, k(Reply(x, a, b)), [], []))
  {
    hide HonestSetup, ClearOutputs, Reply;
    assert |gin| + |ein| == total;
    var g', e' := RunReaches(x.setup, c.gates, c.outs, gin, ein, Then<GbState, A>(next), Packing(k));
  }

  // ---------------------------------------------------------------- programs

  /** What the notary brings: the argument of its `i`-th call, and the `i`-th block it sends,
      from the blocks it has read. */
  datatype Notary = Notary(call: nat -> seq<bool>, put: (nat, seq<Label>) -> Label)

  /** What the client brings: the argument of its next call, from the replies so far, the
      `i`-th block it sends, and its result. */
  datatype Client<!R> = Client(call: seq<seq<Byte>> -> seq<bool>, put: nat -> Label,
                               result: (seq<seq<Byte>>, seq<Label>) -> R)

  datatype Program<!R> = Program(sessions: seq<Session>, n: Notary, c: Client<R>)

  /** How far a run is: joint calls made, blocks sent to the client and to the notary. */
  datatype Pos = Pos(calls: nat, toC: seq<Label>, toN: seq<Label>)

  function NotaryProc<R>(p: Program<R>, ops: seq<Op>, calls: nat, puts: nat, got: seq<Label>): Proc<seq<Label>>
    decreases |ops|
  {
    if ops == [] then Ret(got)
    else match ops[0]
      case Joint =>
        if calls >= |p.sessions| then Fail
        else GbCall(p.sessions[calls], p.n.call(calls), NotaryProc(p, ops[1..], calls + 1, puts, got))
      case Put => Send(LabelMsg(p.n.put(puts, got)), NotaryProc(p, ops[1..], calls, puts + 1, got))
      case Get => Recv((m: Msg) => if m.LabelMsg? then NotaryProc(p, ops[1..], calls, puts, got + [m.lab]) else Fail)
  }

  function ClientProc<R>(p: Program<R>, ops: seq<Op>, replies: seq<seq<Byte>>, puts: nat, got: seq<Label>): Proc<R>
    decreases |ops|
  {
    if ops == [] then Ret(p.c.result(replies, got))
    else match ops[0]
      case Joint =>
        if |replies| >= |p.sessions| then Fail
        else EvCall(p.sessions[|replies|], p.c.call(replies), ClientNext(p, ops, replies, puts, got))
      case Put => Send(LabelMsg(p.c.put(puts)), ClientProc(p, ops[1..], replies, puts + 1, got))
      case Get => Recv((m: Msg) => if m.LabelMsg? then ClientProc(p, ops[1..], replies, puts, got + [m.lab]) else Fail)
  }

  /** The client once the reply is there. */
  function ClientNext<R>(p: Program<R>, ops: seq<Op>, replies: seq<seq<Byte>>, puts: nat, got: seq<Label>)
    : seq<Byte> -> Proc<R>
    requires ops != []
    decreases |ops|, 0
  {
    (reply: seq<Byte>) => ClientProc(p, ops[1..], replies + [reply], puts, got)
  }

  /** The client's replies to the first `k` calls. */
  function Replies<R>(p: Program<R>, k: nat): (r: seq<seq<Byte>>)
    requires k <= |p.sessions|
    ensures |r| == k
  {
    if k == 0 then []
    else var r := Replies(p, k - 1); r + [Reply(p.sessions[k - 1], p.n.call(k - 1), p.c.call(r))]
  }

  /** The replies of a longer run start with those of a shorter one. */
  lemma {:induction false} RepliesPrefix<R>(p: Program<R>, i: nat, k: nat)
    requires i <= k <= |p.sessions|
    ensures Replies(p, k)[..i] == Replies(p, i)
    decreases k
  {
    if i < k {
      RepliesPrefix(p, i, k - 1);
      assert Replies(p, k)[..i] == Replies(p, k - 1)[..i];
    }
  }

  lemma ReplyAt<R>(p: Program<R>, i: nat, k: nat)
    requires i < k <= |p.sessions|
    ensures Replies(p, k)[i] == Reply(p.sessions[i], p.n.call(i), p.c.call(Replies(p, i)))
  {
    RepliesPrefix(p, i + 1, k);
    assert Replies(p, k)[i] == Replies(p, k)[..i + 1][i] == Replies(p, i + 1)[i];
  }

  ghost predicate CallFits<R>(p: Program<R>, i: nat) {
    && i < |p.sessions| && HonestSession(p.sessions[i])
    && |p.n.call(i)| == |p.c.call(Replies(p, i))| == p.sessions[i].inputs
  }

  function At<R>(p: Program<R>, opsN: seq<Op>, opsC: seq<Op>, pos: Pos): Net<seq<Label>, R>
    requires pos.calls <= |p.sessions|
  {
    Net(NotaryProc(p, opsN, pos.calls, |pos.toC|, pos.toN),
        ClientProc(p, opsC, Replies(p, pos.calls), |pos.toN|, pos.toC), [], [])
  }

  /** Where one matched pair of operations leads. */
  function Next<R>(p: Program<R>, op: Op, pos: Pos): Pos {
    match op
    case Joint => pos.(calls := pos.calls + 1)
    case Put => pos.(toC := pos.toC + [p.n.put(|pos.toC|, pos.toN)])
    case Get => pos.(toN := pos.toN + [p.c.put(|pos.toN|)])
  }

  /** Where the notary's operations `ops` lead when the client's match. */
  function After<R>(p: Program<R>, ops: seq<Op>, pos: Pos): (r: Pos)
    ensures r.calls == pos.calls + Joints(ops)
  {
    if ops == [] then pos else After(p, ops[1..], Next(p, ops[0], pos))
  }

  lemma AfterFirst<R>(p: Program<R>, ops: seq<Op>, op: Op, rest: seq<Op>, pos: Pos)
    requires ops != [] && ops[0] == op && ops[1..] == rest
    ensures After(p, ops, pos) == After(p, rest, Next(p, op, pos))
  {}

  lemma {:induction false} AfterConcat<R>(p: Program<R>, a: seq<Op>, b: seq<Op>, pos: Pos)
    ensures After(p, a + b, pos) == After(p, b, After(p, a, pos))
    decreases |a|
  {
    if a == [] {
      assert a + b == b;
    } else {
      assert (a + b)[1..] == a[1..] + b;
      AfterConcat(p, a[1..], b, Next(p, a[0], pos));
    }
  }

  /** One joint call of both programs. */
  lemma JointReaches<R>(p: Program<R>, opsN: seq<Op>, opsC: seq<Op>, pos: Pos)
    requires opsN != [] && opsC != [] && opsN[0] == opsC[0] == Joint && CallFits(p, pos.calls)
    ensures Reaches(At(p, opsN, opsC, pos), At(p, opsN[1..], opsC[1..], Next(p, Joint, pos)))
  {
    var i, r := pos.calls, Replies(p, pos.calls);
    CallReaches(p.sessions[i], p.n.call(i), p.c.call(r), NotaryProc(p, opsN[1..], i + 1, |pos.toC|, pos.toN),
                ClientNext(p, opsC, r, |pos.toN|, pos.toC));
  }

  lemma JointFirst<R>(p: Program<R>, moreN: seq<Op>, moreC: seq<Op>, pos: Pos)
    requires CallFits(p, pos.calls)
    ensures Reaches(At(p, [Joint] + moreN, [Joint] + moreC, pos), At(p, moreN, moreC, Next(p, Joint, pos)))
  {
    var opsN, opsC := [Joint] + moreN, [Joint] + moreC;
    assert opsN[1..] == moreN && opsC[1..] == moreC;
    JointReaches(p, opsN, opsC, pos);
  }

  /** One block from one program to the other. */
  lemma BlockReaches<R>(p: Program<R>, opsN: seq<Op>, opsC: seq<Op>, pos: Pos)
    requires opsN != [] && opsC != [] && opsN[0] != Joint && Meets(opsN[0], opsC[0]) && pos.calls <= |p.sessions|
    ensures Reaches(At(p, opsN, opsC, pos), At(p, opsN[1..], opsC[1..], Next(p, opsN[0], pos)))
  {
    var s, t := At(p, opsN, opsC, pos), At(p, opsN[1..], opsC[1..], Next(p, opsN[0], pos));
    ReachesSelf(t);
    if opsN[0] == Put {
      PassPQ(s.p, s.q, t);
    } else {
      PassQP(s.p, s.q, t);
    }
  }

  /** Matched programs run to their end. */
  lemma {:induction false} MatchedReaches<R>(p: Program<R>, opsN: seq<Op>, opsC: seq<Op>, pos: Pos)
    requires Matched(opsN, opsC) && pos.calls + Joints(opsN) <= |p.sessions|
    requires forall i :: pos.calls <= i < pos.calls + Joints(opsN) ==> CallFits(p, i)
    ensures Reaches(At(p, opsN, opsC, pos), At(p, [], [], After(p, opsN, pos)))
    decreases |opsN|
  {
    if opsN == [] {
      ReachesSelf(At(p, opsN, opsC, pos));
    } else {
      assert Meets(opsN[0], opsC[0]);
      if opsN[0] == Joint {
        JointReaches(p, opsN, opsC, pos);
      } else {
        BlockReaches(p, opsN, opsC, pos);
      }
      MatchedReaches(p, opsN[1..], opsC[1..], Next(p, opsN[0], pos));
      ReachesTrans(At(p, opsN, opsC, pos), At(p, opsN[1..], opsC[1..], Next(p, opsN[0], pos)),
                   At(p, [], [], After(p, opsN, pos)));
    }
  }

  // ---------------------------------------------------------------- all interleavings

  /** Both programs at their start. */
  function StartOf<R>(p: Program<R>, opsN: seq<Op>, opsC: seq<Op>): Net<seq<Label>, R> {
    At(p, opsN, opsC, Pos(0, [], []))
  }

  /** The honest sessions cover the calls of `ops`, whose arguments have the right sizes. */
  ghost predicate Covers<R>(p: Program<R>, ops: seq<Op>) {
    Joints(ops) <= |p.sessions| && forall i :: 0 <= i < Joints(ops) ==> CallFits(p, i)
  }

  /** After `soFar` no party has aborted, the moves `rest` complete the run with the client
      returning `value`, and if no move is possible it is complete already. */
  ghost predicate Completes<R>(start: Net<seq<Label>, R>, soFar: seq<Move>, rest: seq<Move>, value: R)
    requires Schedule(start, soFar)
  {
    var now := Run(start, soFar);
    && !Aborted(now)
    && Schedule(now, rest) && Finished(Run(now, rest)) && Run(now, rest).q.value == value
    && (Quiescent(now) ==> rest == [])
  }

  /** What the client returns after matched programs. */
  function Outcome<R>(p: Program<R>, ops: seq<Op>): R
    requires Joints(ops) <= |p.sessions|
  {
    p.c.result(Replies(p, Joints(ops)), After(p, ops, Pos(0, [], [])).toC)
  }

  /** Matched programs with honest sessions: in every interleaving of all their messages no
      party aborts, the run can be completed, and the client returns what the calls compute. */
  lemma MatchedProgramsRun<R>(p: Program<R>, opsN: seq<Op>, opsC: seq<Op>, soFar: seq<Move>) returns (rest: seq<Move>)
    requires Matched(opsN, opsC) && Covers(p, opsN)
    requires Schedule(StartOf(p, opsN, opsC), soFar)
    ensures Completes(StartOf(p, opsN, opsC), soFar, rest, Outcome(p, opsN))
  {
    var start := StartOf(p, opsN, opsC);
    MatchedReaches(p, opsN, opsC, Pos(0, [], []));
    var t := At(p, [], [], After(p, opsN, Pos(0, [], [])));
    var moves :| Schedule(start, moves) && Run(start, moves) == t;
    rest := EveryScheduleFinishes(start, moves, soFar);
  }

  // ---------------------------------------------------------------- programs that do not match

  ghost predicate NeverFinishes<A, B>(s: Net<A, B>) {
    forall moves :: Schedule(s, moves) ==> !Finished(Run(s, moves))
  }

  /** A state that can reach one from which no run finishes. */
  lemma NeverFinishesBefore<A, B>(s: Net<A, B>, t: Net<A, B>)
    requires Reaches(s, t) && NeverFinishes(t)
    ensures NeverFinishes(s)
  {
    var way :| Schedule(s, way) && Run(s, way) == t;
    forall moves | Schedule(s, moves) ensures !Finished(Run(s, moves)) {
      if Finished(Run(s, moves)) {
        var rest := EveryScheduleFinishes(s, moves, way);
        assert false;
      }
    }
  }

  /** Nothing can move, or a party has aborted, short of the end. */
  lemma StuckNeverFinishes<A, B>(s: Net<A, B>)
    requires Aborted(s) || (Quiescent(s) && !Finished(s))
    ensures NeverFinishes(s)
  {
    forall moves | Schedule(s, moves) ensures !Finished(Run(s, moves)) {
      if Finished(Run(s, moves)) {
        var rest := EveryScheduleFinishes(s, moves, []);
        assert false;
      }
    }
  }

  /** The client waits for a block where the notary starts a joint call: it takes the first
      message of that call for the block, and then both wait. */
  lemma JointMeetsGet<R>(p: Program<R>, opsN: seq<Op>, opsC: seq<Op>, pos: Pos)
    requires opsN != [] && opsN[0] == Joint && |opsC| >= 2 && opsC[0] == Get && opsC[1] == Joint
    requires pos.calls < |p.sessions| && p.n.call(pos.calls) != []
    ensures NeverFinishes(At(p, opsN, opsC, pos))
  {
    var s := At(p, opsN, opsC, pos);
    CallWaits(p.sessions[pos.calls], p.n.call(pos.calls), NotaryProc(p, opsN[1..], pos.calls + 1, |pos.toC|, pos.toN));
    var q := ClientProc(p, opsC[1..], Replies(p, pos.calls), |pos.toN|, pos.toC + [s.p.m.lab]);
    ClientWaits(p, opsC[1..], Replies(p, pos.calls), |pos.toN|, pos.toC + [s.p.m.lab]);
    var t := Net(s.p.next, q, [], []);
    ReachesSelf(t);
    PassPQ(s.p, s.q, t);
    StuckNeverFinishes(t);
    NeverFinishesBefore(s, t);
  }

  /** The client's side of a joint call starts by waiting for the label for one. */
  lemma ClientWaits<R>(p: Program<R>, ops: seq<Op>, replies: seq<seq<Byte>>, puts: nat, got: seq<Label>)
    requires ops != [] && ops[0] == Joint && |replies| < |p.sessions|
    ensures ClientProc(p, ops, replies, puts, got).Recv?
  {
    var x, b := p.sessions[|replies|], p.c.call(replies);
    assert EvCall(x, b, ClientNext(p, ops, replies, puts, got)).Recv?;
  }

  /** After the label for one the notary waits for the client's openings, or has no shares left. */
  lemma CallWaits<T>(x: Session, a: seq<bool>, next: Proc<T>)
    requires a != []
    ensures GbCall(x, a, next).Send? && GbCall(x, a, next).m.LabelMsg?
    ensures GbCall(x, a, next).next.Recv? || GbCall(x, a, next).next.Fail?
  {
    var c := Wrapped(x.inner, x.inputs);
    var p := GbCall(x, a, next);
    assert p == GbMain(x.setup.lib, x.setup.g, NotaryInputs(a, x.mask), |a| + 8 * |x.mask|, c.gates, c.outs,
                       Then(next));
    assert |NotaryInputs(a, x.mask)| > 0;
  }

  /** The client sends a block where the notary starts a joint call: the notary takes it for an
      opened share and rejects it. */
  lemma JointMeetsPut<R>(p: Program<R>, opsN: seq<Op>, opsC: seq<Op>, pos: Pos)
    requires opsN != [] && opsN[0] == Joint && opsC != [] && opsC[0] == Put
    requires pos.calls < |p.sessions| && p.n.call(pos.calls) != []
    ensures NeverFinishes(At(p, opsN, opsC, pos))
  {
    var s := At(p, opsN, opsC, pos);
    forall moves | Schedule(s, moves) ensures !Finished(Run(s, moves)) {
      if Finished(Run(s, moves)) {
        var a, b := Exchange.FinishingTapes(s, moves);
        assert [] + a == a && [] + b == b;
        CallRejects(p.sessions[pos.calls], p.n.call(pos.calls),
                    NotaryProc(p, opsN[1..], pos.calls + 1, |pos.toC|, pos.toN), b);
        assert false;
      }
    }
  }

  /** A call whose first incoming message is a label does not return. */
  lemma CallRejects<T>(x: Session, a: seq<bool>, next: Proc<T>, tape: seq<Msg>)
    requires a != [] && tape != [] && tape[0].LabelMsg?
    ensures !Feed(GbCall(x, a, next), tape).proc.Ret?
  {
    var c, values := Wrapped(x.inner, x.inputs), NotaryInputs(a, x.mask);
    var p := GbCall(x, a, next);
    AfterOneRejects(x.setup.lib, x.setup.g, values, |a| + 8 * |x.mask|, c.gates, c.outs, Then(next), tape);
    assert p == GbMain(x.setup.lib, x.setup.g, values, |a| + 8 * |x.mask|, c.gates, c.outs, Then(next));
    Exchange.FeedFirst(p.m, p.next, tape);
  }

  lemma AfterOneRejects<T>(lib: Library, st: GbState, values: seq<nat>, theirs: nat, gates: seq<Circuit.Gate>,
                           outs: seq<nat>, k: GbState -> Proc<T>, tape: seq<Msg>)
    requires values != [] && tape != [] && tape[0].LabelMsg?
    ensures !Feed(GbAfterOne(lib, st, values, theirs, gates, outs, k), tape).proc.Ret?
  {
    var k0 := (s: GbState, inputs: seq<Wire>) => GbCompute(lib, s, inputs, gates, outs, k);
    var k1 := (s: GbState, mine: seq<Wire>) => GbTheirInputs(s, mine, theirs, k0);
    EncodeRejects(st, values, tape, k1);
  }

  lemma EncodeRejects<T>(st: GbState, values: seq<nat>, tape: seq<Msg>, k: (GbState, seq<Wire>) -> Proc<T>)
    requires values != [] && tape != [] && tape[0].LabelMsg?
    ensures !Feed(GbEncodeMany(st, values, k), tape).proc.Ret?
  {
    var n := |values|;
    if st.shareIndex + n <= |st.shares| {
      var mine := Taken(st.shares, st.shareIndex, n);
      var f := (theirs: seq<Msg>) => GbEncodeOpened(GbTake(st, n), values, mine, theirs, k);
      FeedRecvAll(n, [], f, tape);
      if |tape| >= n {
        assert ([] + tape[..n])[0] == tape[0];
        assert !AllAuthentic(mine, [] + tape[..n], st.delta);
      }
    }
  }
}
