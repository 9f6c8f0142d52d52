/** Two parties that each run alone on a tape of what the other sent: when the tapes are each
    other's output, this is a run of the network, and from an honest setup it computes the circuit. */
module Exchange {
  import opened Circuit
  import opened Network
  import opened Parties
  import opened JointRun
  import opened Shares
  import opened Tape
  import Bits

  /** `a` is all that P, and `b` all that Q, still sends when each is given what is in flight and
      then what the other sends; both end as in `t`, with nothing left to read. */
  ghost predicate TapesTo<A, B>(s: Net<A, B>, t: Net<A, B>, a: seq<Msg>, b: seq<Msg>) {
    Feed(s.p, s.toP + b) == Fed(a, [], t.p) && Feed(s.q, s.toQ + a) == Fed(b, [], t.q)
  }

  /** The two outputs match the two inputs, wherever the parties stop. */
  ghost predicate Matching<A, B>(s: Net<A, B>, a: seq<Msg>, b: seq<Msg>) {
    Feed(s.p, s.toP + b).out == a && Feed(s.q, s.toQ + a).out == b
  }

  /** What the mover sends in a step. */
  function SentBy<A, B>(s: Net<A, B>, m: Move, who: Move): seq<Msg> {
    if m != who then []
    else if m == P && s.p.Send? then [s.p.m]
    else if m == Q && s.q.Send? then [s.q.m]
    else []
  }

  lemma FeedFirst<T>(m: Msg, next: Proc<T>, tape: seq<Msg>)
    ensures Feed(Send(m, next), tape) == Fed([m] + Feed(next, tape).out, Feed(next, tape).rest, Feed(next, tape).proc)
  {}

  lemma FeedNext<T>(k: Msg -> Proc<T>, inFlight: seq<Msg>, more: seq<Msg>)
    requires inFlight != []
    ensures Feed(Recv(k), inFlight + more) == Feed(k(inFlight[0]), inFlight[1..] + more)
  {
    assert (inFlight + more)[1..] == inFlight[1..] + more;
  }

  /** The mover, on its own tape, before and after its step. */
  lemma MoverP<A, B>(s: Net<A, B>, b: seq<Msg>)
    requires Enabled(s, P)
    ensures
      var f, g := Feed(s.p, s.toP + b), Feed(Step(s, P).p, Step(s, P).toP + b);
      f == Fed(SentBy(s, P, P) + g.out, g.rest, g.proc)
  {
    var g := Feed(Step(s, P).p, Step(s, P).toP + b);
    if s.p.Send? {
      FeedFirst(s.p.m, s.p.next, s.toP + b);
    } else {
      FeedNext(s.p.k, s.toP, b);
      assert [] + g.out == g.out;
    }
  }

  lemma MoverQ<A, B>(s: Net<A, B>, a: seq<Msg>)
    requires Enabled(s, Q)
    ensures
      var f, g := Feed(s.q, s.toQ + a), Feed(Step(s, Q).q, Step(s, Q).toQ + a);
      f == Fed(SentBy(s, Q, Q) + g.out, g.rest, g.proc)
  {
    var g := Feed(Step(s, Q).q, Step(s, Q).toQ + a);
    if s.q.Send? {
      FeedFirst(s.q.m, s.q.next, s.toQ + a);
    } else {
      FeedNext(s.q.k, s.toQ, a);
      assert [] + g.out == g.out;
    }
  }

  /** What the mover sends joins what is in flight to the other. */
  lemma OtherSees<A, B>(s: Net<A, B>, m: Move, a: seq<Msg>, b: seq<Msg>)
    requires Enabled(s, m)
    ensures m == P ==> Step(s, m).q == s.q && Step(s, m).toQ + a == s.toQ + (SentBy(s, m, P) + a)
    ensures m == Q ==> Step(s, m).p == s.p && Step(s, m).toP + b == s.toP + (SentBy(s, m, Q) + b)
  {}

  /** Tapes after a step give tapes before it. */
  lemma TapesBefore<A, B>(s: Net<A, B>, m: Move, t: Net<A, B>, a: seq<Msg>, b: seq<Msg>)
    requires Enabled(s, m) && TapesTo(Step(s, m), t, a, b)
    ensures TapesTo(s, t, SentBy(s, m, P) + a, SentBy(s, m, Q) + b)
  {
    OtherSees(s, m, a, b);
    assert [] + a == a && [] + b == b;
    if m == P {
      MoverP(s, b);
    } else {
      MoverQ(s, a);
    }
  }

  /** Matching tapes before a step start with what it sends, and the rest match after it. */
  lemma MatchingAfter<A, B>(s: Net<A, B>, m: Move, x: seq<Msg>, y: seq<Msg>) returns (a: seq<Msg>, b: seq<Msg>)
    requires Enabled(s, m) && Matching(s, x, y)
    ensures x == SentBy(s, m, P) + a && y == SentBy(s, m, Q) + b && Matching(Step(s, m), a, b)
  {
    if m == P {
      MoverP(s, y);
      a, b := Feed(Step(s, P).p, Step(s, P).toP + y).out, y;
    } else {
      MoverQ(s, x);
      a, b := x, Feed(Step(s, Q).q, Step(s, Q).toQ + x).out;
    }
    assert [] + a == a && [] + b == b;
    OtherSees(s, m, a, b);
  }

  /** From a state that can finish, each party alone, on the messages in flight and the ones it
      will get, sends what the other reads and ends as in the finished run. */
  lemma {:induction false} FinishingTapes<A, B>(s: Net<A, B>, moves: seq<Move>) returns (a: seq<Msg>, b: seq<Msg>)
    requires Schedule(s, moves) && Finished(Run(s, moves))
    ensures TapesTo(s, Run(s, moves), a, b)
    decreases |moves|
  {
    if moves == [] {
      a, b := [], [];
      assert s.toP + [] == [] && s.toQ + [] == [];
    } else {
      var a1, b1 := FinishingTapes(Step(s, moves[0]), moves[1..]);
      TapesBefore(s, moves[0], Run(s, moves), a1, b1);
      a, b := SentBy(s, moves[0], P) + a1, SentBy(s, moves[0], Q) + b1;
    }
  }

  /** Those tapes are the only ones that are each other's output. */
  lemma {:induction false} TapesUnique<A, B>(s: Net<A, B>, moves: seq<Move>, x: seq<Msg>, y: seq<Msg>)
    requires Schedule(s, moves) && Finished(Run(s, moves)) && Matching(s, x, y)
    ensures TapesTo(s, Run(s, moves), x, y)
    decreases |moves|
  {
    if moves == [] {
      assert s.toP + [] == [] && s.toQ + [] == [];
    } else {
      var a, b := MatchingAfter(s, moves[0], x, y);
      TapesUnique(Step(s, moves[0]), moves[1..], a, b);
      TapesBefore(s, moves[0], Run(s, moves), a, b);
    }
  }

  /** What two party objects that only talk to each other do: `toE` is everything the garbler
      sent and the evaluator was given, `toG` the other way. */
  ghost predicate Exchanged(u: Setup, gates: seq<Gate>, outs: seq<nat>, gin: seq<nat>, ein: seq<nat>,
                            toE: seq<Msg>, toG: seq<Msg>, leftG: seq<Msg>, leftE: seq<Msg>,
                            rg: Result<GbState>, re: Result<(EvState, seq<bool>)>)
  {
    && Behaves(GbMain(u.lib, u.g, gin, |ein|, gates, outs, Return<GbState>), toG, [], leftG, toE, rg)
    && Behaves(EvMain(u.lib, u.e, |gin|, ein, gates, outs, Both<EvState, seq<bool>>), toE, [], leftE, toG, re)
  }

  /** The engine's correctness for the party objects: from an honest setup both succeed, read
      everything they were sent, and the evaluator returns the clear outputs. */
  lemma ObjectsCompute(u: Setup, gates: seq<Gate>, outs: seq<nat>, gin: seq<nat>, ein: seq<nat>,
                       toE: seq<Msg>, toG: seq<Msg>, leftG: seq<Msg>, leftE: seq<Msg>,
                       rg: Result<GbState>, re: Result<(EvState, seq<bool>)>)
    requires HonestSetup(u, gates, |gin| + |ein|)
    requires Boolean(gin) && Boolean(ein) && Within(outs, |gin| + |ein| + |gates|)
    requires Exchanged(u, gates, outs, gin, ein, toE, toG, leftG, leftE, rg, re)
    ensures rg.Ok? && re.Ok? && leftG == [] && leftE == []
    ensures re.value.1 == ClearOutputs(gates, outs, gin, ein)
    ensures UsedUp(u, gates, |gin| + |ein|, rg.value, re.value.0)
  {
    var start := Start(u, gates, outs, gin, ein);
    var moves := SomeRunFinishes(u, gates, outs, gin, ein);
    assert [] + toG == toG && [] + toE == toE;
    TapesUnique(start, moves, toE, toG);
  }

  /** And there is such an exchange. */
  lemma ExchangeExists(u: Setup, gates: seq<Gate>, outs: seq<nat>, gin: seq<nat>, ein: seq<nat>)
    returns (toE: seq<Msg>, toG: seq<Msg>, rg: Result<GbState>, re: Result<(EvState, seq<bool>)>)
    requires HonestSetup(u, gates, |gin| + |ein|)
    requires Boolean(gin) && Boolean(ein) && Within(outs, |gin| + |ein| + |gates|)
    ensures Exchanged(u, gates, outs, gin, ein, toE, toG, [], [], rg, re)
  {
    var start := Start(u, gates, outs, gin, ein);
    var moves := SomeRunFinishes(u, gates, outs, gin, ein);
    toE, toG := FinishingTapes(start, moves);
    assert start.toP + toG == toG && start.toQ + toE == toE;
    rg, re := Ok(Run(start, moves).p.value), Ok(Run(start, moves).q.value);
  }

  /** The evaluator does not return when one of the opened output bits was flipped under its MAC,
      whatever the other messages are. */
  lemma {:induction false} FlippedOutputStops<T>(st: EvState, gws: seq<Wire>, ews: seq<Wire>, dg: Label,
                                                 k: seq<bool> -> Proc<T>,
                              tape: seq<Msg>, i: nat)
    requires i < |gws| == |ews| && i < |tape| && Paired(gws[i].share, ews[i].share, dg, st.delta)
    requires st.delta != Bits.Zeros(128) && tape[i] == OpenMsg(!gws[i].share.bit, gws[i].share.mac)
    ensures !Feed(EvOutputs(st, ews, k), tape).proc.Ret?
  {
    var n, f := |ews|, (theirs: seq<Msg>) => EvOutputsOpened(st, ews, theirs, k);
    FeedRecvAll(n, [], f, tape);
    if |tape| >= n {
      var theirs := [] + tape[..n];
      assert theirs[i] == tape[i] && ShareList(ews)[i] == ews[i].share;
      OnlyItsBit(gws[i].share, ews[i].share, dg, st.delta, !gws[i].share.bit);
      assert !AllAuthentic(ShareList(ews), theirs, st.delta);
    }
  }
}
