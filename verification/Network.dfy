/** Two sequential processes joined by two FIFO channels, and what is true of
    every interleaving of their steps. */
module Network {
  import opened Bits

  /** A 128-bit wire label, key or MAC. */
  type Label = s: seq<bool> | |s| == 128 witness Zeros(128)

  datatype Msg =
    | LabelMsg(lab: Label)
    | BitMsg(b: bool)
    | OpenMsg(bit: bool, mac: Label)

  /** One party: it returns, aborts, sends, or waits for a message. */
  datatype Proc<!T> =
    | Ret(value: T)
    | Fail
    | Send(m: Msg, next: Proc<T>)
    | Recv(k: Msg -> Proc<T>)

  /** Nothing follows: the process returns what it has. */
  function Return<T>(v: T): Proc<T> {
    Ret(v)
  }

  function Both<S, T>(s: S, t: T): Proc<(S, T)> {
    Ret((s, t))
  }

  /** `k` with its first argument given. */
  function Given<S, U, T>(k: (S, U) -> Proc<T>, s: S): U -> Proc<T> {
    (u: U) => k(s, u)
  }

  /** Send a batch of messages in order. */
  function SendAll<T>(ms: seq<Msg>, next: Proc<T>): Proc<T> {
    if ms == [] then next else Send(ms[0], SendAll(ms[1..], next))
  }

  /** Receive `n` more messages after the batch `got`. */
  function RecvAll<T>(n: nat, got: seq<Msg>, k: seq<Msg> -> Proc<T>): Proc<T> {
    if n == 0 then k(got) else Recv(m => RecvAll(n - 1, got + [m], k))
  }

  /** Both processes and the messages in flight in each direction. */
  datatype Net<!A, !B> = Net(p: Proc<A>, q: Proc<B>, toQ: seq<Msg>, toP: seq<Msg>)

  /** Which party takes the next step. */
  datatype Move = P | Q

  predicate Enabled<A, B>(s: Net<A, B>, m: Move) {
    match m
    case P => s.p.Send? || (s.p.Recv? && s.toP != [])
    case Q => s.q.Send? || (s.q.Recv? && s.toQ != [])
  }

  function Step<A, B>(s: Net<A, B>, m: Move): Net<A, B>
    requires Enabled(s, m)
  {
    match m
    case P =>
      if s.p.Send? then s.(p := s.p.next, toQ := s.toQ + [s.p.m])
      else s.(p := s.p.k(s.toP[0]), toP := s.toP[1..])
    case Q =>
      if s.q.Send? then s.(q := s.q.next, toP := s.toP + [s.q.m])
      else s.(q := s.q.k(s.toQ[0]), toQ := s.toQ[1..])
  }

  /** `moves` can be taken from `s`, one after the other. */
  predicate Schedule<A, B>(s: Net<A, B>, moves: seq<Move>)
    decreases |moves|
  {
    moves == [] || (Enabled(s, moves[0]) && Schedule(Step(s, moves[0]), moves[1..]))
  }

  function Run<A, B>(s: Net<A, B>, moves: seq<Move>): Net<A, B>
    requires Schedule(s, moves)
    decreases |moves|
  {
    if moves == [] then s else Run(Step(s, moves[0]), moves[1..])
  }

  ghost predicate Reaches<A, B>(s: Net<A, B>, t: Net<A, B>) {
    exists moves :: Schedule(s, moves) && Run(s, moves) == t
  }

  /** Both parties returned and every message was read. */
  predicate Finished<A, B>(s: Net<A, B>) {
    s.p.Ret? && s.q.Ret? && s.toQ == [] && s.toP == []
  }

  predicate Aborted<A, B>(s: Net<A, B>) {
    s.p.Fail? || s.q.Fail?
  }

  predicate Quiescent<A, B>(s: Net<A, B>) {
    !Enabled(s, P) && !Enabled(s, Q)
  }

  lemma {:induction false} RunConcat<A, B>(s: Net<A, B>, u: seq<Move>, v: seq<Move>)
    requires Schedule(s, u) && Schedule(Run(s, u), v)
    ensures Schedule(s, u + v) && Run(s, u + v) == Run(Run(s, u), v)
    decreases |u|
  {
    if u == [] {
      assert u + v == v;
    } else {
      assert (u + v)[1..] == u[1..] + v;
      RunConcat(Step(s, u[0]), u[1..], v);
    }
  }

  lemma ReachesSelf<A, B>(s: Net<A, B>)
    ensures Reaches(s, s)
  {
    assert Schedule(s, []) && Run(s, []) == s;
  }

  lemma ReachesTrans<A, B>(s: Net<A, B>, t: Net<A, B>, u: Net<A, B>)
    requires Reaches(s, t) && Reaches(t, u)
    ensures Reaches(s, u)
  {
    var x :| Schedule(s, x) && Run(s, x) == t;
    var y :| Schedule(t, y) && Run(t, y) == u;
    RunConcat(s, x, y);
  }

  lemma ReachesStep<A, B>(s: Net<A, B>, m: Move, t: Net<A, B>)
    requires Enabled(s, m)
    requires Reaches(Step(s, m), t)
    ensures Reaches(s, t)
  {
    var x :| Schedule(Step(s, m), x) && Run(Step(s, m), x) == t;
    assert ([m] + x)[1..] == x;
    assert Schedule(s, [m] + x) && Run(s, [m] + x) == t;
  }

  /** The two parties' steps commute. */
  lemma Diamond<A, B>(s: Net<A, B>)
    requires Enabled(s, P) && Enabled(s, Q)
    ensures Enabled(Step(s, P), Q) && Enabled(Step(s, Q), P)
    ensures Step(Step(s, P), Q) == Step(Step(s, Q), P)
  {
    var sp, sq := Step(s, P), Step(s, Q);
    if s.q.Recv? {
      assert sp.toQ[0] == s.toQ[0];
      if s.p.Send? {
        assert (s.toQ + [s.p.m])[1..] == s.toQ[1..] + [s.p.m];
      }
    }
    if s.p.Recv? {
      assert sq.toP[0] == s.toP[0];
      if s.q.Send? {
        assert (s.toP + [s.q.m])[1..] == s.toP[1..] + [s.q.m];
      }
    }
  }

  /** If one schedule finishes in `|moves|` steps, then any first step leaves a
      schedule that finishes in the same state one step sooner. */
  lemma {:induction false} AnyFirstStep<A, B>(s: Net<A, B>, moves: seq<Move>, m: Move) returns (rest: seq<Move>)
    requires Schedule(s, moves) && Finished(Run(s, moves))
    requires Enabled(s, m)
    ensures Schedule(Step(s, m), rest) && Run(Step(s, m), rest) == Run(s, moves)
    ensures |rest| == |moves| - 1
    decreases |moves|
  {
    if moves == [] {
      assert false;
    } else if moves[0] == m {
      rest := moves[1..];
    } else {
      Diamond(s);
      var o := moves[0];
      var tail := AnyFirstStep(Step(s, o), moves[1..], m);
      rest := [o] + tail;
      assert rest[1..] == tail;
    }
  }

  /** Confluence. When one schedule finishes, no schedule aborts, none is longer,
      every partial run can still finish in the same state, and a run that can go
      no further has finished. */
  lemma {:induction false} EveryScheduleFinishes<A, B>(s: Net<A, B>, moves: seq<Move>, other: seq<Move>)
    returns (rest: seq<Move>)
    requires Schedule(s, moves) && Finished(Run(s, moves))
    requires Schedule(s, other)
    ensures |other| + |rest| == |moves|
    ensures Schedule(Run(s, other), rest) && Run(Run(s, other), rest) == Run(s, moves)
    ensures !Aborted(Run(s, other))
    ensures Quiescent(Run(s, other)) ==> Run(s, other) == Run(s, moves)
    decreases |other|
  {
    if other == [] {
      rest := moves;
      NoAbortBefore(s, moves);
    } else {
      var tail := AnyFirstStep(s, moves, other[0]);
      rest := EveryScheduleFinishes(Step(s, other[0]), tail, other[1..]);
    }
  }

  /** A state from which a schedule finishes has no aborted party. */
  lemma {:induction false} NoAbortBefore<A, B>(s: Net<A, B>, moves: seq<Move>)
    requires Schedule(s, moves) && Finished(Run(s, moves))
    ensures !Aborted(s)
    decreases |moves|
  {
    if moves != [] {
      NoAbortBefore(Step(s, moves[0]), moves[1..]);
    }
  }

  /** One message from P to Q. */
  lemma PassPQ<A, B>(p: Proc<A>, q: Proc<B>, t: Net<A, B>)
    requires p.Send? && q.Recv?
    requires Reaches(Net(p.next, q.k(p.m), [], []), t)
    ensures Reaches(Net(p, q, [], []), t)
  {
    var s := Net(p, q, [], []);
    var s1 := Step(s, P);
    assert s1.toQ == [p.m];
    assert Step(s1, Q) == Net(p.next, q.k(p.m), [], []);
    ReachesStep(s1, Q, t);
    ReachesStep(s, P, t);
  }

  /** One message from Q to P. */
  lemma PassQP<A, B>(p: Proc<A>, q: Proc<B>, t: Net<A, B>)
    requires p.Recv? && q.Send?
    requires Reaches(Net(p.k(q.m), q.next, [], []), t)
    ensures Reaches(Net(p, q, [], []), t)
  {
    var s := Net(p, q, [], []);
    var s1 := Step(s, Q);
    assert s1.toP == [q.m];
    assert Step(s1, P) == Net(p.k(q.m), q.next, [], []);
    ReachesStep(s1, P, t);
    ReachesStep(s, Q, t);
  }

  /** Two messages that cross: each party sends, then reads the other's. */
  lemma Cross<A, B>(p: Proc<A>, q: Proc<B>, t: Net<A, B>)
    requires p.Send? && p.next.Recv? && q.Send? && q.next.Recv?
    requires Reaches(Net(p.next.k(q.m), q.next.k(p.m), [], []), t)
    ensures Reaches(Net(p, q, [], []), t)
  {
    var s := Net(p, q, [], []);
    var s1 := Step(s, P);
    var s2 := Step(s1, Q);
    assert s2.toQ == [p.m] && s2.toP == [q.m];
    var s3 := Step(s2, P);
    assert Step(s3, Q) == Net(p.next.k(q.m), q.next.k(p.m), [], []);
    ReachesStep(s3, Q, t);
    ReachesStep(s2, P, t);
    ReachesStep(s1, Q, t);
    ReachesStep(s, P, t);
  }

  /** A batch sent by P and awaited by Q is delivered, in order. */
  lemma {:induction false} BatchPQ<A, B>(ms: seq<Msg>, p: Proc<A>, got: seq<Msg>, k: seq<Msg> -> Proc<B>)
    ensures Reaches(Net(SendAll(ms, p), RecvAll(|ms|, got, k), [], []), Net(p, k(got + ms), [], []))
    decreases |ms|
  {
    var s := Net(SendAll(ms, p), RecvAll(|ms|, got, k), [], []);
    var t := Net(p, k(got + ms), [], []);
    if ms == [] {
      assert got + ms == got;
      ReachesSelf(s);
    } else {
      var s1 := Step(s, P);
      assert s1.toQ == [ms[0]];
      var s2 := Step(s1, Q);
      assert s2.toQ == [];
      assert s2 == Net(SendAll(ms[1..], p), RecvAll(|ms[1..]|, got + [ms[0]], k), [], []);
      BatchPQ(ms[1..], p, got + [ms[0]], k);
      assert (got + [ms[0]]) + ms[1..] == got + ms;
      ReachesStep(s1, Q, t);
      ReachesStep(s, P, t);
    }
  }

  /** A batch sent by Q and awaited by P is delivered, in order. */
  lemma {:induction false} BatchQP<A, B>(ms: seq<Msg>, got: seq<Msg>, k: seq<Msg> -> Proc<A>, q: Proc<B>)
    ensures Reaches(Net(RecvAll(|ms|, got, k), SendAll(ms, q), [], []), Net(k(got + ms), q, [], []))
    decreases |ms|
  {
    var s := Net(RecvAll(|ms|, got, k), SendAll(ms, q), [], []);
    var t := Net(k(got + ms), q, [], []);
    if ms == [] {
      assert got + ms == got;
      ReachesSelf(s);
    } else {
      var s1 := Step(s, Q);
      assert s1.toP == [ms[0]];
      var s2 := Step(s1, P);
      assert s2.toP == [];
      assert s2 == Net(RecvAll(|ms[1..]|, got + [ms[0]], k), SendAll(ms[1..], q), [], []);
      BatchQP(ms[1..], got + [ms[0]], k, q);
      assert (got + [ms[0]]) + ms[1..] == got + ms;
      ReachesStep(s1, P, t);
      ReachesStep(s, Q, t);
    }
  }
}
