/** One party alone: what a process does with a given tape of incoming messages.
    The party classes are proved against this reading of their processes. */
module Tape {
  import opened Network

  datatype Result<+T> = Ok(value: T) | Err

  /** What a process sent, what is left on its tape, and where it stopped: it
      returned, aborted, or waits on an empty tape. */
  datatype Fed<!T> = Fed(out: seq<Msg>, rest: seq<Msg>, proc: Proc<T>)

  function Feed<T>(p: Proc<T>, tape: seq<Msg>): Fed<T>
    decreases |tape|, p
  {
    match p
    case Send(m, next) => var f := Feed(next, tape); Fed([m] + f.out, f.rest, f.proc)
    case Recv(k) => if tape == [] then Fed([], [], p) else Feed(k(tape[0]), tape[1..])
    case _ => Fed([], tape, p)
  }

  /** A party that started from `p` behaved as `p` prescribes: it sent exactly those
      messages; if it succeeded, it read exactly that much and returned that value;
      otherwise `p` does not return on this tape. */
  ghost predicate Behaves<T(!new)>(p: Proc<T>, tape: seq<Msg>, sent: seq<Msg>, tape': seq<Msg>, sent': seq<Msg>,
                                   r: Result<T>) {
    var f := Feed(p, tape);
    && sent' == sent + f.out
    && (r.Ok? ==> f.proc == Ret(r.value) && tape' == f.rest)
    && (r.Err? ==> !f.proc.Ret?)
  }

  lemma {:induction false} FeedSendAll<T>(ms: seq<Msg>, p: Proc<T>, tape: seq<Msg>)
    ensures Feed(SendAll(ms, p), tape) == Fed(ms + Feed(p, tape).out, Feed(p, tape).rest, Feed(p, tape).proc)
    decreases |ms|
  {
    if ms == [] {
      assert ms + Feed(p, tape).out == Feed(p, tape).out;
    } else {
      FeedSendAll(ms[1..], p, tape);
      assert ms + Feed(p, tape).out == [ms[0]] + (ms[1..] + Feed(p, tape).out);
    }
  }

  lemma {:induction false} FeedRecvAll<T>(n: nat, got: seq<Msg>, k: seq<Msg> -> Proc<T>, tape: seq<Msg>)
    ensures |tape| >= n ==> Feed(RecvAll(n, got, k), tape) == Feed(k(got + tape[..n]), tape[n..])
    ensures |tape| < n ==> Feed(RecvAll(n, got, k), tape).out == [] && !Feed(RecvAll(n, got, k), tape).proc.Ret?
    decreases n
  {
    if n == 0 {
      assert got + tape[..0] == got && tape[0..] == tape;
    } else if tape != [] {
      FeedRecvAll(n - 1, got + [tape[0]], k, tape[1..]);
      if |tape| >= n {
        assert got + [tape[0]] + tape[1..][..n - 1] == got + tape[..n];
        assert tape[1..][n - 1..] == tape[n..];
      }
    }
  }

  /** `n` messages are read, then the rest behaves as prescribed. */
  lemma ReadThen<T(!new)>(n: nat, k: seq<Msg> -> Proc<T>, tape: seq<Msg>, sent: seq<Msg>,
                          tape': seq<Msg>, sent': seq<Msg>, r: Result<T>)
    requires |tape| >= n && Behaves(k(tape[..n]), tape[n..], sent, tape', sent', r)
    ensures Behaves(RecvAll(n, [], k), tape, sent, tape', sent', r)
  {
    FeedRecvAll(n, [], k, tape);
    assert [] + tape[..n] == tape[..n];
  }

  /** The tape is too short for what is read next. */
  lemma Starved<T(!new)>(n: nat, k: seq<Msg> -> Proc<T>, tape: seq<Msg>, sent: seq<Msg>, tape': seq<Msg>)
    requires |tape| < n
    ensures Behaves(RecvAll(n, [], k), tape, sent, tape', sent, Err)
  {
    FeedRecvAll(n, [], k, tape);
  }

  /** `q` sends `ms` and then does what `p` does. */
  lemma SentFirst<T(!new)>(ms: seq<Msg>, p: Proc<T>, q: Proc<T>, tape: seq<Msg>, sent: seq<Msg>,
                           tape': seq<Msg>, sent': seq<Msg>, r: Result<T>)
    requires Feed(q, tape) == Fed(ms + Feed(p, tape).out, Feed(p, tape).rest, Feed(p, tape).proc)
    requires Behaves(p, tape, sent + ms, tape', sent', r)
    ensures Behaves(q, tape, sent, tape', sent', r)
  {
    assert (sent + ms) + Feed(p, tape).out == sent + (ms + Feed(p, tape).out);
  }

  /** A batch is sent, then the rest behaves as prescribed. */
  lemma SentThen<T(!new)>(ms: seq<Msg>, p: Proc<T>, tape: seq<Msg>, sent: seq<Msg>,
                          tape': seq<Msg>, sent': seq<Msg>, r: Result<T>)
    requires Behaves(p, tape, sent + ms, tape', sent', r)
    ensures Behaves(SendAll(ms, p), tape, sent, tape', sent', r)
  {
    FeedSendAll(ms, p, tape);
    SentFirst(ms, p, SendAll(ms, p), tape, sent, tape', sent', r);
  }

  lemma SentOne<T(!new)>(m: Msg, p: Proc<T>, tape: seq<Msg>, sent: seq<Msg>,
                         tape': seq<Msg>, sent': seq<Msg>, r: Result<T>)
    requires Behaves(p, tape, sent + [m], tape', sent', r)
    ensures Behaves(Send(m, p), tape, sent, tape', sent', r)
  {
    SentFirst([m], p, Send(m, p), tape, sent, tape', sent', r);
  }

  lemma ReadOne<T(!new)>(k: Msg -> Proc<T>, tape: seq<Msg>, sent: seq<Msg>,
                         tape': seq<Msg>, sent': seq<Msg>, r: Result<T>)
    requires if tape == [] then r.Err? && sent' == sent else Behaves(k(tape[0]), tape[1..], sent, tape', sent', r)
    ensures Behaves(Recv(k), tape, sent, tape', sent', r)
  {}

  // ---------------------------------------------------------------- what follows a process

  /** On this tape, `q` does what `p` does and goes on with `k` where `p` returns. */
  ghost predicate FollowsOn<S, T>(p: Proc<S>, q: Proc<T>, k: S -> Proc<T>, tape: seq<Msg>) {
    var f, g := Feed(p, tape), Feed(q, tape);
    if f.proc.Ret? then
      var rest := Feed(k(f.proc.value), f.rest);
      g == Fed(f.out + rest.out, rest.rest, rest.proc)
    else g.out == f.out && !g.proc.Ret?
  }

  ghost predicate Follows<S, T>(p: Proc<S>, q: Proc<T>, k: S -> Proc<T>) {
    forall tape :: FollowsOn(p, q, k, tape)
  }

  lemma FollowsRet<S, T>(v: S, k: S -> Proc<T>)
    ensures Follows(Ret(v), k(v), k)
  {
    forall tape ensures FollowsOn(Ret(v), k(v), k, tape) {
      assert [] + Feed(k(v), tape).out == Feed(k(v), tape).out;
    }
  }

  lemma FollowsSend<S, T>(m: Msg, p: Proc<S>, q: Proc<T>, k: S -> Proc<T>)
    requires Follows(p, q, k)
    ensures Follows(Send(m, p), Send(m, q), k)
  {
    forall tape ensures FollowsOn(Send(m, p), Send(m, q), k, tape) {
      assert FollowsOn(p, q, k, tape);
      var f := Feed(p, tape);
      if f.proc.Ret? {
        var rest := Feed(k(f.proc.value), f.rest);
        assert [m] + (f.out + rest.out) == ([m] + f.out) + rest.out;
      }
    }
  }

  lemma FollowsRecv<S, T>(p: Msg -> Proc<S>, q: Msg -> Proc<T>, k: S -> Proc<T>)
    requires forall m :: Follows(p(m), q(m), k)
    ensures Follows(Recv(p), Recv(q), k)
  {
    forall tape ensures FollowsOn(Recv(p), Recv(q), k, tape) {
      if tape != [] {
        assert Follows(p(tape[0]), q(tape[0]), k);
        assert FollowsOn(p(tape[0]), q(tape[0]), k, tape[1..]);
      }
    }
  }

  lemma {:induction false} FollowsSendAll<S, T>(ms: seq<Msg>, p: Proc<S>, q: Proc<T>, k: S -> Proc<T>)
    requires Follows(p, q, k)
    ensures Follows(SendAll(ms, p), SendAll(ms, q), k)
    decreases |ms|
  {
    if ms != [] {
      FollowsSendAll(ms[1..], p, q, k);
      FollowsSend(ms[0], SendAll(ms[1..], p), SendAll(ms[1..], q), k);
    }
  }

  lemma FollowsRecvAll<S, T>(n: nat, p: seq<Msg> -> Proc<S>, q: seq<Msg> -> Proc<T>, k: S -> Proc<T>)
    requires forall got :: Follows(p(got), q(got), k)
    ensures Follows(RecvAll(n, [], p), RecvAll(n, [], q), k)
  {
    forall tape ensures FollowsOn(RecvAll(n, [], p), RecvAll(n, [], q), k, tape) {
      FeedRecvAll(n, [], p, tape);
      FeedRecvAll(n, [], q, tape);
      if |tape| >= n {
        assert [] + tape[..n] == tape[..n];
        assert Follows(p(tape[..n]), q(tape[..n]), k);
        assert FollowsOn(p(tape[..n]), q(tape[..n]), k, tape[n..]);
      }
    }
  }

  /** `p` and `q` both continue `base`, and their continuations follow one another. */
  lemma FollowsVia<R(!new), S, T>(base: Proc<R>, p: Proc<S>, q: Proc<T>, kp: R -> Proc<S>, kq: R -> Proc<T>,
                                  k: S -> Proc<T>)
    requires Follows(base, p, kp) && Follows(base, q, kq)
    requires forall v :: Follows(kp(v), kq(v), k)
    ensures Follows(p, q, k)
  {
    forall tape: seq<Msg> ensures FollowsOn(p, q, k, tape) {
      assert FollowsOn(base, p, kp, tape) && FollowsOn(base, q, kq, tape);
      var f := Feed(base, tape);
      if f.proc.Ret? {
        var v := f.proc.value;
        assert Follows(kp(v), kq(v), k);
        assert FollowsOn(kp(v), kq(v), k, f.rest);
        var g := Feed(kp(v), f.rest);
        if g.proc.Ret? {
          var rest := Feed(k(g.proc.value), g.rest);
          assert f.out + (g.out + rest.out) == (f.out + g.out) + rest.out;
        }
      }
    }
  }

  lemma FollowsFail<S, T>(k: S -> Proc<T>)
    ensures Follows(Fail, Fail, k)
  {
    forall tape: seq<Msg> ensures FollowsOn(Fail, Fail, k, tape) {}
  }

  function Uncurried<S, U, T>(k: (S, U) -> Proc<T>): ((S, U)) -> Proc<T> {
    (p: (S, U)) => k(p.0, p.1)
  }

  lemma FollowsBoth<S, U, T>(s: S, u: U, k: (S, U) -> Proc<T>)
    ensures Follows(Both(s, u), k(s, u), Uncurried(k))
  {
    FollowsRet((s, u), Uncurried(k));
  }

  /** A party that behaved as a prefix of `p` up to here, with `q` left to do. */
  ghost predicate Resumes<T>(p: Proc<T>, tape: seq<Msg>, sent: seq<Msg>, q: Proc<T>, tape': seq<Msg>, sent': seq<Msg>) {
    var f, g := Feed(p, tape), Feed(q, tape');
    sent' + g.out == sent + f.out && g.rest == f.rest && g.proc == f.proc
  }

  /** One operation of a party, and what is left after it. */
  lemma ThenResumes<S(!new), T>(p: Proc<S>, q: Proc<T>, k: S -> Proc<T>, tape: seq<Msg>, sent: seq<Msg>,
                                tape': seq<Msg>, sent': seq<Msg>, v: S)
    requires Follows(p, q, k) && Behaves(p, tape, sent, tape', sent', Ok(v))
    ensures Resumes(q, tape, sent, k(v), tape', sent')
  {
    assert FollowsOn(p, q, k, tape);
    var f, rest := Feed(p, tape), Feed(k(v), tape');
    assert (sent + f.out) + rest.out == sent + (f.out + rest.out);
  }

  lemma ThenFails<S(!new), T(!new)>(p: Proc<S>, q: Proc<T>, k: S -> Proc<T>, tape: seq<Msg>, sent: seq<Msg>,
                                    tape': seq<Msg>, sent': seq<Msg>)
    requires Follows(p, q, k) && Behaves(p, tape, sent, tape', sent', Err)
    ensures Behaves(q, tape, sent, tape', sent', Err)
  {
    assert FollowsOn(p, q, k, tape);
  }

  lemma ResumesTrans<T>(p: Proc<T>, tape: seq<Msg>, sent: seq<Msg>, q: Proc<T>, tape': seq<Msg>, sent': seq<Msg>,
                        u: Proc<T>, tape'': seq<Msg>, sent'': seq<Msg>)
    requires Resumes(p, tape, sent, q, tape', sent') && Resumes(q, tape', sent', u, tape'', sent'')
    ensures Resumes(p, tape, sent, u, tape'', sent'')
  {}

  /** What is left to do behaved as prescribed, so the whole did. */
  lemma BehavesWhole<T(!new)>(p: Proc<T>, tape: seq<Msg>, sent: seq<Msg>, q: Proc<T>, tape': seq<Msg>, sent': seq<Msg>,
                              tape'': seq<Msg>, sent'': seq<Msg>, r: Result<T>)
    requires Resumes(p, tape, sent, q, tape', sent') && Behaves(q, tape', sent', tape'', sent'', r)
    ensures Behaves(p, tape, sent, tape'', sent'', r)
  {}

  /** One end of the connection. */
  class Channel {
    var tape: seq<Msg>
    var sent: seq<Msg>

    constructor (incoming: seq<Msg>)
      ensures tape == incoming && sent == []
    {
      tape, sent := incoming, [];
    }

    method Write(m: Msg)
      modifies this
      ensures sent == old(sent) + [m] && tape == old(tape)
    {
      sent := sent + [m];
    }

    method WriteAll(ms: seq<Msg>)
      modifies this
      ensures sent == old(sent) + ms && tape == old(tape)
    {
      var i := 0;
      while i < |ms|
        invariant 0 <= i <= |ms|
        invariant sent == old(sent) + ms[..i] && tape == old(tape)
      {
        Write(ms[i]);
        i := i + 1;
      }
    }

    method Read() returns (r: Result<Msg>)
      modifies this
      ensures sent == old(sent)
      ensures old(tape) == [] ==> r.Err? && tape == []
      ensures old(tape) != [] ==> r == Ok(old(tape)[0]) && tape == old(tape)[1..]
    {
      if tape == [] {
        return Err;
      }
      r := Ok(tape[0]);
      tape := tape[1..];
    }

    method ReadAll(n: nat) returns (r: Result<seq<Msg>>)
      modifies this
      ensures sent == old(sent)
      ensures |old(tape)| < n ==> r.Err?
      ensures |old(tape)| >= n ==> r == Ok(old(tape)[..n]) && tape == old(tape)[n..]
    {
      var got: seq<Msg> := [];
      while |got| < n
        invariant |got| <= n && |got| <= |old(tape)|
        invariant got == old(tape)[..|got|] && tape == old(tape)[|got|..]
        invariant sent == old(sent)
      {
        var m := Read();
        if m.Err? {
          return Err;
        }
        got := got + [m.value];
      }
      r := Ok(got);
    }
  }
}
