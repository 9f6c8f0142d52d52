/** What a party does on its one connection, in order. */
module Ops {

  /** A joint call with the other party, a block sent, a block read. */
  datatype Op = Joint | Put | Get

  function Rounds(n: nat, ops: seq<Op>): (r: seq<Op>)
    ensures |r| == n * |ops|
  {
    if n == 0 then [] else ops + Rounds(n - 1, ops)
  }

  lemma {:induction false} RoundsSnoc(n: nat, ops: seq<Op>)
    ensures Rounds(n + 1, ops) == Rounds(n, ops) + ops
  {
    if n == 0 {
      assert Rounds(1, ops) == ops + [] == [] + ops;
    } else {
      RoundsSnoc(n - 1, ops);
      assert ops + (Rounds(n - 1, ops) + ops) == (ops + Rounds(n - 1, ops)) + ops;
    }
  }

  function Joints(ops: seq<Op>): (n: nat)
    ensures n <= |ops|
  {
    if ops == [] then 0 else (if ops[0] == Joint then 1 else 0) + Joints(ops[1..])
  }

  lemma {:induction false} JointsConcat(a: seq<Op>, b: seq<Op>)
    ensures Joints(a + b) == Joints(a) + Joints(b)
    decreases |a|
  {
    if a == [] {
      assert a + b == b;
    } else {
      assert (a + b)[1..] == a[1..] + b;
      JointsConcat(a[1..], b);
    }
  }

  /** The two parties meet in every joint call, and one reads exactly where the other sends. */
  predicate Matched(p: seq<Op>, q: seq<Op>) {
    |p| == |q| && forall i :: 0 <= i < |p| ==> Meets(p[i], q[i])
  }

  predicate Meets(p: Op, q: Op) {
    match p
    case Joint => q == Joint
    case Put => q == Get
    case Get => q == Put
  }

  lemma {:induction false} MatchedRounds(n: nat, p: seq<Op>, q: seq<Op>)
    requires Matched(p, q)
    ensures Matched(Rounds(n, p), Rounds(n, q))
  {
    if n > 0 {
      MatchedRounds(n - 1, p, q);
    }
  }

  lemma ConsTwo(a: Op, b: Op, ops: seq<Op>)
    ensures [a, b] + ops == [a] + ([b] + ops)
  {}

  /** Taking the operations at the front off one by one. */
  lemma DropTwo(a: Op, b: Op, more: seq<Op>, ops: seq<Op>)
    requires ops == [a, b] + more
    ensures |ops| == |more| + 2 && ops[0] == a && ops[1..][0] == b && ops[1..][1..] == more
  {}

  lemma DropThree(a: Op, b: Op, c: Op, more: seq<Op>, ops: seq<Op>)
    requires ops == [a, b, c] + more
    ensures |ops| == |more| + 3 && ops[0] == a && ops[1..][0] == b && ops[1..][1..][0] == c
            && ops[1..][1..][1..] == more
  {
    DropTwo(a, b, [c] + more, ops);
    assert ([c] + more)[1..] == more;
  }

  lemma SplitStart(n: nat, round: seq<Op>, last: seq<Op>)
    ensures [Joint, Joint] + Rounds(n, round) + last == [Joint, Joint] + (Rounds(n, round) + last)
  {}

  /** Rounds start as one does. */
  lemma FirstOfRound(n: nat, round: seq<Op>, last: seq<Op>)
    requires n > 0 && |round| >= 2
    ensures |Rounds(n, round) + last| >= 2
    ensures (Rounds(n, round) + last)[0] == round[0] && (Rounds(n, round) + last)[1] == round[1]
  {
    assert Rounds(n, round) == round + Rounds(n - 1, round);
  }
}
