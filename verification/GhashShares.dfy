/** A GHASH chain on XOR-shared H and blocks, run through the two parties under a mask. */
module GhashShares {
  import opened Bits
  import opened Bytes
  import opened Network
  import opened JointRun
  import opened MaskedRun
  import opened Ghash
  import opened GhashCircuit
  import Circuit

  function Join(bs: seq<Block>): (r: seq<bool>)
    ensures |r| == 128 * |bs|
  {
    if bs == [] then [] else bs[0] + Join(bs[1..])
  }

  lemma {:induction false} JoinBlock(bs: seq<Block>, i: nat)
    requires i < |bs|
    ensures BlockAt(Join(bs), i) == bs[i]
    decreases |bs|
  {
    if i > 0 {
      JoinBlock(bs[1..], i - 1);
      Ext(BlockAt(Join(bs), i), BlockAt(Join(bs[1..]), i - 1));
    }
  }

  lemma {:induction false} JoinXor(a: seq<Block>, b: seq<Block>)
    requires |a| == |b|
    ensures Xor(Join(a), Join(b)) == Join(XorLists(a, b))
    decreases |a|
  {
    if a != [] {
      JoinXor(a[1..], b[1..]);
      assert XorLists(a, b)[1..] == XorLists(a[1..], b[1..]);
      Ext(Xor(Join(a), Join(b)), Xor(a[0], b[0]) + Xor(Join(a[1..]), Join(b[1..])));
    }
  }

  lemma BlocksOfJoin(bs: seq<Block>)
    ensures Blocks(Join(bs), |bs|) == bs
  {
    forall i | 0 <= i < |bs|
      ensures Blocks(Join(bs), |bs|)[i] == bs[i]
    {
      JoinBlock(bs, i);
    }
  }

  lemma ChainOfJoined(bs: seq<Block>)
    requires bs != []
    ensures ChainOf(Join(bs), |bs| - 1) == GhashOf(bs[0], bs[1..])
  {
    BlocksOfJoin(bs);
    JoinBlock(bs, 0);
  }

  /** On shares of H and of the blocks, the circuit's clear output is GHASH of their sums. */
  lemma ChainOutput(gates: seq<Circuit.Gate>, acc: Wires, hn: Block, hc: Block, bn: seq<Block>, bc: seq<Block>)
    requires |bn| == |bc| && IsChain(gates, |bn|, acc)
    ensures ValidCircuit(BinaryCircuit(gates, acc), |Join([hn] + bn)|)
    ensures Output(BinaryCircuit(gates, acc), Xor(Join([hn] + bn), Join([hc] + bc)))
         == GhashOf(Xor(hn, hc), XorLists(bn, bc))
  {
    hide IsChain, ChainOf, GhashOf, Output, ValidCircuit, Join;
    var h, bs := Xor(hn, hc), XorLists(bn, bc);
    var x := Join([h] + bs);
    JoinXor([hn] + bn, [hc] + bc);
    assert XorLists([hn] + bn, [hc] + bc) == [h] + bs;
    assert ([h] + bs)[1..] == bs;
    ChainOfJoined([h] + bs);
    OutputIsChain(gates, acc, |bn|, x);
  }

  lemma OutputIsChain(gates: seq<Circuit.Gate>, acc: Wires, n: nat, x: seq<bool>)
    requires IsChain(gates, n, acc) && |x| == 128 * (n + 1)
    ensures ValidCircuit(BinaryCircuit(gates, acc), |x|)
    ensures Output(BinaryCircuit(gates, acc), x) == ChainOf(x, n)
  {
    assert Circuit.WireValues(gates, x, acc) == ChainOf(x, n);
    Ext(Output(BinaryCircuit(gates, acc), x), Circuit.WireValues(gates, x, acc));
  }

  /** One wrapped session: for every split of H and of the blocks, in every interleaving,
      the two parties end with XOR shares of GHASH. */
  lemma ChainRunShares(gates: seq<Circuit.Gate>, acc: Wires,
                       hn: Block, hc: Block, bn: seq<Block>, bc: seq<Block>, mask: seq<Byte>,
                       c: BinaryCircuit, gin: seq<nat>, ein: seq<nat>,
                       u: Setup, soFar: seq<Move>)
    returns (rest: seq<Move>)
    requires |bn| == |bc| && IsChain(gates, |bn|, acc) && |mask| == 16
    requires Masking(BinaryCircuit(gates, acc), Join([hn] + bn), mask, Join([hc] + bc), c, gin, ein)
    requires HonestSetup(u, c.gates, |gin| + |ein|)
    requires Schedule(Start(u, c.gates, c.outs, gin, ein), soFar)
    ensures
      var now := Run(Start(u, c.gates, c.outs, gin, ein), soFar);
      && !Aborted(now)
      && Schedule(now, rest)
      && SharesOf(mask, Run(now, rest), GhashOf(Xor(hn, hc), XorLists(bn, bc)))
      && (Quiescent(now) ==> rest == [])
  {
    ChainOutput(gates, acc, hn, hc, bn, bc);
    rest := MaskedRunShares(BinaryCircuit(gates, acc), Join([hn] + bn), mask, Join([hc] + bc), c, gin, ein,
                            u, soFar);
  }
}
