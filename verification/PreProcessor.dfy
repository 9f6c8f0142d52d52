/** The abstract run that hands out shares and records every AND gate's operands. */
module PreProcessing {
  import opened Circuit
  import opened Network
  import opened Shares
  import opened Parties

  class WirePreProcessor {
    var authShares: seq<AuthShare>
    var authSharesIndex: nat
    var andGateLeftInputs: seq<AuthShare>
    var andGateRightInputs: seq<AuthShare>
    var delta: Label

    function State(): PreState
      reads this
    {
      PreState(authShares, authSharesIndex, andGateLeftInputs, andGateRightInputs, delta)
    }

    constructor (shares: seq<AuthShare>, delta: Label)
      ensures State() == PreState(shares, 0, [], [], delta)
    {
      authShares, authSharesIndex, this.delta := shares, 0, delta;
      andGateLeftInputs, andGateRightInputs := [], [];
    }

    method NextAuthShare() returns (share: AuthShare)
      requires authSharesIndex < |authShares|
      modifies this`authSharesIndex
      ensures share == authShares[old(authSharesIndex)]
      ensures authSharesIndex == old(authSharesIndex) + 1
    {
      share := authShares[authSharesIndex];
      authSharesIndex := authSharesIndex + 1;
    }

    /** Inputs take the next shares in order. */
    method ReceiveMany(n: nat) returns (ws: seq<AuthShare>)
      requires authSharesIndex + n <= |authShares|
      modifies this`authSharesIndex
      ensures ws == authShares[old(authSharesIndex)..old(authSharesIndex) + n]
      ensures authSharesIndex == old(authSharesIndex) + n
    {
      ws := [];
      while |ws| < n
        invariant |ws| <= n && authSharesIndex == old(authSharesIndex) + |ws|
        invariant ws == authShares[old(authSharesIndex)..old(authSharesIndex) + |ws|]
      {
        var s := NextAuthShare();
        ws := ws + [s];
      }
    }

    method And(x: AuthShare, y: AuthShare) returns (w: AuthShare)
      requires authSharesIndex < |authShares|
      modifies this
      ensures State() == PreAnd(old(State()), x, y)
      ensures w == old(authShares)[old(authSharesIndex)]
    {
      andGateLeftInputs := andGateLeftInputs + [x];
      andGateRightInputs := andGateRightInputs + [y];
      w := NextAuthShare();
    }

    /** Runs the gates on input shares; `zero` is the share of the constant 0. */
    method Execute(gates: seq<Gate>, inputs: seq<AuthShare>, zero: AuthShare)
      requires WellFormed(gates, |inputs|)
      requires authSharesIndex + Ands(gates) <= |authShares|
      modifies this
      ensures State() == PreExec(gates, old(State()), inputs, zero)
    {
      var ws, i := inputs, 0;
      while i < |gates|
        invariant 0 <= i <= |gates| && WellFormed(gates[i..], |ws|)
        invariant authSharesIndex + Ands(gates[i..]) <= |authShares|
        invariant PreExec(gates[i..], State(), ws, zero) == PreExec(gates, old(State()), inputs, zero)
      {
        var rest := gates[i..];
        assert rest[0] == gates[i] && rest[1..] == gates[i + 1..];
        WellFormedTail(rest, |ws|);
        var w;
        match gates[i] {
          case XorGate(a, b) => w := XorShare(ws[a], ws[b]);
          case InvGate(a) => w := ws[a];
          case AndGate(a, b) => w := And(ws[a], ws[b]);
          case ConstGate(_) => w := zero;
        }
        ws, i := ws + [w], i + 1;
      }
    }
  }

  /** How many random triples are asked for: at least 320 as soon as there is any AND. */
  function TripleBudget(nands: nat): (n: nat)
    ensures nands <= n && (nands == 0 <==> n == 0) && (n == 0 || n >= 320)
  {
    if 0 < nands && nands < 320 then 320 else nands
  }

  /** Preprocesses a circuit on one side: draws its share budget in order and returns
      the recorded operands, for which the known triples are then made. */
  method PreprocessCircuit(gates: seq<Gate>, inputs: nat, shares: seq<AuthShare>, delta: Label, zero: AuthShare)
    returns (left: seq<AuthShare>, right: seq<AuthShare>, used: nat)
    requires WellFormed(gates, inputs)
    requires |shares| == Ands(gates) + inputs + Consts(gates)
    ensures var final := PreRun(gates, inputs, shares, delta, zero);
            left == final.left && right == final.right && used == final.shareIndex
    ensures |left| == |right| == Ands(gates) && used == inputs + Ands(gates) == |shares| - Consts(gates)
  {
    var pre := new WirePreProcessor(shares, delta);
    var ws := pre.ReceiveMany(inputs);
    pre.Execute(gates, ws, zero);
    left, right, used := pre.andGateLeftInputs, pre.andGateRightInputs, pre.authSharesIndex;
  }
}
