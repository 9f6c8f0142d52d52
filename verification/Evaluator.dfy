/** The evaluator as it runs: an object with cursors into its shares and triples that
    reads from and writes to its channel. */
module EvaluatorParty {
  import opened Bits
  import opened Circuit
  import opened Network
  import opened Shares
  import opened Parties
  import opened Tape

  class Evaluator {
    const lib: Library
    var delta: Label
    var one: Label
    var andWireIndex: nat
    var authShares: seq<AuthShare>
    var authSharesIndex: nat
    var andAuthShares: seq<AuthShare>
    var andAuthSharesIndex: nat

    function State(): EvState
      reads this
    {
      EvState(delta, one, andWireIndex, authShares, authSharesIndex, andAuthShares, andAuthSharesIndex)
    }

    /** The evaluator after it read the label for one. */
    constructor (lib: Library, delta: Label, one: Label, shares: seq<AuthShare>, triples: seq<AuthShare>)
      ensures this.lib == lib
      ensures State() == EvState(delta, one, 0, shares, 0, triples, 0)
    {
      this.lib, this.delta, this.one := lib, delta, one;
      andWireIndex, authShares, authSharesIndex := 0, shares, 0;
      andAuthShares, andAuthSharesIndex := triples, 0;
    }

    method NextAuthShare() returns (r: Result<AuthShare>)
      modifies this`authSharesIndex
      ensures r.Ok? == (old(authSharesIndex) < |authShares|)
      ensures r.Ok? ==> r.value == authShares[old(authSharesIndex)] && authSharesIndex == old(authSharesIndex) + 1
      ensures r.Err? ==> authSharesIndex == old(authSharesIndex)
    {
      if authSharesIndex >= |authShares| {
        return Err;
      }
      r := Ok(authShares[authSharesIndex]);
      authSharesIndex := authSharesIndex + 1;
    }

    method NextAndAuthShare() returns (r: Result<AuthShare>)
      modifies this`andAuthSharesIndex
      ensures r.Ok? == (old(andAuthSharesIndex) < |andAuthShares|)
      ensures r.Ok? ==> r.value == andAuthShares[old(andAuthSharesIndex)]
                        && andAuthSharesIndex == old(andAuthSharesIndex) + 1
      ensures r.Err? ==> andAuthSharesIndex == old(andAuthSharesIndex)
    {
      if andAuthSharesIndex >= |andAuthShares| {
        return Err;
      }
      r := Ok(andAuthShares[andAuthSharesIndex]);
      andAuthSharesIndex := andAuthSharesIndex + 1;
    }

    method TakeShares(n: nat) returns (r: Result<seq<AuthShare>>)
      modifies this`authSharesIndex
      ensures r.Ok? == (old(authSharesIndex) + n <= |authShares|)
      ensures r.Ok? ==> r.value == authShares[old(authSharesIndex)..old(authSharesIndex) + n]
      ensures r.Ok? ==> authSharesIndex == old(authSharesIndex) + n
    {
      var shares: seq<AuthShare> := [];
      while |shares| < n
        invariant |shares| <= n
        invariant authSharesIndex == old(authSharesIndex) + |shares|
        invariant shares != [] ==> authSharesIndex <= |authShares|
        invariant old(authSharesIndex) + |shares| <= |authShares| ==>
                    shares == authShares[old(authSharesIndex)..old(authSharesIndex) + |shares|]
      {
        var s := NextAuthShare();
        if s.Err? {
          return Err;
        }
        shares := shares + [s.value];
      }
      if authSharesIndex > |authShares| {
        return Err;
      }
      r := Ok(shares);
    }

    method XorWires(x: Wire, y: Wire) returns (w: Wire)
      ensures w == EvXor(x, y)
    {
      w := Wire(x.value != y.value, Xor(x.lab, y.lab), XorShare(x.share, y.share));
    }

    method NegateWire(x: Wire) returns (w: Wire)
      ensures w == EvNegate(State(), x)
    {
      w := Wire(!x.value, Xor(x.lab, one), x.share);
    }

    /** Advances all three cursors for one AND gate. */
    method StartGate() returns (r: Result<(AuthShare, AuthShare)>)
      modifies this
      ensures r.Ok? == (old(authSharesIndex) < |old(authShares)| && old(andAuthSharesIndex) < |old(andAuthShares)|)
      ensures r.Ok? ==> r.value == (old(authShares)[old(authSharesIndex)], old(andAuthShares)[old(andAuthSharesIndex)])
      ensures r.Ok? ==> State() == EvAfterAnd(old(State()))
    {
      andWireIndex := andWireIndex + 1;
      var share := NextAuthShare();
      if share.Err? {
        return Err;
      }
      var triple := NextAndAuthShare();
      if triple.Err? {
        return Err;
      }
      r := Ok((share.value, triple.value));
    }

    /** The label of the gate's output for the active input labels. */
    method EvaluateGate(index: nat, la: Wire, lb: Wire, lcShare: AuthShare, lcTriple: AuthShare, gateC0: Label,
                        gateC1: Label)
      returns (lcLabel: Label)
      ensures lcLabel == EvaluatedLabel(lib, index, la, lb, lcShare, lcTriple, gateC0, gateC1)
    {
      var gate0 := Xor(gateC0, lb.share.mac);
      var gate1 := Xor(gateC1, la.share.mac);
      var hLa, hLb := lib.hash(la.lab, index), lib.hash(lb.lab, index);
      var gate0Muxed := Times(la.value, gate0);
      var gate1Muxed := Times(lb.value, Xor(gate1, la.lab));
      lcLabel := Xor(Xor(Xor(Xor(Xor(hLa, hLb), lcShare.mac), lcTriple.mac), gate0Muxed), gate1Muxed);
    }

    /** Two rows and the permute bit, or an error. */
    method ReadGate(ch: Channel) returns (r: Result<(Label, Label, bool)>)
      modifies ch
      ensures ch.sent == old(ch.sent)
      ensures r.Ok? == GateOn(old(ch.tape))
      ensures r.Ok? ==> r.value == (old(ch.tape)[0].lab, old(ch.tape)[1].lab, old(ch.tape)[2].b)
                        && ch.tape == old(ch.tape)[3..]
    {
      var ms := ch.ReadAll(3);
      if ms.Err? || !ms.value[0].LabelMsg? || !ms.value[1].LabelMsg? || !ms.value[2].BitMsg? {
        return Err;
      }
      r := Ok((ms.value[0].lab, ms.value[1].lab, ms.value[2].b));
    }

    method And(la: Wire, lb: Wire, ch: Channel) returns (r: Result<(EvState, Wire)>)
      modifies this, ch
      ensures Behaves(EvAnd(lib, old(State()), la, lb, Both<EvState, Wire>),
                      old(ch.tape), old(ch.sent), ch.tape, ch.sent, r)
      ensures r.Ok? ==> r.value.0 == State()
    {
      ghost var before := State();
      var index := andWireIndex;
      var taken := StartGate();
      if taken.Err? {
        return Err;
      }
      r := ReadAndValidate(index, la, lb, taken.value.0, taken.value.1, ch);
      AndReads(lib, before, la, lb, Both<EvState, Wire>);
    }

    method ReadAndValidate(index: nat, la: Wire, lb: Wire, lcShare: AuthShare, lcTriple: AuthShare, ch: Channel)
      returns (r: Result<(EvState, Wire)>)
      modifies ch
      ensures
        var st, k := State(), Both<EvState, Wire>;
        Behaves(RecvGate((row0: Label, row1: Label, permute: bool) =>
                  EvAndReply(lib, st, la, lb, lcShare, lcTriple,
                             EvaluatedLabel(lib, index, la, lb, lcShare, lcTriple, row0, row1), permute, k)),
                old(ch.tape), old(ch.sent), ch.tape, ch.sent, r)
      ensures r.Ok? ==> r.value.0 == State()
    {
      ghost var st, k := State(), Both<EvState, Wire>;
      ghost var k1 := (row0: Label, row1: Label, permute: bool) =>
        EvAndReply(lib, st, la, lb, lcShare, lcTriple,
                   EvaluatedLabel(lib, index, la, lb, lcShare, lcTriple, row0, row1), permute, k);
      FeedRecvGate(k1, ch.tape);
      var gate := ReadGate(ch);
      if gate.Err? {
        return Err;
      }
      var lcLabel := EvaluateGate(index, la, lb, lcShare, lcTriple, gate.value.0, gate.value.1);
      r := Validate(la, lb, lcShare, lcTriple, lcLabel, gate.value.2, ch);
    }

    /** The evaluator's half of the validation and the resulting wire. */
    method Validate(la: Wire, lb: Wire, lcShare: AuthShare, lcTriple: AuthShare, lcLabel: Label, bitC: bool,
                    ch: Channel)
      returns (r: Result<(EvState, Wire)>)
      modifies ch
      ensures Behaves(EvAndReply(lib, State(), la, lb, lcShare, lcTriple, lcLabel, bitC, Both<EvState, Wire>),
                      old(ch.tape), old(ch.sent), ch.tape, ch.sent, r)
      ensures r.Ok? ==> r.value.0 == State()
    {
      ghost var p := EvAndReply(lib, State(), la, lb, lcShare, lcTriple, lcLabel, bitC, Both<EvState, Wire>);
      ghost var tape, sent := ch.tape, ch.sent;
      var value := Lsb(lcLabel) != bitC;
      ch.Write(BitMsg(value));
      var masks := lib.evaluatorConst((la.value && lb.value) != value, delta);
      var v := XorShare(XorShare(XorShare(XorShare(masks, MulConst(la.share, lb.value)), MulConst(lb.share, la.value)),
                                 lcTriple), lcShare);
      ch.Write(Opening(v));
      var o := ch.Read();
      if o.Ok? && Authentic(v, o.value, delta) && v.bit == o.value.bit {
        r := Ok((State(), Wire(value, lcLabel, lcShare)));
      } else {
        r := Err;
      }
      assert p.Send? && p.m == BitMsg(value) && p.next.Send? && p.next.m == Opening(v) && p.next.next.Recv?;
      ReadOne(p.next.next.k, tape, sent + [BitMsg(value)] + [Opening(v)], ch.tape, ch.sent, r);
      SentOne(Opening(v), p.next.next, tape, sent + [BitMsg(value)], ch.tape, ch.sent, r);
      SentOne(BitMsg(value), p.next, tape, sent, ch.tape, ch.sent, r);
    }

    method Constant(value: bool, ch: Channel) returns (r: Result<(EvState, Wire)>)
      modifies ch
      ensures Behaves(EvConstant(lib, State(), value, Both<EvState, Wire>),
                      old(ch.tape), old(ch.sent), ch.tape, ch.sent, r)
      ensures r.Ok? ==> r.value.0 == State()
    {
      ghost var p := EvConstant(lib, State(), value, Both<EvState, Wire>);
      var m := ch.Read();
      if m.Err? {
        return Err;
      }
      assert Feed(p, old(ch.tape)) == Feed(p.k(m.value), old(ch.tape)[1..]);
      if !m.value.LabelMsg? {
        return Err;
      }
      r := Ok((State(), Wire(value, m.value.lab, lib.evaluatorConst(false, delta))));
    }

    /** Reads one label per masked value. */
    method ReceiveWirelabels(values: seq<bool>, shares: seq<AuthShare>, ch: Channel)
      returns (r: Result<(EvState, seq<Wire>)>)
      requires |values| == |shares|
      modifies ch
      ensures Behaves(EvReceiveLabels(State(), values, shares, Both<EvState, seq<Wire>>),
                      old(ch.tape), old(ch.sent), ch.tape, ch.sent, r)
      ensures r.Ok? ==> r.value.0 == State()
    {
      ghost var n, st, tape, sent := |values|, State(), ch.tape, ch.sent;
      ghost var k := (ms: seq<Msg>) => EvLabelsRead(st, values, shares, ms, Both<EvState, seq<Wire>>);
      var ms := ch.ReadAll(|values|);
      if ms.Err? {
        Starved(n, k, tape, sent, ch.tape);
        return Err;
      }
      r := MakeWires(values, shares, ms.value);
      ReadThen(n, k, tape, sent, ch.tape, ch.sent, r);
    }

    /** The wires of the labels read; a message that is not a label is an error. */
    method MakeWires(values: seq<bool>, shares: seq<AuthShare>, ms: seq<Msg>) returns (r: Result<(EvState, seq<Wire>)>)
      requires |values| == |shares| == |ms|
      ensures r.Ok? == AllLabels(ms)
      ensures r.Ok? ==> r.value == (State(), EvWires(values, ms, shares))
    {
      if !AllLabels(ms) {
        return Err;
      }
      var ws: seq<Wire> := [];
      while |ws| < |values|
        invariant |ws| <= |values|
        invariant ws == EvWires(values, ms, shares)[..|ws|]
      {
        ws := ws + [Wire(values[|ws|], ms[|ws|].lab, shares[|ws|])];
      }
      assert ws == EvWires(values, ms, shares);
      r := Ok((State(), ws));
    }

    /** Unmasks with the opened shares and adds the input bits; a value other than 0 or 1 is an error. */
    method MaskValues(values: seq<nat>, mine: seq<AuthShare>, theirs: seq<Msg>) returns (r: Result<seq<bool>>)
      requires |values| == |mine| == |theirs|
      requires forall i :: 0 <= i < |theirs| ==> theirs[i].OpenMsg?
      ensures r.Ok? == Boolean(values)
      ensures r.Ok? ==> r.value == MaskInputs(values, mine, theirs)
    {
      var masked: seq<bool> := [];
      while |masked| < |values|
        invariant |masked| <= |values|
        invariant forall i :: 0 <= i < |masked| ==> values[i] < 2
        invariant masked == MaskInputs(values, mine, theirs)[..|masked|]
      {
        var i := |masked|;
        if values[i] >= 2 {
          return Err;
        }
        masked := masked + [((values[i] == 1) != mine[i].bit) != theirs[i].bit];
      }
      r := Ok(masked);
    }

    method EncodeMany(values: seq<nat>, ch: Channel) returns (r: Result<(EvState, seq<Wire>)>)
      modifies this, ch
      ensures Behaves(EvEncodeMany(old(State()), values, Both<EvState, seq<Wire>>),
                      old(ch.tape), old(ch.sent), ch.tape, ch.sent, r)
      ensures r.Ok? ==> r.value.0 == State()
    {
      ghost var n, before, tape, sent := |values|, State(), ch.tape, ch.sent;
      var mine := TakeShares(|values|);
      if mine.Err? {
        return Err;
      }
      ghost var k := (theirs: seq<Msg>) => EvEncodeOpened(EvTake(before, n), values, mine.value, theirs,
                                                          Both<EvState, seq<Wire>>);
      var theirs := ch.ReadAll(|values|);
      if theirs.Err? {
        Starved(n, k, tape, sent, ch.tape);
        return Err;
      }
      r := EncodeOpened(values, mine.value, theirs.value, ch);
      ReadThen(n, k, tape, sent, ch.tape, ch.sent, r);
    }

    method EncodeOpened(values: seq<nat>, mine: seq<AuthShare>, theirs: seq<Msg>, ch: Channel)
      returns (r: Result<(EvState, seq<Wire>)>)
      requires |values| == |mine| == |theirs|
      modifies ch
      ensures Behaves(EvEncodeOpened(State(), values, mine, theirs, Both<EvState, seq<Wire>>),
                      old(ch.tape), old(ch.sent), ch.tape, ch.sent, r)
      ensures r.Ok? ==> r.value.0 == State()
    {
      ghost var tape, sent := ch.tape, ch.sent;
      if !AllAuthentic(mine, theirs, delta) {
        return Err;
      }
      var masked := MaskValues(values, mine, theirs);
      if masked.Err? {
        return Err;
      }
      ch.WriteAll(BitMsgs(masked.value));
      r := ReceiveWirelabels(masked.value, mine, ch);
      SentThen(BitMsgs(masked.value), EvReceiveLabels(State(), masked.value, mine, Both<EvState, seq<Wire>>), tape,
               sent, ch.tape, ch.sent, r);
    }

    method ReceiveMany(n: nat, ch: Channel) returns (r: Result<(EvState, seq<Wire>)>)
      modifies this, ch
      ensures Behaves(EvReceiveMany(old(State()), n, Both<EvState, seq<Wire>>),
                      old(ch.tape), old(ch.sent), ch.tape, ch.sent, r)
      ensures r.Ok? ==> r.value.0 == State()
    {
      ghost var before, tape, sent := State(), ch.tape, ch.sent;
      var mine := TakeShares(n);
      if mine.Err? {
        return Err;
      }
      ghost var k := (ms: seq<Msg>) => EvReceiveMasked(EvTake(before, n), mine.value, ms, Both<EvState, seq<Wire>>);
      ch.WriteAll(Openings(mine.value));
      ghost var shown := ch.sent;
      var ms := ch.ReadAll(n);
      if ms.Err? {
        r := Err;
        Starved(n, k, tape, shown, ch.tape);
      } else {
        r := ReceiveMasked(mine.value, ms.value, ch);
        ReadThen(n, k, tape, shown, ch.tape, ch.sent, r);
      }
      SentThen(Openings(mine.value), RecvAll(n, [], k), tape, sent, ch.tape, ch.sent, r);
    }

    method ReceiveMasked(mine: seq<AuthShare>, ms: seq<Msg>, ch: Channel) returns (r: Result<(EvState, seq<Wire>)>)
      modifies ch
      ensures Behaves(EvReceiveMasked(State(), mine, ms, Both<EvState, seq<Wire>>),
                      old(ch.tape), old(ch.sent), ch.tape, ch.sent, r)
      ensures r.Ok? ==> r.value.0 == State()
    {
      if !AllBits(ms) || |ms| != |mine| {
        return Err;
      }
      r := ReceiveWirelabels(BitsOf(ms), mine, ch);
    }

    /** Unmasks the outputs with the garbler's shown shares. */
    method Outputs(ws: seq<Wire>, ch: Channel) returns (r: Result<seq<bool>>)
      modifies ch
      ensures Behaves(EvOutputs(State(), ws, Return<seq<bool>>),
                      old(ch.tape), old(ch.sent), ch.tape, ch.sent, r)
    {
      ghost var st, k := State(), Return<seq<bool>>;
      ghost var k1 := (theirs: seq<Msg>) => EvOutputsOpened(st, ws, theirs, k);
      FeedRecvAll(|ws|, [], k1, ch.tape);
      var theirs := ch.ReadAll(|ws|);
      if theirs.Err? {
        return Err;
      }
      assert [] + theirs.value == theirs.value;
      if !AllAuthentic(ShareList(ws), theirs.value, delta) {
        return Err;
      }
      var bits := UnmaskAll(ws, theirs.value);
      r := Ok(bits);
    }

    method UnmaskAll(ws: seq<Wire>, theirs: seq<Msg>) returns (bits: seq<bool>)
      requires |ws| == |theirs|
      requires forall i :: 0 <= i < |theirs| ==> theirs[i].OpenMsg?
      ensures bits == Unmask(ws, theirs)
    {
      bits := [];
      while |bits| < |ws|
        invariant |bits| <= |ws|
        invariant bits == Unmask(ws, theirs)[..|bits|]
      {
        var i := |bits|;
        bits := bits + [(theirs[i].bit != ws[i].value) != ws[i].share.bit];
      }
    }

    /** One gate, on the wires so far. */
    method DoGate(g: Gate, ws: seq<Wire>, ch: Channel) returns (r: Result<(EvState, Wire)>)
      requires ReadsBelow(g, |ws|)
      modifies this, ch
      ensures Behaves(EvGate(lib, g, old(State()), ws, Both<EvState, Wire>), old(ch.tape), old(ch.sent), ch.tape,
                      ch.sent, r)
      ensures r.Ok? ==> r.value.0 == State()
    {
      match g {
      case XorGate(a, b) =>
        var w := XorWires(ws[a], ws[b]);
        r := Ok((State(), w));
      case InvGate(a) =>
        var w := NegateWire(ws[a]);
        r := Ok((State(), w));
      case AndGate(a, b) =>
        r := And(ws[a], ws[b], ch);
      case ConstGate(v) =>
        r := Constant(v, ch);
      }
    }

    /** The gates in order, each on the wires before it. */
    method Exec(gates: seq<Gate>, inputs: seq<Wire>, ch: Channel) returns (r: Result<(EvState, seq<Wire>)>)
      modifies this, ch
      ensures Behaves(EvExec(lib, gates, old(State()), inputs, Both<EvState, seq<Wire>>),
                      old(ch.tape), old(ch.sent), ch.tape, ch.sent, r)
      ensures r.Ok? ==> r.value.0 == State()
    {
      ghost var whole := EvExec(lib, gates, State(), inputs, Both<EvState, seq<Wire>>);
      ghost var tape, sent := ch.tape, ch.sent;
      var ws, i := inputs, 0;
      assert gates[0..] == gates;
      while i < |gates|
        invariant i <= |gates|
        invariant Resumes(whole, tape, sent, EvExec(lib, gates[i..], State(), ws, Both<EvState, seq<Wire>>), ch.tape,
                          ch.sent)
      {
        ghost var st1, tape1, sent1 := State(), ch.tape, ch.sent;
        ghost var left := EvExec(lib, gates[i..], st1, ws, Both<EvState, seq<Wire>>);
        if !ReadsBelow(gates[i], |ws|) {
          BehavesWhole(whole, tape, sent, left, tape1, sent1, ch.tape, ch.sent, Err);
          return Err;
        }
        var next := DoGate(gates[i], ws, ch);
        assert gates[i..][1..] == gates[i + 1..];
        EvExecStep(lib, gates[i..], st1, ws, tape1, sent1, ch.tape, ch.sent, next);
        if next.Err? {
          BehavesWhole(whole, tape, sent, left, tape1, sent1, ch.tape, ch.sent, Err);
          return Err;
        }
        ws := ws + [next.value.1];
        i := i + 1;
        ResumesTrans(whole, tape, sent, left, tape1, sent1,
                     EvExec(lib, gates[i..], State(), ws, Both<EvState, seq<Wire>>), ch.tape, ch.sent);
      }
      r := Ok((State(), ws));
      BehavesWhole(whole, tape, sent, EvExec(lib, gates[i..], State(), ws, Both<EvState, seq<Wire>>), ch.tape, ch.sent,
                   ch.tape, ch.sent, r);
    }

    /** The whole computation on this party's inputs, after the label for one came in. */
    method Run(theirs: nat, values: seq<nat>, gates: seq<Gate>, outs: seq<nat>, ch: Channel)
      returns (r: Result<(EvState, seq<bool>)>)
      modifies this, ch
      ensures Behaves(EvAfterOne(lib, old(State()), theirs, values, gates, outs, Both<EvState, seq<bool>>),
                      old(ch.tape), old(ch.sent), ch.tape, ch.sent, r)
      ensures r.Ok? ==> r.value.0 == State()
    {
      ghost var st0, tape0, sent0 := State(), ch.tape, ch.sent;
      ghost var whole := EvAfterOne(lib, st0, theirs, values, gates, outs, Both<EvState, seq<bool>>);
      ghost var k0 := (s: EvState, inputs: seq<Wire>) => EvCompute(lib, s, inputs, gates, outs,
                                                                   Both<EvState, seq<bool>>);
      ghost var k1 := (s: EvState, ws: seq<Wire>) => EvMyInputs(s, ws, values, k0);
      EvReceiveManyFollows(st0, theirs, k1);
      var others := ReceiveMany(theirs, ch);
      if others.Err? {
        ThenFails(EvReceiveMany(st0, theirs, Both<EvState, seq<Wire>>), whole, Uncurried(k1), tape0, sent0, ch.tape,
                  ch.sent);
        return Err;
      }
      ThenResumes(EvReceiveMany(st0, theirs, Both<EvState, seq<Wire>>), whole, Uncurried(k1), tape0, sent0, ch.tape,
                  ch.sent, others.value);
      ghost var st1, tape1, sent1 := State(), ch.tape, ch.sent;
      r := RunGates(others.value.1, values, gates, outs, ch);
      BehavesWhole(whole, tape0, sent0, EvMyInputs(st1, others.value.1, values, k0), tape1, sent1, ch.tape, ch.sent, r);
    }

    /** From this party's own inputs on. */
    method RunGates(theirs: seq<Wire>, values: seq<nat>, gates: seq<Gate>, outs: seq<nat>, ch: Channel)
      returns (r: Result<(EvState, seq<bool>)>)
      modifies this, ch
      ensures Behaves(EvMyInputs(old(State()), theirs, values, (s: EvState, inputs: seq<Wire>) =>
                        EvCompute(lib, s, inputs, gates, outs, Both<EvState, seq<bool>>)),
                      old(ch.tape), old(ch.sent), ch.tape, ch.sent, r)
      ensures r.Ok? ==> r.value.0 == State()
    {
      ghost var st0, tape0, sent0 := State(), ch.tape, ch.sent;
      ghost var k0 := (s: EvState, inputs: seq<Wire>) => EvCompute(lib, s, inputs, gates, outs,
                                                                   Both<EvState, seq<bool>>);
      ghost var k1 := (s: EvState, ws: seq<Wire>) => k0(s, theirs + ws);
      EvEncodeManyFollows(st0, values, k1);
      var mine := EncodeMany(values, ch);
      if mine.Err? {
        ThenFails(EvEncodeMany(st0, values, Both<EvState, seq<Wire>>), EvMyInputs(st0, theirs, values, k0),
                  Uncurried(k1), tape0, sent0, ch.tape, ch.sent);
        return Err;
      }
      ThenResumes(EvEncodeMany(st0, values, Both<EvState, seq<Wire>>), EvMyInputs(st0, theirs, values, k0),
                  Uncurried(k1), tape0, sent0, ch.tape, ch.sent, mine.value);
      ghost var st1, tape1, sent1 := State(), ch.tape, ch.sent;
      r := Compute(theirs + mine.value.1, gates, outs, ch);
      BehavesWhole(EvMyInputs(st0, theirs, values, k0), tape0, sent0,
                   EvCompute(lib, st1, theirs + mine.value.1, gates, outs, Both<EvState, seq<bool>>), tape1, sent1,
                   ch.tape, ch.sent, r);
    }

    /** The gates and the outputs. */
    method Compute(inputs: seq<Wire>, gates: seq<Gate>, outs: seq<nat>, ch: Channel)
      returns (r: Result<(EvState, seq<bool>)>)
      modifies this, ch
      ensures Behaves(EvCompute(lib, old(State()), inputs, gates, outs, Both<EvState, seq<bool>>),
                      old(ch.tape), old(ch.sent), ch.tape, ch.sent, r)
      ensures r.Ok? ==> r.value.0 == State()
    {
      ghost var st0, tape0, sent0 := State(), ch.tape, ch.sent;
      ghost var k := (s: EvState, all: seq<Wire>) => EvFinish(s, all, outs, Both<EvState, seq<bool>>);
      EvExecFollows(lib, gates, st0, inputs, k);
      var all := Exec(gates, inputs, ch);
      if all.Err? {
        ThenFails(EvExec(lib, gates, st0, inputs, Both<EvState, seq<Wire>>),
                  EvCompute(lib, st0, inputs, gates, outs, Both<EvState, seq<bool>>), Uncurried(k), tape0, sent0,
                  ch.tape, ch.sent);
        return Err;
      }
      ThenResumes(EvExec(lib, gates, st0, inputs, Both<EvState, seq<Wire>>),
                  EvCompute(lib, st0, inputs, gates, outs, Both<EvState, seq<bool>>), Uncurried(k),
                  tape0, sent0, ch.tape, ch.sent, all.value);
      ghost var tape1, sent1 := ch.tape, ch.sent;
      r := Finish(all.value.1, outs, ch);
      BehavesWhole(EvCompute(lib, st0, inputs, gates, outs, Both<EvState, seq<bool>>), tape0, sent0,
                   EvFinish(State(), all.value.1, outs, Both<EvState, seq<bool>>), tape1, sent1, ch.tape, ch.sent, r);
    }

    method Finish(all: seq<Wire>, outs: seq<nat>, ch: Channel) returns (r: Result<(EvState, seq<bool>)>)
      modifies ch
      ensures Behaves(EvFinish(State(), all, outs, Both<EvState, seq<bool>>), old(ch.tape), old(ch.sent), ch.tape,
                      ch.sent, r)
      ensures r.Ok? ==> r.value.0 == State()
    {
      if !Within(outs, |all|) {
        return Err;
      }
      ghost var st, tape, sent, picked := State(), ch.tape, ch.sent, PickWires(all, outs);
      ghost var k := Given(Both<EvState, seq<bool>>, st);
      EvOutputsFollow(st, picked, k);
      var bits := Outputs(PickWires(all, outs), ch);
      if bits.Err? {
        ThenFails(EvOutputs(st, picked, Return<seq<bool>>), EvOutputs(st, picked, k), k, tape, sent, ch.tape, ch.sent);
        return Err;
      }
      ThenResumes(EvOutputs(st, picked, Return<seq<bool>>), EvOutputs(st, picked, k), k, tape, sent, ch.tape, ch.sent,
                  bits.value);
      r := Ok((State(), bits.value));
    }
  }

  /** An evaluator from the label for one to its outputs; `unset` is that label before it came. */
  method RunEvaluator(lib: Library, delta: Label, ghost unset: Label, shares: seq<AuthShare>, triples: seq<AuthShare>,
                      theirs: nat, values: seq<nat>, gates: seq<Gate>, outs: seq<nat>, ch: Channel)
    returns (r: Result<(EvState, seq<bool>)>)
    modifies ch
    ensures Behaves(EvMain(lib, EvState(delta, unset, 0, shares, 0, triples, 0), theirs, values, gates, outs,
                           Both<EvState, seq<bool>>),
                    old(ch.tape), old(ch.sent), ch.tape, ch.sent, r)
  {
    ghost var p := EvMain(lib, EvState(delta, unset, 0, shares, 0, triples, 0), theirs, values, gates, outs,
                          Both<EvState, seq<bool>>);
    ghost var tape, sent := ch.tape, ch.sent;
    var m := ch.Read();
    if m.Ok? && m.value.LabelMsg? {
      var ev := new Evaluator(lib, delta, m.value.lab, shares, triples);
      r := ev.Run(theirs, values, gates, outs, ch);
    } else {
      r := Err;
    }
    ReadOne(p.k, tape, sent, ch.tape, ch.sent, r);
  }

  /** A whole garbled gate is next on the tape. */
  predicate GateOn(tape: seq<Msg>) {
    |tape| >= 3 && tape[0].LabelMsg? && tape[1].LabelMsg? && tape[2].BitMsg?
  }

  lemma FeedRecvGate<T>(k: (Label, Label, bool) -> Proc<T>, tape: seq<Msg>)
    ensures GateOn(tape) ==> Feed(RecvGate(k), tape) == Feed(k(tape[0].lab, tape[1].lab, tape[2].b), tape[3..])
    ensures !GateOn(tape) ==> Feed(RecvGate(k), tape).out == [] && !Feed(RecvGate(k), tape).proc.Ret?
  {
    var p := RecvGate(k);
    if tape != [] && tape[0].LabelMsg? {
      var p1, t1 := p.k(tape[0]), tape[1..];
      assert Feed(p, tape) == Feed(p1, t1);
      if t1 != [] && t1[0].LabelMsg? {
        var p2, t2 := p1.k(t1[0]), t1[1..];
        assert Feed(p1, t1) == Feed(p2, t2);
        if t2 != [] {
          assert t2[1..] == tape[3..];
          assert Feed(p2, t2) == Feed(p2.k(t2[0]), t2[1..]);
        }
      }
    }
  }

  /** What an AND waits for, once its share and triple are at hand. */
  lemma AndReads<T>(lib: Library, st: EvState, a: Wire, b: Wire, k: (EvState, Wire) -> Proc<T>)
    requires st.shareIndex < |st.shares| && st.tripleIndex < |st.triples|
    ensures
      var share, triple := st.shares[st.shareIndex], st.triples[st.tripleIndex];
      EvAnd(lib, st, a, b, k)
      == RecvGate((row0: Label, row1: Label, permute: bool) =>
           EvAndReply(lib, EvAfterAnd(st), a, b, share, triple,
                      EvaluatedLabel(lib, st.andIndex, a, b, share, triple, row0, row1), permute, k))
  {}

  // ---------------------------------------------------------------- operations with more to follow

  lemma EvReplyFollows<T>(lib: Library, st: EvState, a: Wire, b: Wire, share: AuthShare, triple: AuthShare,
                          lab: Label, permute: bool, k: (EvState, Wire) -> Proc<T>)
    ensures Follows(EvAndReply(lib, st, a, b, share, triple, lab, permute, Both<EvState, Wire>),
                    EvAndReply(lib, st, a, b, share, triple, lab, permute, k), Uncurried(k))
  {
    FollowsFail(Uncurried(k));
    var p := EvAndReply(lib, st, a, b, share, triple, lab, permute, Both<EvState, Wire>);
    var q := EvAndReply(lib, st, a, b, share, triple, lab, permute, k);
    FollowsBoth(st, Wire(Lsb(lab) != permute, lab, share), k);
    FollowsRecv(p.next.next.k, q.next.next.k, Uncurried(k));
    FollowsSend(p.next.m, p.next.next, q.next.next, Uncurried(k));
    FollowsSend(p.m, p.next, q.next, Uncurried(k));
  }

  lemma EvAndFollows<T>(lib: Library, st: EvState, a: Wire, b: Wire, k: (EvState, Wire) -> Proc<T>)
    ensures Follows(EvAnd(lib, st, a, b, Both<EvState, Wire>), EvAnd(lib, st, a, b, k), Uncurried(k))
  {
    FollowsFail(Uncurried(k));
    if st.shareIndex < |st.shares| && st.tripleIndex < |st.triples| {
      var share, triple := st.shares[st.shareIndex], st.triples[st.tripleIndex];
      var p := (row0: Label, row1: Label, permute: bool) =>
        EvAndReply(lib, EvAfterAnd(st), a, b, share, triple,
                   EvaluatedLabel(lib, st.andIndex, a, b, share, triple, row0, row1), permute, Both<EvState, Wire>);
      var q := (row0: Label, row1: Label, permute: bool) =>
        EvAndReply(lib, EvAfterAnd(st), a, b, share, triple,
                   EvaluatedLabel(lib, st.andIndex, a, b, share, triple, row0, row1), permute, k);
      forall row0: Label, row1: Label, permute: bool
        ensures Follows(p(row0, row1, permute), q(row0, row1, permute), Uncurried(k))
      {
        EvReplyFollows(lib, EvAfterAnd(st), a, b, share, triple,
                       EvaluatedLabel(lib, st.andIndex, a, b, share, triple, row0, row1), permute, k);
      }
      FollowsGate(p, q, Uncurried(k));
    }
  }

  lemma FollowsGate<S, T>(p: (Label, Label, bool) -> Proc<S>, q: (Label, Label, bool) -> Proc<T>, k: S -> Proc<T>)
    requires forall row0, row1, permute :: Follows(p(row0, row1, permute), q(row0, row1, permute), k)
    ensures Follows(RecvGate(p), RecvGate(q), k)
  {
    forall tape: seq<Msg> ensures FollowsOn(RecvGate(p), RecvGate(q), k, tape) {
      FeedRecvGate(p, tape);
      FeedRecvGate(q, tape);
      if GateOn(tape) {
        var row0, row1, permute := tape[0].lab, tape[1].lab, tape[2].b;
        assert Follows(p(row0, row1, permute), q(row0, row1, permute), k);
        assert FollowsOn(p(row0, row1, permute), q(row0, row1, permute), k, tape[3..]);
      }
    }
  }

  lemma EvConstantFollows<T>(lib: Library, st: EvState, v: bool, k: (EvState, Wire) -> Proc<T>)
    ensures Follows(EvConstant(lib, st, v, Both<EvState, Wire>), EvConstant(lib, st, v, k), Uncurried(k))
  {
    FollowsFail(Uncurried(k));
    var p, q := EvConstant(lib, st, v, Both<EvState, Wire>), EvConstant(lib, st, v, k);
    forall m ensures Follows(p.k(m), q.k(m), Uncurried(k)) {
      if m.LabelMsg? {
        FollowsBoth(st, Wire(v, m.lab, lib.evaluatorConst(false, st.delta)), k);
      }
    }
    FollowsRecv(p.k, q.k, Uncurried(k));
  }

  lemma EvLabelsFollow<T>(st: EvState, values: seq<bool>, shares: seq<AuthShare>, k: (EvState, seq<Wire>) -> Proc<T>)
    requires |values| == |shares|
    ensures Follows(EvReceiveLabels(st, values, shares, Both<EvState, seq<Wire>>),
                    EvReceiveLabels(st, values, shares, k), Uncurried(k))
  {
    FollowsFail(Uncurried(k));
    var p := (ms: seq<Msg>) => EvLabelsRead(st, values, shares, ms, Both<EvState, seq<Wire>>);
    var q := (ms: seq<Msg>) => EvLabelsRead(st, values, shares, ms, k);
    forall ms ensures Follows(p(ms), q(ms), Uncurried(k)) {
      if AllLabels(ms) && |ms| == |values| {
        FollowsBoth(st, EvWires(values, ms, shares), k);
      }
    }
    FollowsRecvAll(|values|, p, q, Uncurried(k));
  }

  lemma EvEncodeManyFollows<T>(st: EvState, values: seq<nat>, k: (EvState, seq<Wire>) -> Proc<T>)
    ensures Follows(EvEncodeMany(st, values, Both<EvState, seq<Wire>>), EvEncodeMany(st, values, k), Uncurried(k))
  {
    FollowsFail(Uncurried(k));
    var n := |values|;
    if st.shareIndex + n <= |st.shares| {
      var mine, st' := Taken(st.shares, st.shareIndex, n), EvTake(st, n);
      var p := (theirs: seq<Msg>) => EvEncodeOpened(EvTake(st, n), values, mine, theirs, Both<EvState, seq<Wire>>);
      var q := (theirs: seq<Msg>) => EvEncodeOpened(EvTake(st, n), values, mine, theirs, k);
      forall theirs ensures Follows(p(theirs), q(theirs), Uncurried(k)) {
        EvOpenedFollows(st', values, mine, theirs, k);
      }
      FollowsRecvAll(n, p, q, Uncurried(k));
    }
  }

  lemma EvOpenedFollows<T>(st: EvState, values: seq<nat>, mine: seq<AuthShare>, theirs: seq<Msg>,
                           k: (EvState, seq<Wire>) -> Proc<T>)
    ensures Follows(EvEncodeOpened(st, values, mine, theirs, Both<EvState, seq<Wire>>),
                    EvEncodeOpened(st, values, mine, theirs, k), Uncurried(k))
  {
    FollowsFail(Uncurried(k));
    if |values| == |mine| && AllAuthentic(mine, theirs, st.delta) && Boolean(values) {
      var masked := MaskInputs(values, mine, theirs);
      EvLabelsFollow(st, masked, mine, k);
      FollowsSendAll(BitMsgs(masked), EvReceiveLabels(st, masked, mine, Both<EvState, seq<Wire>>),
                     EvReceiveLabels(st, masked, mine, k), Uncurried(k));
    }
  }

  lemma EvReceiveManyFollows<T>(st: EvState, n: nat, k: (EvState, seq<Wire>) -> Proc<T>)
    ensures Follows(EvReceiveMany(st, n, Both<EvState, seq<Wire>>), EvReceiveMany(st, n, k), Uncurried(k))
  {
    FollowsFail(Uncurried(k));
    if st.shareIndex + n <= |st.shares| {
      var mine, st' := Taken(st.shares, st.shareIndex, n), EvTake(st, n);
      var p := (ms: seq<Msg>) => EvReceiveMasked(EvTake(st, n), mine, ms, Both<EvState, seq<Wire>>);
      var q := (ms: seq<Msg>) => EvReceiveMasked(EvTake(st, n), mine, ms, k);
      forall ms ensures Follows(p(ms), q(ms), Uncurried(k)) {
        if AllBits(ms) && |ms| == |mine| {
          EvLabelsFollow(st', BitsOf(ms), mine, k);
        }
      }
      FollowsRecvAll(n, p, q, Uncurried(k));
      FollowsSendAll(Openings(mine), RecvAll(n, [], p), RecvAll(n, [], q), Uncurried(k));
    }
  }

  lemma EvOutputsFollow<T>(st: EvState, ws: seq<Wire>, k: seq<bool> -> Proc<T>)
    ensures Follows(EvOutputs(st, ws, Return<seq<bool>>), EvOutputs(st, ws, k), k)
  {
    FollowsFail(k);
    var p := (theirs: seq<Msg>) => EvOutputsOpened(st, ws, theirs, Return<seq<bool>>);
    var q := (theirs: seq<Msg>) => EvOutputsOpened(st, ws, theirs, k);
    forall theirs ensures Follows(p(theirs), q(theirs), k) {
      if AllAuthentic(ShareList(ws), theirs, st.delta) {
        FollowsRet(Unmask(ws, theirs), k);
      }
    }
    FollowsRecvAll(|ws|, p, q, k);
  }

  /** One gate, with `k` to follow. */
  function EvGate<T>(lib: Library, g: Gate, st: EvState, ws: seq<Wire>, k: (EvState, Wire) -> Proc<T>): Proc<T>
    requires ReadsBelow(g, |ws|)
  {
    match g
    case XorGate(a, b) => k(st, EvXor(ws[a], ws[b]))
    case InvGate(a) => k(st, EvNegate(st, ws[a]))
    case AndGate(a, b) => EvAnd(lib, st, ws[a], ws[b], k)
    case ConstGate(v) => EvConstant(lib, st, v, k)
  }

  lemma EvGateFollows<T>(lib: Library, g: Gate, st: EvState, ws: seq<Wire>, k: (EvState, Wire) -> Proc<T>)
    requires ReadsBelow(g, |ws|)
    ensures Follows(EvGate(lib, g, st, ws, Both<EvState, Wire>), EvGate(lib, g, st, ws, k), Uncurried(k))
  {
    match g {
    case XorGate(a, b) => FollowsBoth(st, EvXor(ws[a], ws[b]), k);
    case InvGate(a) => FollowsBoth(st, EvNegate(st, ws[a]), k);
    case AndGate(a, b) => EvAndFollows(lib, st, ws[a], ws[b], k);
    case ConstGate(v) => EvConstantFollows(lib, st, v, k);
    }
  }

  /** Executing a gate list is the first gate, then the rest on one more wire. */
  lemma EvExecUnfolds<T>(lib: Library, gates: seq<Gate>, st: EvState, ws: seq<Wire>, k: (EvState, seq<Wire>) -> Proc<T>)
    requires gates != [] && ReadsBelow(gates[0], |ws|)
    ensures EvExec(lib, gates, st, ws, k)
         == EvGate(lib, gates[0], st, ws, (s: EvState, w: Wire) => EvExec(lib, gates[1..], s, ws + [w], k))
  {}

  /** One turn of the loop. */
  lemma EvExecStep(lib: Library, gates: seq<Gate>, st: EvState, ws: seq<Wire>, tape: seq<Msg>, sent: seq<Msg>,
                   tape': seq<Msg>, sent': seq<Msg>, r: Result<(EvState, Wire)>)
    requires gates != [] && ReadsBelow(gates[0], |ws|)
    requires Behaves(EvGate(lib, gates[0], st, ws, Both<EvState, Wire>), tape, sent, tape', sent', r)
    ensures r.Err? ==> Behaves(EvExec(lib, gates, st, ws, Both<EvState, seq<Wire>>), tape, sent, tape', sent', Err)
    ensures r.Ok? ==>
      Resumes(EvExec(lib, gates, st, ws, Both<EvState, seq<Wire>>), tape, sent,
              EvExec(lib, gates[1..], r.value.0, ws + [r.value.1], Both<EvState, seq<Wire>>), tape', sent')
  {
    var k := (s: EvState, w: Wire) => EvExec(lib, gates[1..], s, ws + [w], Both<EvState, seq<Wire>>);
    var p, q := EvGate(lib, gates[0], st, ws, Both<EvState, Wire>),
        EvExec(lib, gates, st, ws, Both<EvState, seq<Wire>>);
    EvExecUnfolds(lib, gates, st, ws, Both<EvState, seq<Wire>>);
    EvGateFollows(lib, gates[0], st, ws, k);
    if r.Ok? {
      ThenResumes(p, q, Uncurried(k), tape, sent, tape', sent', r.value);
    } else {
      ThenFails(p, q, Uncurried(k), tape, sent, tape', sent');
    }
  }

  lemma {:induction false} EvExecFollows<T>(lib: Library, gates: seq<Gate>, st: EvState, ws: seq<Wire>,
                                             k: (EvState, seq<Wire>) -> Proc<T>)
    ensures Follows(EvExec(lib, gates, st, ws, Both<EvState, seq<Wire>>), EvExec(lib, gates, st, ws, k), Uncurried(k))
    decreases |gates|
  {
    if gates == [] {
      FollowsBoth(st, ws, k);
    } else if !ReadsBelow(gates[0], |ws|) {
      FollowsFail(Uncurried(k));
    } else {
      var kp := (s: EvState, w: Wire) => EvExec(lib, gates[1..], s, ws + [w], Both<EvState, seq<Wire>>);
      var kq := (s: EvState, w: Wire) => EvExec(lib, gates[1..], s, ws + [w], k);
      forall v: (EvState, Wire) ensures Follows(Uncurried(kp)(v), Uncurried(kq)(v), Uncurried(k)) {
        EvExecFollows(lib, gates[1..], v.0, ws + [v.1], k);
      }
      EvExecUnfolds(lib, gates, st, ws, Both<EvState, seq<Wire>>);
      EvExecUnfolds(lib, gates, st, ws, k);
      EvGateFollows(lib, gates[0], st, ws, kp);
      EvGateFollows(lib, gates[0], st, ws, kq);
      FollowsVia(EvGate(lib, gates[0], st, ws, Both<EvState, Wire>),
                 EvExec(lib, gates, st, ws, Both<EvState, seq<Wire>>), EvExec(lib, gates, st, ws, k), Uncurried(kp),
                 Uncurried(kq), Uncurried(k));
    }
  }
}
