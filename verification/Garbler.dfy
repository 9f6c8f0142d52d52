/** The garbler as it runs: an object with cursors into its shares and triples that
    writes to and reads from its channel. */
module GarblerParty {
  import opened Bits
  import opened Circuit
  import opened Network
  import opened Shares
  import opened Parties
  import opened Tape

  class Garbler {
    const lib: Library
    const rand: nat -> Label
    var delta: Label
    var zero: Label
    var andGateIndex: nat
    var authShares: seq<AuthShare>
    var authSharesIndex: nat
    var andAuthShares: seq<AuthShare>
    var andAuthSharesIndex: nat
    var drawn: nat

    function State(): GbState
      reads this
    {
      GbState(delta, zero, andGateIndex, authShares, authSharesIndex, andAuthShares, andAuthSharesIndex, rand, drawn)
    }

    constructor (lib: Library, rand: nat -> Label, delta: Label, zero: Label, shares: seq<AuthShare>,
                 triples: seq<AuthShare>, ch: Channel)
      modifies ch
      ensures this.lib == lib
      ensures State() == GbState(delta, zero, 0, shares, 0, triples, 0, rand, 0)
      ensures ch.sent == old(ch.sent) + [LabelMsg(Xor(zero, delta))] && ch.tape == old(ch.tape)
    {
      this.lib, this.rand, this.delta, this.zero := lib, rand, delta, zero;
      andGateIndex, authShares, authSharesIndex := 0, shares, 0;
      andAuthShares, andAuthSharesIndex, drawn := triples, 0, 0;
      new;
      ch.Write(LabelMsg(Xor(zero, delta)));
    }

    /** The next share, or an abort when the vector is used up. */
    method NextAuthShare() returns (r: Result<AuthShare>)
      modifies this`authSharesIndex
      ensures r.Ok? == (old(authSharesIndex) < |authShares|)
      ensures r.Ok? ==> r.value == authShares[old(authSharesIndex)] && authSharesIndex == old(authSharesIndex) + 1
      ensures r.Err? ==> authSharesIndex == old(authSharesIndex)
    {
      if authSharesIndex >= |authShares| {
        return Err;
      }
      r := Ok(authShares[authSharesIndex]);
      authSharesIndex := authSharesIndex + 1;
    }

    method NextAndAuthShare() returns (r: Result<AuthShare>)
      modifies this`andAuthSharesIndex
      ensures r.Ok? == (old(andAuthSharesIndex) < |andAuthShares|)
      ensures r.Ok? ==> r.value == andAuthShares[old(andAuthSharesIndex)]
                        && andAuthSharesIndex == old(andAuthSharesIndex) + 1
      ensures r.Err? ==> andAuthSharesIndex == old(andAuthSharesIndex)
    {
      if andAuthSharesIndex >= |andAuthShares| {
        return Err;
      }
      r := Ok(andAuthShares[andAuthSharesIndex]);
      andAuthSharesIndex := andAuthSharesIndex + 1;
    }

    /** The next `n` shares. */
    method TakeShares(n: nat) returns (r: Result<seq<AuthShare>>)
      modifies this`authSharesIndex
      ensures r.Ok? == (old(authSharesIndex) + n <= |authShares|)
      ensures r.Ok? ==> r.value == authShares[old(authSharesIndex)..old(authSharesIndex) + n]
      ensures r.Ok? ==> authSharesIndex == old(authSharesIndex) + n
    {
      var shares: seq<AuthShare> := [];
      while |shares| < n
        invariant |shares| <= n
        invariant authSharesIndex == old(authSharesIndex) + |shares|
        invariant shares != [] ==> authSharesIndex <= |authShares|
        invariant old(authSharesIndex) + |shares| <= |authShares| ==>
                    shares == authShares[old(authSharesIndex)..old(authSharesIndex) + |shares|]
      {
        var s := NextAuthShare();
        if s.Err? {
          return Err;
        }
        shares := shares + [s.value];
      }
      if authSharesIndex > |authShares| {
        return Err;
      }
      r := Ok(shares);
    }

    method XorWires(x: Wire, y: Wire) returns (w: Wire)
      ensures w == GbXor(x, y)
    {
      w := Wire(x.value != y.value, Xor(x.lab, y.lab), XorShare(x.share, y.share));
    }

    method NegateWire(x: Wire) returns (w: Wire)
      ensures w == GbNegate(State(), x)
    {
      w := Wire(!x.value, Xor(x.lab, zero), x.share);
    }

    /** The two garbled rows and the zero label of an AND gate. */
    method GarbleGate(index: nat, la0: Wire, lb0: Wire, lcShare: AuthShare, lcTriple: AuthShare)
      returns (gate0: Label, gate1: Label, lc0: Label)
      ensures gate0 == Gate0(lib, delta, index, la0, lb0)
      ensures gate1 == Gate1(lib, delta, index, la0, lb0)
      ensures lc0 == ZeroLabel(lib, delta, index, la0, lb0, lcShare, lcTriple)
    {
      var la1 := Xor(la0.lab, delta);
      var lb1 := Xor(lb0.lab, delta);
      var hLa0, hLb0 := lib.hash(la0.lab, index), lib.hash(lb0.lab, index);
      var hLa1, hLb1 := lib.hash(la1, index), lib.hash(lb1, index);
      var deltaA, deltaB := Times(la0.share.bit, delta), Times(lb0.share.bit, delta);
      var deltaC, deltaT := Times(lcShare.bit, delta), Times(lcTriple.bit, delta);
      gate0 := Xor(Xor(Xor(hLa0, hLa1), lb0.share.key), deltaB);
      gate1 := Xor(Xor(Xor(Xor(hLb0, hLb1), la0.share.key), deltaA), la0.lab);
      lc0 := Xor(Xor(Xor(Xor(Xor(hLa0, hLb0), lcShare.key), deltaC), lcTriple.key), deltaT);
    }

    /** Advances all three cursors for one AND gate. */
    method StartGate() returns (r: Result<(AuthShare, AuthShare)>)
      modifies this
      ensures r.Ok? == (old(authSharesIndex) < |old(authShares)| && old(andAuthSharesIndex) < |old(andAuthShares)|)
      ensures r.Ok? ==> r.value == (old(authShares)[old(authSharesIndex)], old(andAuthShares)[old(andAuthSharesIndex)])
      ensures r.Ok? ==> State() == GbAfterAnd(old(State()))
    {
      andGateIndex := andGateIndex + 1;
      var share := NextAuthShare();
      if share.Err? {
        return Err;
      }
      var triple := NextAndAuthShare();
      if triple.Err? {
        return Err;
      }
      r := Ok((share.value, triple.value));
    }

    method And(la0: Wire, lb0: Wire, ch: Channel) returns (r: Result<(GbState, Wire)>)
      modifies this, ch
      ensures Behaves(GbAnd(lib, old(State()), la0, lb0, Both<GbState, Wire>),
                      old(ch.tape), old(ch.sent), ch.tape, ch.sent, r)
      ensures r.Ok? ==> r.value.0 == State()
    {
      ghost var before := State();
      var index := andGateIndex;
      var taken := StartGate();
      if taken.Err? {
        return Err;
      }
      var share, triple := taken.value.0, taken.value.1;
      var gate0, gate1, lc0 := GarbleGate(index, la0, lb0, share, triple);
      r := SendAndValidate(gate0, gate1, lc0, la0, lb0, share, triple, ch);
      AndSends(lib, before, la0, lb0, gate0, gate1, lc0, Both<GbState, Wire>);
    }

    method SendAndValidate(gate0: Label, gate1: Label, lc0: Label, la0: Wire, lb0: Wire,
                           lcShare: AuthShare, lcTriple: AuthShare, ch: Channel)
      returns (r: Result<(GbState, Wire)>)
      modifies ch
      ensures
        var st, k := State(), Both<GbState, Wire>;
        Behaves(SendGate(gate0, gate1, Lsb(lc0),
                         (m: Msg) => GbAndReply(lib, st, la0, lb0, lcShare, lcTriple, lc0, m, k)),
                old(ch.tape), old(ch.sent), ch.tape, ch.sent, r)
      ensures r.Ok? ==> r.value.0 == State()
    {
      ghost var st, k := State(), Both<GbState, Wire>;
      ghost var k1 := (m: Msg) => GbAndReply(lib, st, la0, lb0, lcShare, lcTriple, lc0, m, k);
      ch.Write(LabelMsg(gate0));
      ch.Write(LabelMsg(gate1));
      ch.Write(BitMsg(Lsb(lc0)));
      FeedGate(gate0, gate1, Lsb(lc0), k1, ch.tape, old(ch.sent), ch.sent);
      var value := ch.Read();
      if value.Err? {
        return Err;
      }
      r := Validate(la0, lb0, lcShare, lcTriple, lc0, value.value, ch);
      FeedGateReply(gate0, gate1, Lsb(lc0), k1, old(ch.tape), old(ch.sent), ch.tape, ch.sent, r);
    }

    /** The garbler's half of the validation and the resulting wire. */
    method Validate(la0: Wire, lb0: Wire, lcShare: AuthShare, lcTriple: AuthShare, lc0: Label, value: Msg, ch: Channel)
      returns (r: Result<(GbState, Wire)>)
      modifies ch
      ensures Behaves(GbAndReply(lib, State(), la0, lb0, lcShare, lcTriple, lc0, value, Both<GbState, Wire>),
                      old(ch.tape), old(ch.sent), ch.tape, ch.sent, r)
      ensures r.Ok? ==> r.value.0 == State()
    {
      ghost var p := GbAndReply(lib, State(), la0, lb0, lcShare, lcTriple, lc0, value, Both<GbState, Wire>);
      ghost var tape, sent := ch.tape, ch.sent;
      if !value.BitMsg? {
        return Err;
      }
      var masks := lib.garblerConst((la0.value && lb0.value) != value.b, delta);
      var v := XorShare(XorShare(XorShare(XorShare(masks, MulConst(la0.share, lb0.value)),
                                          MulConst(lb0.share, la0.value)),
                                 lcTriple), lcShare);
      ch.Write(Opening(v));
      var o := ch.Read();
      if o.Ok? && Authentic(v, o.value, delta) && v.bit == o.value.bit {
        r := Ok((State(), Wire(value.b, lc0, lcShare)));
      } else {
        r := Err;
      }
      assert p.Send? && p.m == Opening(v) && p.next.Recv?;
      ReadOne(p.next.k, tape, sent + [Opening(v)], ch.tape, ch.sent, r);
      SentOne(Opening(v), p.next, tape, sent, ch.tape, ch.sent, r);
    }

    /** Creates the labels of the masked values, sends the active ones, keeps the zero ones. */
    method EncodeWirelabels(masked: seq<bool>, shares: seq<AuthShare>, ch: Channel) returns (ws: seq<Wire>)
      requires |masked| == |shares|
      modifies this`drawn, ch
      ensures ch.sent == old(ch.sent) + GbLabels(old(State()), masked) && ch.tape == old(ch.tape)
      ensures ws == GbWires(old(State()), masked, shares)
      ensures drawn == old(drawn) + |masked|
    {
      ghost var st := State();
      ws := [];
      while |ws| < |masked|
        invariant |ws| <= |masked|
        invariant drawn == old(drawn) + |ws|
        invariant ws == GbWires(st, masked[..|ws|], shares[..|ws|])
        invariant ch.sent == old(ch.sent) + GbLabels(st, masked[..|ws|]) && ch.tape == old(ch.tape)
      {
        var i := |ws|;
        var zeroLabel := rand(drawn);
        drawn := drawn + 1;
        ch.Write(LabelMsg(Xor(zeroLabel, Times(masked[i], delta))));
        ws := ws + [Wire(masked[i], zeroLabel, shares[i])];
        assert GbLabels(st, masked[..i + 1])
            == GbLabels(st, masked[..i]) + [LabelMsg(Xor(zeroLabel, Times(masked[i], delta)))];
      }
      assert masked[..|ws|] == masked && shares[..|ws|] == shares;
    }

    /** Unmasks with the opened shares and adds the input bits; a value other than 0 or 1 is an error. */
    method MaskValues(values: seq<nat>, mine: seq<AuthShare>, theirs: seq<Msg>) returns (r: Result<seq<bool>>)
      requires |values| == |mine| == |theirs|
      requires forall i :: 0 <= i < |theirs| ==> theirs[i].OpenMsg?
      ensures r.Ok? == Boolean(values)
      ensures r.Ok? ==> r.value == MaskInputs(values, mine, theirs)
    {
      var masked: seq<bool> := [];
      while |masked| < |values|
        invariant |masked| <= |values|
        invariant forall i :: 0 <= i < |masked| ==> values[i] < 2
        invariant masked == MaskInputs(values, mine, theirs)[..|masked|]
      {
        var i := |masked|;
        if values[i] >= 2 {
          return Err;
        }
        masked := masked + [(theirs[i].bit != mine[i].bit) != (values[i] == 1)];
      }
      r := Ok(masked);
    }

    method EncodeMany(values: seq<nat>, ch: Channel) returns (r: Result<(GbState, seq<Wire>)>)
      modifies this, ch
      ensures Behaves(GbEncodeMany(old(State()), values, Both<GbState, seq<Wire>>),
                      old(ch.tape), old(ch.sent), ch.tape, ch.sent, r)
      ensures r.Ok? ==> r.value.0 == State()
    {
      ghost var n, before, tape, sent := |values|, State(), ch.tape, ch.sent;
      var mine := TakeShares(|values|);
      if mine.Err? {
        return Err;
      }
      ghost var k := (theirs: seq<Msg>) => GbEncodeOpened(GbTake(before, n), values, mine.value, theirs,
                                                          Both<GbState, seq<Wire>>);
      var theirs := ch.ReadAll(|values|);
      if theirs.Err? {
        Starved(n, k, tape, sent, ch.tape);
        return Err;
      }
      r := EncodeOpened(values, mine.value, theirs.value, ch);
      ReadThen(n, k, tape, sent, ch.tape, ch.sent, r);
    }

    method EncodeOpened(values: seq<nat>, mine: seq<AuthShare>, theirs: seq<Msg>, ch: Channel)
      returns (r: Result<(GbState, seq<Wire>)>)
      requires |values| == |mine| == |theirs|
      modifies this`drawn, ch
      ensures Behaves(GbEncodeOpened(old(State()), values, mine, theirs, Both<GbState, seq<Wire>>),
                      old(ch.tape), old(ch.sent), ch.tape, ch.sent, r)
      ensures r.Ok? ==> r.value.0 == State()
    {
      ghost var before, tape, sent := State(), ch.tape, ch.sent;
      if !AllAuthentic(mine, theirs, delta) {
        return Err;
      }
      var masked := MaskValues(values, mine, theirs);
      if masked.Err? {
        return Err;
      }
      ch.WriteAll(BitMsgs(masked.value));
      r := SendLabels(masked.value, mine, ch);
      SentThen(BitMsgs(masked.value), GbEncodeLabels(before, masked.value, mine, Both<GbState, seq<Wire>>), tape, sent,
               ch.tape, ch.sent, r);
    }

    /** Sends the labels and returns the wires. */
    method SendLabels(masked: seq<bool>, mine: seq<AuthShare>, ch: Channel) returns (r: Result<(GbState, seq<Wire>)>)
      requires |masked| == |mine|
      modifies this`drawn, ch
      ensures r.Ok? && r.value.0 == State()
      ensures Behaves(GbEncodeLabels(old(State()), masked, mine, Both<GbState, seq<Wire>>),
                      old(ch.tape), old(ch.sent), ch.tape, ch.sent, r)
    {
      ghost var st := State();
      var ws := EncodeWirelabels(masked, mine, ch);
      r := Ok((State(), ws));
      LabelsBehave(st, masked, mine, old(ch.tape), old(ch.sent), ch.sent, State(), ws);
    }

    method ReceiveMany(n: nat, ch: Channel) returns (r: Result<(GbState, seq<Wire>)>)
      modifies this, ch
      ensures Behaves(GbReceiveMany(old(State()), n, Both<GbState, seq<Wire>>),
                      old(ch.tape), old(ch.sent), ch.tape, ch.sent, r)
      ensures r.Ok? ==> r.value.0 == State()
    {
      ghost var before, tape, sent := State(), ch.tape, ch.sent;
      var mine := TakeShares(n);
      if mine.Err? {
        return Err;
      }
      ghost var k := (ms: seq<Msg>) => GbReceiveMasked(GbTake(before, n), mine.value, ms, Both<GbState, seq<Wire>>);
      ch.WriteAll(Openings(mine.value));
      ghost var shown := ch.sent;
      var ms := ch.ReadAll(n);
      if ms.Err? {
        r := Err;
        Starved(n, k, tape, shown, ch.tape);
      } else {
        r := ReceiveMasked(mine.value, ms.value, ch);
        ReadThen(n, k, tape, shown, ch.tape, ch.sent, r);
      }
      SentThen(Openings(mine.value), RecvAll(n, [], k), tape, sent, ch.tape, ch.sent, r);
    }

    method ReceiveMasked(mine: seq<AuthShare>, ms: seq<Msg>, ch: Channel) returns (r: Result<(GbState, seq<Wire>)>)
      modifies this`drawn, ch
      ensures Behaves(GbReceiveMasked(old(State()), mine, ms, Both<GbState, seq<Wire>>),
                      old(ch.tape), old(ch.sent), ch.tape, ch.sent, r)
      ensures r.Ok? ==> r.value.0 == State()
    {
      if !AllBits(ms) || |ms| != |mine| {
        return Err;
      }
      r := SendLabels(BitsOf(ms), mine, ch);
    }

    method Constant(value: bool, ch: Channel) returns (w: Wire)
      modifies this`drawn, ch
      ensures Behaves(GbConstant(lib, old(State()), value, Both<GbState, Wire>),
                      old(ch.tape), old(ch.sent), ch.tape, ch.sent, Ok((State(), w)))
    {
      ghost var p := GbConstant(lib, State(), value, Both<GbState, Wire>);
      var zeroLabel := rand(drawn);
      drawn := drawn + 1;
      ch.Write(LabelMsg(Xor(zeroLabel, Times(value, delta))));
      w := Wire(value, zeroLabel, lib.garblerConst(false, delta));
      assert p.Send? && p.next == Ret((State(), w));
      assert Feed(p, old(ch.tape)).out == [p.m] + Feed(p.next, old(ch.tape)).out;
    }

    /** Opens this party's output shares; the garbler learns nothing itself. */
    method Outputs(ws: seq<Wire>, ch: Channel)
      modifies ch
      ensures ch.sent == old(ch.sent) + Openings(ShareList(ws)) && ch.tape == old(ch.tape)
      ensures Behaves(GbOutputs(ws, Ret(())), old(ch.tape), old(ch.sent), ch.tape, ch.sent, Ok(()))
    {
      ch.WriteAll(Openings(ShareList(ws)));
      FeedSendAll(Openings(ShareList(ws)), Ret(()), old(ch.tape));
    }

    /** One gate, on the wires so far. */
    method DoGate(g: Gate, ws: seq<Wire>, ch: Channel) returns (r: Result<(GbState, Wire)>)
      requires ReadsBelow(g, |ws|)
      modifies this, ch
      ensures Behaves(GbGate(lib, g, old(State()), ws, Both<GbState, Wire>), old(ch.tape), old(ch.sent), ch.tape,
                      ch.sent, r)
      ensures r.Ok? ==> r.value.0 == State()
    {
      match g {
      case XorGate(a, b) =>
        var w := XorWires(ws[a], ws[b]);
        r := Ok((State(), w));
      case InvGate(a) =>
        var w := NegateWire(ws[a]);
        r := Ok((State(), w));
      case AndGate(a, b) =>
        r := And(ws[a], ws[b], ch);
      case ConstGate(v) =>
        var w := Constant(v, ch);
        r := Ok((State(), w));
      }
    }

    /** The gates in order, each on the wires before it. */
    method Exec(gates: seq<Gate>, inputs: seq<Wire>, ch: Channel) returns (r: Result<(GbState, seq<Wire>)>)
      modifies this, ch
      ensures Behaves(GbExec(lib, gates, old(State()), inputs, Both<GbState, seq<Wire>>),
                      old(ch.tape), old(ch.sent), ch.tape, ch.sent, r)
      ensures r.Ok? ==> r.value.0 == State()
    {
      ghost var whole := GbExec(lib, gates, State(), inputs, Both<GbState, seq<Wire>>);
      ghost var tape, sent := ch.tape, ch.sent;
      var ws, i := inputs, 0;
      assert gates[0..] == gates;
      while i < |gates|
        invariant i <= |gates|
        invariant Resumes(whole, tape, sent, GbExec(lib, gates[i..], State(), ws, Both<GbState, seq<Wire>>), ch.tape,
                          ch.sent)
      {
        ghost var st1, tape1, sent1 := State(), ch.tape, ch.sent;
        ghost var left := GbExec(lib, gates[i..], st1, ws, Both<GbState, seq<Wire>>);
        if !ReadsBelow(gates[i], |ws|) {
          BehavesWhole(whole, tape, sent, left, tape1, sent1, ch.tape, ch.sent, Err);
          return Err;
        }
        var next := DoGate(gates[i], ws, ch);
        assert gates[i..][1..] == gates[i + 1..];
        GbExecStep(lib, gates[i..], st1, ws, tape1, sent1, ch.tape, ch.sent, next);
        if next.Err? {
          BehavesWhole(whole, tape, sent, left, tape1, sent1, ch.tape, ch.sent, Err);
          return Err;
        }
        ws := ws + [next.value.1];
        i := i + 1;
        ResumesTrans(whole, tape, sent, left, tape1, sent1,
                     GbExec(lib, gates[i..], State(), ws, Both<GbState, seq<Wire>>), ch.tape, ch.sent);
      }
      r := Ok((State(), ws));
      BehavesWhole(whole, tape, sent, GbExec(lib, gates[i..], State(), ws, Both<GbState, seq<Wire>>), ch.tape, ch.sent,
                   ch.tape, ch.sent, r);
    }

    /** The whole computation on this party's inputs, after the label for one went out. */
    method Run(values: seq<nat>, theirs: nat, gates: seq<Gate>, outs: seq<nat>, ch: Channel)
      returns (r: Result<GbState>)
      modifies this, ch
      ensures Behaves(GbAfterOne(lib, old(State()), values, theirs, gates, outs, Return<GbState>),
                      old(ch.tape), old(ch.sent), ch.tape, ch.sent, r)
      ensures r.Ok? ==> r.value == State()
    {
      ghost var st0, tape0, sent0 := State(), ch.tape, ch.sent;
      ghost var whole := GbAfterOne(lib, st0, values, theirs, gates, outs, Return<GbState>);
      ghost var k0 := (s: GbState, inputs: seq<Wire>) => GbCompute(lib, s, inputs, gates, outs, Return<GbState>);
      ghost var k1 := (s: GbState, mine: seq<Wire>) => GbTheirInputs(s, mine, theirs, k0);
      GbEncodeManyFollows(st0, values, k1);
      var mine := EncodeMany(values, ch);
      if mine.Err? {
        ThenFails(GbEncodeMany(st0, values, Both<GbState, seq<Wire>>), whole, Uncurried(k1), tape0, sent0, ch.tape,
                  ch.sent);
        return Err;
      }
      ThenResumes(GbEncodeMany(st0, values, Both<GbState, seq<Wire>>), whole, Uncurried(k1), tape0, sent0, ch.tape,
                  ch.sent, mine.value);
      ghost var st1, tape1, sent1 := State(), ch.tape, ch.sent;
      r := RunGates(mine.value.1, theirs, gates, outs, ch);
      BehavesWhole(whole, tape0, sent0, GbTheirInputs(st1, mine.value.1, theirs, k0), tape1, sent1, ch.tape, ch.sent,
                   r);
    }

    /** From the other party's inputs on. */
    method RunGates(mine: seq<Wire>, theirs: nat, gates: seq<Gate>, outs: seq<nat>, ch: Channel)
      returns (r: Result<GbState>)
      modifies this, ch
      ensures Behaves(GbTheirInputs(old(State()), mine, theirs, (s: GbState, inputs: seq<Wire>) =>
                        GbCompute(lib, s, inputs, gates, outs, Return<GbState>)),
                      old(ch.tape), old(ch.sent), ch.tape, ch.sent, r)
      ensures r.Ok? ==> r.value == State()
    {
      ghost var st0, tape0, sent0 := State(), ch.tape, ch.sent;
      ghost var k0 := (s: GbState, inputs: seq<Wire>) => GbCompute(lib, s, inputs, gates, outs, Return<GbState>);
      ghost var k1 := (s: GbState, ws: seq<Wire>) => k0(s, mine + ws);
      GbReceiveManyFollows(st0, theirs, k1);
      var others := ReceiveMany(theirs, ch);
      if others.Err? {
        ThenFails(GbReceiveMany(st0, theirs, Both<GbState, seq<Wire>>), GbTheirInputs(st0, mine, theirs, k0),
                  Uncurried(k1), tape0, sent0, ch.tape, ch.sent);
        return Err;
      }
      ThenResumes(GbReceiveMany(st0, theirs, Both<GbState, seq<Wire>>), GbTheirInputs(st0, mine, theirs, k0),
                  Uncurried(k1), tape0, sent0, ch.tape, ch.sent, others.value);
      ghost var st1, tape1, sent1 := State(), ch.tape, ch.sent;
      r := Compute(mine + others.value.1, gates, outs, ch);
      BehavesWhole(GbTheirInputs(st0, mine, theirs, k0), tape0, sent0,
                   GbCompute(lib, st1, mine + others.value.1, gates, outs, Return<GbState>), tape1, sent1, ch.tape,
                   ch.sent, r);
    }

    /** The gates and the outputs. */
    method Compute(inputs: seq<Wire>, gates: seq<Gate>, outs: seq<nat>, ch: Channel) returns (r: Result<GbState>)
      modifies this, ch
      ensures Behaves(GbCompute(lib, old(State()), inputs, gates, outs, Return<GbState>),
                      old(ch.tape), old(ch.sent), ch.tape, ch.sent, r)
      ensures r.Ok? ==> r.value == State()
    {
      ghost var st0, tape0, sent0 := State(), ch.tape, ch.sent;
      ghost var k := (s: GbState, all: seq<Wire>) => GbFinish(s, all, outs, Return<GbState>);
      GbExecFollows(lib, gates, st0, inputs, k);
      var all := Exec(gates, inputs, ch);
      if all.Err? {
        ThenFails(GbExec(lib, gates, st0, inputs, Both<GbState, seq<Wire>>),
                  GbCompute(lib, st0, inputs, gates, outs, Return<GbState>), Uncurried(k), tape0, sent0, ch.tape,
                  ch.sent);
        return Err;
      }
      ThenResumes(GbExec(lib, gates, st0, inputs, Both<GbState, seq<Wire>>),
                  GbCompute(lib, st0, inputs, gates, outs, Return<GbState>), Uncurried(k), tape0, sent0, ch.tape,
                  ch.sent, all.value);
      ghost var tape1, sent1 := ch.tape, ch.sent;
      if Within(outs, |all.value.1|) {
        Outputs(PickWires(all.value.1, outs), ch);
        r := Ok(State());
        SentThen(Openings(ShareList(PickWires(all.value.1, outs))), Return(State()), tape1, sent1, ch.tape, ch.sent, r);
      } else {
        r := Err;
      }
      BehavesWhole(GbCompute(lib, st0, inputs, gates, outs, Return<GbState>), tape0, sent0,
                   GbFinish(State(), all.value.1, outs, Return<GbState>), tape1, sent1, ch.tape, ch.sent, r);
    }
  }

  /** A garbler from its creation to its opened outputs. */
  method RunGarbler(lib: Library, rand: nat -> Label, delta: Label, zero: Label, shares: seq<AuthShare>,
                    triples: seq<AuthShare>, values: seq<nat>, theirs: nat, gates: seq<Gate>, outs: seq<nat>,
                    ch: Channel)
    returns (r: Result<GbState>)
    modifies ch
    ensures Behaves(GbMain(lib, GbState(delta, zero, 0, shares, 0, triples, 0, rand, 0), values, theirs, gates, outs,
                           Return<GbState>),
                    old(ch.tape), old(ch.sent), ch.tape, ch.sent, r)
  {
    ghost var st, tape, sent := GbState(delta, zero, 0, shares, 0, triples, 0, rand, 0), ch.tape, ch.sent;
    var gb := new Garbler(lib, rand, delta, zero, shares, triples, ch);
    r := gb.Run(values, theirs, gates, outs, ch);
    SentOne(LabelMsg(Xor(zero, delta)), GbAfterOne(lib, st, values, theirs, gates, outs, Return<GbState>), tape, sent,
            ch.tape, ch.sent, r);
  }

  /** Sending the labels and returning the wires is what the label step prescribes. */
  lemma LabelsBehave(st: GbState, masked: seq<bool>, shares: seq<AuthShare>, tape: seq<Msg>, sent: seq<Msg>,
                     sent': seq<Msg>, st': GbState, ws: seq<Wire>)
    requires |masked| == |shares|
    requires sent' == sent + GbLabels(st, masked) && ws == GbWires(st, masked, shares)
    requires st' == st.(drawn := st.drawn + |masked|)
    ensures Behaves(GbEncodeLabels(st, masked, shares, Both<GbState, seq<Wire>>),
                    tape, sent, tape, sent', Ok((st', ws)))
  {
    FeedSendAll(GbLabels(st, masked), Ret((st', ws)), tape);
  }

  /** The messages of an AND, once its share and triple are at hand. */
  lemma AndSends<T>(lib: Library, st: GbState, a: Wire, b: Wire, gate0: Label, gate1: Label, lc0: Label,
                    k: (GbState, Wire) -> Proc<T>)
    requires st.shareIndex < |st.shares| && st.tripleIndex < |st.triples|
    requires gate0 == Gate0(lib, st.delta, st.andIndex, a, b) && gate1 == Gate1(lib, st.delta, st.andIndex, a, b)
    requires lc0 == ZeroLabel(lib, st.delta, st.andIndex, a, b, st.shares[st.shareIndex], st.triples[st.tripleIndex])
    ensures
      var share, triple := st.shares[st.shareIndex], st.triples[st.tripleIndex];
      GbAnd(lib, st, a, b, k)
      == SendGate(gate0, gate1, Lsb(lc0), (m: Msg) => GbAndReply(lib, GbAfterAnd(st), a, b, share, triple, lc0, m, k))
  {}

  /** A garbled gate sent on an empty tape waits; so does one answered by anything but a bit. */
  lemma FeedGate<T>(row0: Label, row1: Label, permute: bool, k: Msg -> Proc<T>, tape: seq<Msg>, sent: seq<Msg>,
                    sent': seq<Msg>)
    requires sent' == sent + [LabelMsg(row0)] + [LabelMsg(row1)] + [BitMsg(permute)]
    ensures
      var f := Feed(SendGate(row0, row1, permute, k), tape);
      if tape == [] then sent' == sent + f.out && !f.proc.Ret?
      else
        var t := Feed(k(tape[0]), tape[1..]);
        sent' + t.out == sent + f.out && f.rest == t.rest && f.proc == t.proc
  {
    var p3 := Recv(k);
    var p2 := Send(BitMsg(permute), p3);
    var p1 := Send(LabelMsg(row1), p2);
    var p0 := Send(LabelMsg(row0), p1);
    assert Feed(p2, tape).out == [BitMsg(permute)] + Feed(p3, tape).out;
    assert Feed(p1, tape).out == [LabelMsg(row1)] + Feed(p2, tape).out;
    assert Feed(p0, tape).out == [LabelMsg(row0)] + Feed(p1, tape).out;
    assert sent' + Feed(p3, tape).out == sent + Feed(p0, tape).out;
  }

  lemma FeedGateReply<T(!new)>(row0: Label, row1: Label, permute: bool, k: Msg -> Proc<T>,
                               tape: seq<Msg>, sent: seq<Msg>, tape': seq<Msg>, sent': seq<Msg>, r: Result<T>)
    requires tape != []
    requires Behaves(k(tape[0]), tape[1..], sent + [LabelMsg(row0)] + [LabelMsg(row1)] + [BitMsg(permute)], tape',
                     sent', r)
    ensures Behaves(SendGate(row0, row1, permute, k), tape, sent, tape', sent', r)
  {
    FeedGate(row0, row1, permute, k, tape, sent, sent + [LabelMsg(row0)] + [LabelMsg(row1)] + [BitMsg(permute)]);
  }

  // ---------------------------------------------------------------- operations with more to follow

  lemma GbReplyFollows<T>(lib: Library, st: GbState, a: Wire, b: Wire, share: AuthShare, triple: AuthShare,
                          zeroLabel: Label, m: Msg, k: (GbState, Wire) -> Proc<T>)
    ensures Follows(GbAndReply(lib, st, a, b, share, triple, zeroLabel, m, Both<GbState, Wire>),
                    GbAndReply(lib, st, a, b, share, triple, zeroLabel, m, k), Uncurried(k))
  {
    FollowsFail(Uncurried(k));
    if m.BitMsg? {
      var p := GbAndReply(lib, st, a, b, share, triple, zeroLabel, m, Both<GbState, Wire>);
      var q := GbAndReply(lib, st, a, b, share, triple, zeroLabel, m, k);
      FollowsBoth(st, Wire(m.b, zeroLabel, share), k);
      FollowsRecv(p.next.k, q.next.k, Uncurried(k));
      FollowsSend(p.m, p.next, q.next, Uncurried(k));
    }
  }

  lemma GbAndFollows<T>(lib: Library, st: GbState, a: Wire, b: Wire, k: (GbState, Wire) -> Proc<T>)
    ensures Follows(GbAnd(lib, st, a, b, Both<GbState, Wire>), GbAnd(lib, st, a, b, k), Uncurried(k))
  {
    FollowsFail(Uncurried(k));
    if st.shareIndex < |st.shares| && st.tripleIndex < |st.triples| {
      var p, q := GbAnd(lib, st, a, b, Both<GbState, Wire>), GbAnd(lib, st, a, b, k);
      var share, triple := st.shares[st.shareIndex], st.triples[st.tripleIndex];
      var lab := ZeroLabel(lib, st.delta, st.andIndex, a, b, share, triple);
      forall m ensures Follows(p.next.next.next.k(m), q.next.next.next.k(m), Uncurried(k)) {
        GbReplyFollows(lib, GbAfterAnd(st), a, b, share, triple, lab, m, k);
      }
      FollowsRecv(p.next.next.next.k, q.next.next.next.k, Uncurried(k));
      FollowsSend(p.next.next.m, p.next.next.next, q.next.next.next, Uncurried(k));
      FollowsSend(p.next.m, p.next.next, q.next.next, Uncurried(k));
      FollowsSend(p.m, p.next, q.next, Uncurried(k));
    }
  }

  lemma GbConstantFollows<T>(lib: Library, st: GbState, v: bool, k: (GbState, Wire) -> Proc<T>)
    ensures Follows(GbConstant(lib, st, v, Both<GbState, Wire>), GbConstant(lib, st, v, k), Uncurried(k))
  {
    var p, q := GbConstant(lib, st, v, Both<GbState, Wire>), GbConstant(lib, st, v, k);
    FollowsBoth(st.(drawn := st.drawn + 1), Wire(v, st.rand(st.drawn), lib.garblerConst(false, st.delta)), k);
    FollowsSend(p.m, p.next, q.next, Uncurried(k));
  }

  lemma GbLabelsFollow<T>(st: GbState, values: seq<bool>, shares: seq<AuthShare>, k: (GbState, seq<Wire>) -> Proc<T>)
    requires |values| == |shares|
    ensures Follows(GbEncodeLabels(st, values, shares, Both<GbState, seq<Wire>>), GbEncodeLabels(st, values, shares, k),
                    Uncurried(k))
  {
    var st', ws := st.(drawn := st.drawn + |values|), GbWires(st, values, shares);
    FollowsBoth(st', ws, k);
    FollowsSendAll(GbLabels(st, values), Both(st', ws), k(st', ws), Uncurried(k));
  }

  lemma GbEncodeManyFollows<T>(st: GbState, values: seq<nat>, k: (GbState, seq<Wire>) -> Proc<T>)
    ensures Follows(GbEncodeMany(st, values, Both<GbState, seq<Wire>>), GbEncodeMany(st, values, k), Uncurried(k))
  {
    FollowsFail(Uncurried(k));
    var n := |values|;
    if st.shareIndex + n <= |st.shares| {
      var mine, st' := Taken(st.shares, st.shareIndex, n), GbTake(st, n);
      var p := (theirs: seq<Msg>) => GbEncodeOpened(GbTake(st, n), values, mine, theirs, Both<GbState, seq<Wire>>);
      var q := (theirs: seq<Msg>) => GbEncodeOpened(GbTake(st, n), values, mine, theirs, k);
      forall theirs ensures Follows(p(theirs), q(theirs), Uncurried(k)) {
        GbOpenedFollows(st', values, mine, theirs, k);
      }
      FollowsRecvAll(n, p, q, Uncurried(k));
    }
  }

  lemma GbOpenedFollows<T>(st: GbState, values: seq<nat>, mine: seq<AuthShare>, theirs: seq<Msg>,
                           k: (GbState, seq<Wire>) -> Proc<T>)
    ensures Follows(GbEncodeOpened(st, values, mine, theirs, Both<GbState, seq<Wire>>),
                    GbEncodeOpened(st, values, mine, theirs, k), Uncurried(k))
  {
    FollowsFail(Uncurried(k));
    if |values| == |mine| && AllAuthentic(mine, theirs, st.delta) && Boolean(values) {
      var masked := MaskInputs(values, mine, theirs);
      GbLabelsFollow(st, masked, mine, k);
      FollowsSendAll(BitMsgs(masked), GbEncodeLabels(st, masked, mine, Both<GbState, seq<Wire>>),
                     GbEncodeLabels(st, masked, mine, k), Uncurried(k));
    }
  }

  lemma GbReceiveManyFollows<T>(st: GbState, n: nat, k: (GbState, seq<Wire>) -> Proc<T>)
    ensures Follows(GbReceiveMany(st, n, Both<GbState, seq<Wire>>), GbReceiveMany(st, n, k), Uncurried(k))
  {
    FollowsFail(Uncurried(k));
    if st.shareIndex + n <= |st.shares| {
      var mine, st' := Taken(st.shares, st.shareIndex, n), GbTake(st, n);
      var p := (ms: seq<Msg>) => GbReceiveMasked(GbTake(st, n), mine, ms, Both<GbState, seq<Wire>>);
      var q := (ms: seq<Msg>) => GbReceiveMasked(GbTake(st, n), mine, ms, k);
      forall ms ensures Follows(p(ms), q(ms), Uncurried(k)) {
        if AllBits(ms) && |ms| == |mine| {
          GbLabelsFollow(st', BitsOf(ms), mine, k);
        }
      }
      FollowsRecvAll(n, p, q, Uncurried(k));
      FollowsSendAll(Openings(mine), RecvAll(n, [], p), RecvAll(n, [], q), Uncurried(k));
    }
  }

  /** One gate, with `k` to follow. */
  function GbGate<T>(lib: Library, g: Gate, st: GbState, ws: seq<Wire>, k: (GbState, Wire) -> Proc<T>): Proc<T>
    requires ReadsBelow(g, |ws|)
  {
    match g
    case XorGate(a, b) => k(st, GbXor(ws[a], ws[b]))
    case InvGate(a) => k(st, GbNegate(st, ws[a]))
    case AndGate(a, b) => GbAnd(lib, st, ws[a], ws[b], k)
    case ConstGate(v) => GbConstant(lib, st, v, k)
  }

  lemma GbGateFollows<T>(lib: Library, g: Gate, st: GbState, ws: seq<Wire>, k: (GbState, Wire) -> Proc<T>)
    requires ReadsBelow(g, |ws|)
    ensures Follows(GbGate(lib, g, st, ws, Both<GbState, Wire>), GbGate(lib, g, st, ws, k), Uncurried(k))
  {
    match g {
    case XorGate(a, b) => FollowsBoth(st, GbXor(ws[a], ws[b]), k);
    case InvGate(a) => FollowsBoth(st, GbNegate(st, ws[a]), k);
    case AndGate(a, b) => GbAndFollows(lib, st, ws[a], ws[b], k);
    case ConstGate(v) => GbConstantFollows(lib, st, v, k);
    }
  }

  /** Executing a gate list is the first gate, then the rest on one more wire. */
  lemma GbExecUnfolds<T>(lib: Library, gates: seq<Gate>, st: GbState, ws: seq<Wire>, k: (GbState, seq<Wire>) -> Proc<T>)
    requires gates != [] && ReadsBelow(gates[0], |ws|)
    ensures GbExec(lib, gates, st, ws, k)
         == GbGate(lib, gates[0], st, ws, (s: GbState, w: Wire) => GbExec(lib, gates[1..], s, ws + [w], k))
  {}

  /** One turn of the loop. */
  lemma GbExecStep(lib: Library, gates: seq<Gate>, st: GbState, ws: seq<Wire>, tape: seq<Msg>, sent: seq<Msg>,
                   tape': seq<Msg>, sent': seq<Msg>, r: Result<(GbState, Wire)>)
    requires gates != [] && ReadsBelow(gates[0], |ws|)
    requires Behaves(GbGate(lib, gates[0], st, ws, Both<GbState, Wire>), tape, sent, tape', sent', r)
    ensures r.Err? ==> Behaves(GbExec(lib, gates, st, ws, Both<GbState, seq<Wire>>), tape, sent, tape', sent', Err)
    ensures r.Ok? ==>
      Resumes(GbExec(lib, gates, st, ws, Both<GbState, seq<Wire>>), tape, sent,
              GbExec(lib, gates[1..], r.value.0, ws + [r.value.1], Both<GbState, seq<Wire>>), tape', sent')
  {
    var k := (s: GbState, w: Wire) => GbExec(lib, gates[1..], s, ws + [w], Both<GbState, seq<Wire>>);
    var p, q := GbGate(lib, gates[0], st, ws, Both<GbState, Wire>),
        GbExec(lib, gates, st, ws, Both<GbState, seq<Wire>>);
    GbExecUnfolds(lib, gates, st, ws, Both<GbState, seq<Wire>>);
    GbGateFollows(lib, gates[0], st, ws, k);
    if r.Ok? {
      ThenResumes(p, q, Uncurried(k), tape, sent, tape', sent', r.value);
    } else {
      ThenFails(p, q, Uncurried(k), tape, sent, tape', sent');
    }
  }

  lemma {:induction false} GbExecFollows<T>(lib: Library, gates: seq<Gate>, st: GbState, ws: seq<Wire>,
                                             k: (GbState, seq<Wire>) -> Proc<T>)
    ensures Follows(GbExec(lib, gates, st, ws, Both<GbState, seq<Wire>>), GbExec(lib, gates, st, ws, k), Uncurried(k))
    decreases |gates|
  {
    if gates == [] {
      FollowsBoth(st, ws, k);
    } else if !ReadsBelow(gates[0], |ws|) {
      FollowsFail(Uncurried(k));
    } else {
      var kp := (s: GbState, w: Wire) => GbExec(lib, gates[1..], s, ws + [w], Both<GbState, seq<Wire>>);
      var kq := (s: GbState, w: Wire) => GbExec(lib, gates[1..], s, ws + [w], k);
      forall v: (GbState, Wire) ensures Follows(Uncurried(kp)(v), Uncurried(kq)(v), Uncurried(k)) {
        GbExecFollows(lib, gates[1..], v.0, ws + [v.1], k);
      }
      GbExecUnfolds(lib, gates, st, ws, Both<GbState, seq<Wire>>);
      GbExecUnfolds(lib, gates, st, ws, k);
      GbGateFollows(lib, gates[0], st, ws, kp);
      GbGateFollows(lib, gates[0], st, ws, kq);
      FollowsVia(GbGate(lib, gates[0], st, ws, Both<GbState, Wire>),
                 GbExec(lib, gates, st, ws, Both<GbState, seq<Wire>>), GbExec(lib, gates, st, ws, k), Uncurried(kp),
                 Uncurried(kq), Uncurried(k));
    }
  }
}
