/** Inputs, outputs and the end-to-end theorem of the authenticated garbling engine. */
module JointRun {
  import opened Bits
  import opened Circuit
  import opened Network
  import opened Shares
  import opened Parties
  import opened Engine

  function BitsFromInputs(values: seq<nat>): (r: seq<bool>)
    ensures |r| == |values|
  {
    seq(|values|, i requires 0 <= i < |values| => values[i] == 1)
  }

  /** `n` shares are left on both sides. */
  predicate SharesLeft(g: GbState, e: EvState, n: nat) {
    StatesAgree(g, e) && g.shareIndex + n <= |g.shares|
  }

  /** Both sides' input masks are the input bit plus the shared mask. */
  predicate MasksInputs(masked: seq<bool>, bits: seq<bool>, gs: seq<AuthShare>, es: seq<AuthShare>) {
    && |masked| == |bits| == |gs| == |es|
    && forall i :: 0 <= i < |masked| ==> masked[i] == (bits[i] != Mask(gs[i], es[i]))
  }

  /** The garbler's zero labels and the evaluator's active labels make related wires. */
  lemma LabelledWires(g: GbState, e: EvState, masked: seq<bool>, bits: seq<bool>, gs: seq<AuthShare>,
                      es: seq<AuthShare>)
    requires PairedLists(gs, es, g.delta, e.delta) && MasksInputs(masked, bits, gs, es)
    ensures WiresInv(GbWires(g, masked, gs), EvWires(masked, GbLabels(g, masked), es), bits, g.delta, e.delta)
    ensures ShareList(GbWires(g, masked, gs)) == gs && ShareList(EvWires(masked, GbLabels(g, masked), es)) == es
  {}

  /** The labels for the masked values go through and both sides hold matching wires. */
  lemma LabelsReach<A, B>(g: GbState, e: EvState, masked: seq<bool>, bits: seq<bool>,
                          gs: seq<AuthShare>, es: seq<AuthShare>, g1: GbState,
                          k: (GbState, seq<Wire>) -> Proc<A>, h: (EvState, seq<Wire>) -> Proc<B>)
    returns (gws: seq<Wire>, ews: seq<Wire>)
    requires PairedLists(gs, es, g.delta, e.delta) && MasksInputs(masked, bits, gs, es)
    requires g1 == g.(drawn := g.drawn + |masked|)
    ensures WiresInv(gws, ews, bits, g.delta, e.delta)
    ensures ShareList(gws) == gs && ShareList(ews) == es
    ensures Reaches(Net(GbEncodeLabels(g, masked, gs, k), EvReceiveLabels(e, masked, es, h), [], []),
                    Net(k(g1, gws), h(e, ews), [], []))
  {
    LabelledWires(g, e, masked, bits, gs, es);
    gws, ews := LabelsSent(g, e, masked, gs, es, g1, k, h);
  }

  lemma LabelsSent<A, B>(g: GbState, e: EvState, masked: seq<bool>, gs: seq<AuthShare>, es: seq<AuthShare>, g1: GbState,
                         k: (GbState, seq<Wire>) -> Proc<A>, h: (EvState, seq<Wire>) -> Proc<B>)
    returns (gws: seq<Wire>, ews: seq<Wire>)
    requires |masked| == |gs| == |es| && g1 == g.(drawn := g.drawn + |masked|)
    ensures gws == GbWires(g, masked, gs) && ews == EvWires(masked, GbLabels(g, masked), es)
    ensures Reaches(Net(GbEncodeLabels(g, masked, gs, k), EvReceiveLabels(e, masked, es, h), [], []),
                    Net(k(g1, gws), h(e, ews), [], []))
  {
    var labels := GbLabels(g, masked);
    gws, ews := GbWires(g, masked, gs), EvWires(masked, labels, es);
    var h' := (ms: seq<Msg>) => EvLabelsRead(e, masked, es, ms, h);
    BatchPQ(labels, k(g1, gws), [], h');
    assert [] + labels == labels;
    assert EvReceiveLabels(e, masked, es, h) == RecvAll(|labels|, [], h');
  }

  lemma TakenPaired(g: GbState, e: EvState, n: nat)
    requires SharesLeft(g, e, n)
    ensures PairedLists(Taken(g.shares, g.shareIndex, n), Taken(e.shares, e.shareIndex, n), g.delta, e.delta)
    ensures AllAuthentic(Taken(g.shares, g.shareIndex, n), Openings(Taken(e.shares, e.shareIndex, n)), g.delta)
    ensures AllAuthentic(Taken(e.shares, e.shareIndex, n), Openings(Taken(g.shares, g.shareIndex, n)), e.delta)
  {
    var gs, es := Taken(g.shares, g.shareIndex, n), Taken(e.shares, e.shareIndex, n);
    forall i | 0 <= i < n
      ensures Paired(gs[i], es[i], g.delta, e.delta)
    {
      assert Paired(g.shares[g.shareIndex + i], e.shares[e.shareIndex + i], g.delta, e.delta);
    }
  }

  /** Opened shares of honest peers give masked inputs. */
  lemma InputsMasked(values: seq<nat>, mine: seq<AuthShare>, theirs: seq<AuthShare>)
    requires |values| == |mine| == |theirs|
    ensures MasksInputs(MaskInputs(values, mine, Openings(theirs)), BitsFromInputs(values), mine, theirs)
    ensures MasksInputs(MaskInputs(values, mine, Openings(theirs)), BitsFromInputs(values), theirs, mine)
  {}

  /** What each side does with accepted openings, and with the masked values it is sent. */
  lemma GbOpened<T>(g: GbState, values: seq<nat>, mine: seq<AuthShare>, theirs: seq<Msg>, masked: seq<bool>,
                    k: (GbState, seq<Wire>) -> Proc<T>)
    requires |values| == |mine| && AllAuthentic(mine, theirs, g.delta) && Boolean(values)
    requires masked == MaskInputs(values, mine, theirs)
    ensures GbEncodeOpened(g, values, mine, theirs, k) == SendAll(BitMsgs(masked), GbEncodeLabels(g, masked, mine, k))
  {}

  lemma EvOpened<T>(e: EvState, values: seq<nat>, mine: seq<AuthShare>, theirs: seq<Msg>, masked: seq<bool>,
                    h: (EvState, seq<Wire>) -> Proc<T>)
    requires |values| == |mine| && AllAuthentic(mine, theirs, e.delta) && Boolean(values)
    requires masked == MaskInputs(values, mine, theirs)
    ensures EvEncodeOpened(e, values, mine, theirs, h) == SendAll(BitMsgs(masked), EvReceiveLabels(e, masked, mine, h))
  {}

  lemma MaskedArrive<A, B>(g: GbState, e: EvState, gs: seq<AuthShare>, es: seq<AuthShare>, masked: seq<bool>,
                           k: (GbState, seq<Wire>) -> Proc<A>, h: (EvState, seq<Wire>) -> Proc<B>)
    requires |masked| == |gs| == |es|
    ensures GbReceiveMasked(g, gs, BitMsgs(masked), k) == GbEncodeLabels(g, masked, gs, k)
    ensures EvReceiveMasked(e, es, BitMsgs(masked), h) == EvReceiveLabels(e, masked, es, h)
  {
    assert AllBits(BitMsgs(masked)) && BitsOf(BitMsgs(masked)) == masked;
  }

  /** The garbler's inputs enter: the evaluator opens its shares, the garbler answers
      with masked values and labels. */
  lemma GarblerInputs<A, B>(g: GbState, e: EvState, values: seq<nat>, g1: GbState, e1: EvState,
                            k: (GbState, seq<Wire>) -> Proc<A>, h: (EvState, seq<Wire>) -> Proc<B>)
    returns (gws: seq<Wire>, ews: seq<Wire>)
    requires SharesLeft(g, e, |values|) && Boolean(values)
    requires g1 == GbTake(g, |values|).(drawn := g.drawn + |values|) && e1 == EvTake(e, |values|)
    ensures WiresInv(gws, ews, BitsFromInputs(values), g.delta, e.delta)
    ensures ShareList(gws) == Taken(g.shares, g.shareIndex, |values|)
    ensures ShareList(ews) == Taken(e.shares, e.shareIndex, |values|)
    ensures Reaches(Net(GbEncodeMany(g, values, k), EvReceiveMany(e, |values|, h), [], []),
                    Net(k(g1, gws), h(e1, ews), [], []))
  {
    var n := |values|;
    var gs, es := Taken(g.shares, g.shareIndex, n), Taken(e.shares, e.shareIndex, n);
    TakenPaired(g, e, n);
    InputsMasked(values, gs, es);
    var masked := MaskInputs(values, gs, Openings(es));
    gws, ews := LabelsReach(GbTake(g, n), e1, masked, BitsFromInputs(values), gs, es, g1, k, h);
    GarblerInputsMasked(g, e, values, gs, es, masked, GbTake(g, n), e1, Net(k(g1, gws), h(e1, ews), [], []), k, h);
  }

  lemma GarblerInputsMasked<A, B>(g: GbState, e: EvState, values: seq<nat>, gs: seq<AuthShare>, es: seq<AuthShare>,
                                  masked: seq<bool>, g': GbState, e': EvState, t: Net<A, B>,
                                  k: (GbState, seq<Wire>) -> Proc<A>, h: (EvState, seq<Wire>) -> Proc<B>)
    requires g.shareIndex + |values| <= |g.shares| && e.shareIndex + |values| <= |e.shares| && Boolean(values)
    requires gs == Taken(g.shares, g.shareIndex, |values|) && es == Taken(e.shares, e.shareIndex, |values|)
    requires g' == GbTake(g, |values|) && e' == EvTake(e, |values|)
    requires AllAuthentic(gs, Openings(es), g.delta) && masked == MaskInputs(values, gs, Openings(es))
    requires Reaches(Net(GbEncodeLabels(g', masked, gs, k), EvReceiveLabels(e', masked, es, h), [], []), t)
    ensures Reaches(Net(GbEncodeMany(g, values, k), EvReceiveMany(e, |values|, h), [], []), t)
  {
    var n := |values|;
    var k1 := (theirs: seq<Msg>) => GbEncodeOpened(GbTake(g, n), values, gs, theirs, k);
    var h1 := (ms: seq<Msg>) => EvReceiveMasked(EvTake(e, n), es, ms, h);
    GbOpened(g', values, gs, Openings(es), masked, k);
    MaskedArrive(g', e', gs, es, masked, k, h);
    OpenThenMask(Openings(es), BitMsgs(masked), k1, h1, GbEncodeLabels(g', masked, gs, k));
    ReachesTrans(Net(RecvAll(n, [], k1), SendAll(Openings(es), RecvAll(n, [], h1)), [], []),
                 Net(GbEncodeLabels(g', masked, gs, k), h1(BitMsgs(masked)), [], []), t);
  }

  /** One batch from the evaluator, and the garbler's answer to it. */
  lemma OpenThenMask<A, B>(openings: seq<Msg>, bits: seq<Msg>, k: seq<Msg> -> Proc<A>, h: seq<Msg> -> Proc<B>,
                           p: Proc<A>)
    requires |openings| == |bits| && k(openings) == SendAll(bits, p)
    ensures Reaches(Net(RecvAll(|bits|, [], k), SendAll(openings, RecvAll(|bits|, [], h)), [], []),
                    Net(p, h(bits), [], []))
  {
    BatchQP(openings, [], k, RecvAll(|bits|, [], h));
    BatchPQ(bits, p, [], h);
    assert [] + openings == openings && [] + bits == bits;
    ReachesTrans(Net(RecvAll(|bits|, [], k), SendAll(openings, RecvAll(|bits|, [], h)), [], []),
                 Net(SendAll(bits, p), RecvAll(|bits|, [], h), [], []), Net(p, h(bits), [], []));
  }

  /** The evaluator's inputs enter: the garbler opens its shares, the evaluator
      answers with masked values, the garbler sends the labels. */
  lemma EvaluatorInputs<A, B>(g: GbState, e: EvState, values: seq<nat>, g1: GbState, e1: EvState,
                              k: (GbState, seq<Wire>) -> Proc<A>, h: (EvState, seq<Wire>) -> Proc<B>)
    returns (gws: seq<Wire>, ews: seq<Wire>)
    requires SharesLeft(g, e, |values|) && Boolean(values)
    requires g1 == GbTake(g, |values|).(drawn := g.drawn + |values|) && e1 == EvTake(e, |values|)
    ensures WiresInv(gws, ews, BitsFromInputs(values), g.delta, e.delta)
    ensures ShareList(gws) == Taken(g.shares, g.shareIndex, |values|)
    ensures ShareList(ews) == Taken(e.shares, e.shareIndex, |values|)
    ensures Reaches(Net(GbReceiveMany(g, |values|, k), EvEncodeMany(e, values, h), [], []),
                    Net(k(g1, gws), h(e1, ews), [], []))
  {
    var n := |values|;
    var gs, es := Taken(g.shares, g.shareIndex, n), Taken(e.shares, e.shareIndex, n);
    TakenPaired(g, e, n);
    InputsMasked(values, es, gs);
    var masked := MaskInputs(values, es, Openings(gs));
    gws, ews := LabelsReach(GbTake(g, n), e1, masked, BitsFromInputs(values), gs, es, g1, k, h);
    EvaluatorInputsMasked(g, e, values, gs, es, masked, GbTake(g, n), e1, Net(k(g1, gws), h(e1, ews), [], []), k, h);
  }

  lemma EvaluatorInputsMasked<A, B>(g: GbState, e: EvState, values: seq<nat>, gs: seq<AuthShare>, es: seq<AuthShare>,
                                    masked: seq<bool>, g': GbState, e': EvState, t: Net<A, B>,
                                    k: (GbState, seq<Wire>) -> Proc<A>, h: (EvState, seq<Wire>) -> Proc<B>)
    requires g.shareIndex + |values| <= |g.shares| && e.shareIndex + |values| <= |e.shares| && Boolean(values)
    requires gs == Taken(g.shares, g.shareIndex, |values|) && es == Taken(e.shares, e.shareIndex, |values|)
    requires g' == GbTake(g, |values|) && e' == EvTake(e, |values|)
    requires AllAuthentic(es, Openings(gs), e.delta) && masked == MaskInputs(values, es, Openings(gs))
    requires Reaches(Net(GbEncodeLabels(g', masked, gs, k), EvReceiveLabels(e', masked, es, h), [], []), t)
    ensures Reaches(Net(GbReceiveMany(g, |values|, k), EvEncodeMany(e, values, h), [], []), t)
  {
    var n := |values|;
    var k1 := (ms: seq<Msg>) => GbReceiveMasked(GbTake(g, n), gs, ms, k);
    var h1 := (theirs: seq<Msg>) => EvEncodeOpened(EvTake(e, n), values, es, theirs, h);
    EvOpened(e', values, es, Openings(gs), masked, h);
    MaskedArrive(g', e', gs, es, masked, k, h);
    OpenThenMaskBack(Openings(gs), BitMsgs(masked), k1, h1, EvReceiveLabels(e', masked, es, h));
    ReachesTrans(Net(SendAll(Openings(gs), RecvAll(n, [], k1)), RecvAll(n, [], h1), [], []),
                 Net(k1(BitMsgs(masked)), EvReceiveLabels(e', masked, es, h), [], []), t);
  }

  /** One batch from the garbler, and the evaluator's answer to it. */
  lemma OpenThenMaskBack<A, B>(openings: seq<Msg>, bits: seq<Msg>, k: seq<Msg> -> Proc<A>, h: seq<Msg> -> Proc<B>,
                               q: Proc<B>)
    requires |openings| == |bits| && h(openings) == SendAll(bits, q)
    ensures Reaches(Net(SendAll(openings, RecvAll(|bits|, [], k)), RecvAll(|bits|, [], h), [], []),
                    Net(k(bits), q, [], []))
  {
    BatchPQ(openings, RecvAll(|bits|, [], k), [], h);
    BatchQP(bits, [], k, q);
    assert [] + openings == openings && [] + bits == bits;
    ReachesTrans(Net(SendAll(openings, RecvAll(|bits|, [], k)), RecvAll(|bits|, [], h), [], []),
                 Net(RecvAll(|bits|, [], k), SendAll(bits, q), [], []), Net(k(bits), q, [], []));
  }

  /** The garbler opens its output shares and the evaluator unmasks the clear bits. */
  lemma OutputsReach<A, B>(g: GbState, e: EvState, gws: seq<Wire>, ews: seq<Wire>, vals: seq<bool>, next: Proc<A>,
                           k: seq<bool> -> Proc<B>)
    requires WiresInv(gws, ews, vals, g.delta, e.delta)
    ensures Reaches(Net(GbOutputs(gws, next), EvOutputs(e, ews, k), [], []), Net(next, k(vals), [], []))
  {
    var ms := Openings(ShareList(gws));
    OutputsClear(gws, ews, vals, g.delta, e.delta);
    var h := (theirs: seq<Msg>) => EvOutputsOpened(e, ews, theirs, k);
    BatchPQ(ms, next, [], h);
    assert [] + ms == ms;
    assert EvOutputs(e, ews, k) == RecvAll(|ms|, [], h);
  }

  /** The opened output shares are accepted and remove the masks. */
  lemma OutputsClear(gws: seq<Wire>, ews: seq<Wire>, vals: seq<bool>, dg: Label, de: Label)
    requires WiresInv(gws, ews, vals, dg, de)
    ensures AllAuthentic(ShareList(ews), Openings(ShareList(gws)), de)
    ensures Unmask(ews, Openings(ShareList(gws))) == vals
  {
    forall i | 0 <= i < |vals|
      ensures Authentic(ShareList(ews)[i], Openings(ShareList(gws))[i], de)
      ensures Unmask(ews, Openings(ShareList(gws)))[i] == vals[i]
    {
      assert WireInv(gws[i], ews[i], vals[i], dg, de);
    }
  }

  /** The evaluator once the label for one has arrived. */
  function WithOne(g: GbState, e: EvState): EvState {
    e.(one := Xor(g.zero, g.delta))
  }

  lemma SharesLeftAfter(g: GbState, e: EvState, n: nat, n': nat, drawn: nat)
    requires SharesLeft(g, e, n + n')
    ensures SharesLeft(g, e, n) && SharesLeft(GbTake(g, n).(drawn := drawn), EvTake(e, n), n')
  {}

  /** What a session starts from: the library, the two parties' states, and where their two
      preprocessors ended. */
  datatype Setup = Setup(lib: Library, g: GbState, e: EvState, gf: PreState, ef: PreState)

  /** An honest, preprocessed start: the two parties are at the beginning, hold one
      consistent share per input, AND and constant, and one triple per AND, made for
      the operands in the final states of the two preprocessors. */
  ghost predicate HonestSetup(u: Setup, gates: seq<Gate>, inputs: nat) {
    && ConstantsPaired(u.lib)
    && u.g.delta[127]
    && u.g.andIndex == u.e.andIndex == u.g.tripleIndex == u.e.tripleIndex == u.g.shareIndex == u.e.shareIndex == 0
    && WellFormed(gates, inputs)
    && |u.g.shares| == inputs + Ands(gates) + Consts(gates)
    && PairedLists(u.g.shares, u.e.shares, u.g.delta, u.e.delta)
    && PairedLists(u.g.triples, u.e.triples, u.g.delta, u.e.delta)
    && u.gf == PreRun(gates, inputs, u.g.shares, u.g.delta, u.lib.garblerConst(false, u.g.delta))
    && u.ef == PreRun(gates, inputs, u.e.shares, u.e.delta, u.lib.evaluatorConst(false, u.e.delta))
    && KnownTriples(u.g.triples, u.e.triples, u.gf, u.ef)
  }

  /** Both parties at their start. */
  function Start(u: Setup, gates: seq<Gate>, outs: seq<nat>, gin: seq<nat>, ein: seq<nat>)
    : Net<GbState, (EvState, seq<bool>)>
  {
    Net(GbMain(u.lib, u.g, gin, |ein|, gates, outs, Return<GbState>),
        EvMain(u.lib, u.e, |gin|, ein, gates, outs, Both<EvState, seq<bool>>), [], [])
  }

  /** Each party has used one share per input and AND, and every triple; exactly one share per
      constant gate is left. */
  predicate UsedUp(u: Setup, gates: seq<Gate>, inputs: nat, g: GbState, e: EvState) {
    && g.shareIndex == e.shareIndex == inputs + Ands(gates) == |u.g.shares| - Consts(gates)
    && g.tripleIndex == e.tripleIndex == Ands(gates) == |u.g.triples|
  }

  /** The clear outputs of the circuit on both parties' inputs. */
  function ClearOutputs(gates: seq<Gate>, outs: seq<nat>, gin: seq<nat>, ein: seq<nat>): seq<bool>
    requires WellFormed(gates, |gin| + |ein|) && Within(outs, |gin| + |ein| + |gates|)
  {
    Select(outs, Eval(gates, BitsFromInputs(gin) + BitsFromInputs(ein)))
  }

  /** A finished joint run: the evaluator holds the clear outputs, and what was prepared is used up. */
  predicate Correct(u: Setup, gates: seq<Gate>, outs: seq<nat>, gin: seq<nat>, ein: seq<nat>,
                    s: Net<GbState, (EvState, seq<bool>)>)
    requires WellFormed(gates, |gin| + |ein|) && Within(outs, |gin| + |ein| + |gates|)
  {
    && Finished(s)
    && s.q.value.1 == ClearOutputs(gates, outs, gin, ein)
    && UsedUp(u, gates, |gin| + |ein|, s.p.value, s.q.value.0)
  }

  lemma PickInv(gws: seq<Wire>, ews: seq<Wire>, vals: seq<bool>, outs: seq<nat>, dg: Label, de: Label)
    requires WiresInv(gws, ews, vals, dg, de) && Within(outs, |vals|)
    ensures WiresInv(PickWires(gws, outs), PickWires(ews, outs), Select(outs, vals), dg, de)
  {}

  lemma WiresConcat(gws: seq<Wire>, ews: seq<Wire>, v: seq<bool>, gws': seq<Wire>, ews': seq<Wire>, v': seq<bool>,
                    dg: Label, de: Label)
    requires WiresInv(gws, ews, v, dg, de) && WiresInv(gws', ews', v', dg, de)
    ensures WiresInv(gws + gws', ews + ews', v + v', dg, de)
  {
    forall i | 0 <= i < |v + v'|
      ensures WireInv((gws + gws')[i], (ews + ews')[i], (v + v')[i], dg, de)
    {
      if i < |v| {
        assert WireInv(gws[i], ews[i], v[i], dg, de);
      } else {
        assert WireInv(gws'[i - |v|], ews'[i - |v|], v'[i - |v|], dg, de);
      }
    }
  }

  lemma ShareListConcat(ws: seq<Wire>, ws': seq<Wire>)
    ensures ShareList(ws + ws') == ShareList(ws) + ShareList(ws')
  {}

  // ---------------------------------------------------------------- gates and outputs

  /** The outputs, once every gate is on a wire. */
  lemma FinishReaches<A, B>(g: GbState, e: EvState, gall: seq<Wire>, eall: seq<Wire>, clear: seq<bool>, outs: seq<nat>,
                            k: GbState -> Proc<A>, h: (EvState, seq<bool>) -> Proc<B>)
    requires WiresInv(gall, eall, clear, g.delta, e.delta) && Within(outs, |clear|)
    ensures Reaches(Net(GbFinish(g, gall, outs, k), EvFinish(e, eall, outs, h), [], []),
                    Net(k(g), h(e, Select(outs, clear)), [], []))
  {
    PickInv(gall, eall, clear, outs, g.delta, e.delta);
    OutputsReach(g, e, PickWires(gall, outs), PickWires(eall, outs), Select(outs, clear), k(g), Given(h, e));
  }

  /** The gates and the outputs, once all inputs are on wires. */
  lemma ComputeReaches<A, B>(lib: Library, gates: seq<Gate>, outs: seq<nat>, g: GbState, e: EvState,
                             gp: PreState, ep: PreState, gws: seq<Wire>, ews: seq<Wire>, vals: seq<bool>,
                             gf: PreState, ef: PreState, k: GbState -> Proc<A>, h: (EvState, seq<bool>) -> Proc<B>)
    returns (g': GbState, e': EvState)
    requires Ready(lib, gates, g, e, gp, ep, gws, ews, vals, gf, ef)
    requires Within(outs, |vals| + |gates|)
    ensures g'.shareIndex == e'.shareIndex == g.shareIndex + Ands(gates)
    ensures g'.tripleIndex == e'.tripleIndex == g.tripleIndex + Ands(gates)
    ensures Reaches(Net(GbCompute(lib, g, gws, gates, outs, k), EvCompute(lib, e, ews, gates, outs, h), [], []),
                    Net(k(g'), h(e', Select(outs, Eval(gates, vals))), [], []))
  {
    var k1 := (s: GbState, all: seq<Wire>) => GbFinish(s, all, outs, k);
    var h1 := (s: EvState, all: seq<Wire>) => EvFinish(s, all, outs, h);
    var gall, eall;
    g', e', gall, eall := ExecReaches(lib, gates, g, e, gp, ep, gws, ews, vals, gf, ef, k1, h1);
    FinishReaches(g', e', gall, eall, Eval(gates, vals), outs, k, h);
    ReachesTrans(Net(GbCompute(lib, g, gws, gates, outs, k), EvCompute(lib, e, ews, gates, outs, h), [], []),
                 Net(k1(g', gall), h1(e', eall), [], []),
                 Net(k(g'), h(e', Select(outs, Eval(gates, vals))), [], []));
  }

  // ---------------------------------------------------------------- both parties' inputs

  /** Every input is on a wire that carries its own share of the lists' beginning. */
  ghost predicate InputsDone(g: GbState, e: EvState, vals: seq<bool>, g': GbState, e': EvState,
                             gws: seq<Wire>, ews: seq<Wire>)
  {
    && |vals| <= |g.shares| && |vals| <= |e.shares|
    && g' == GbTake(g, |vals|).(drawn := g'.drawn) && e' == EvTake(e, |vals|)
    && WiresInv(gws, ews, vals, g.delta, e.delta)
    && ShareList(gws) == g.shares[..|vals|] && ShareList(ews) == e.shares[..|vals|]
  }

  /** After the inputs both parties stand where the preprocessor started on the gates. */
  lemma InputsReady(u: Setup, gates: seq<Gate>, n: nat, vals: seq<bool>, g': GbState, e': EvState,
                    gws: seq<Wire>, ews: seq<Wire>)
    requires HonestSetup(u, gates, n) && n == |vals|
    requires InputsDone(u.g, WithOne(u.g, u.e), vals, g', e', gws, ews)
    ensures Ready(u.lib, gates, g', e', PreInputs(u.g.shares, n, u.g.delta), PreInputs(u.e.shares, n, u.e.delta),
                  gws, ews, vals, u.gf, u.ef)
  {}

  /** The inputs `vals` are on wires that carry the shares from position `at` on. */
  ghost predicate OnWires(g: GbState, e: EvState, at: nat, vals: seq<bool>, gws: seq<Wire>, ews: seq<Wire>) {
    && at + |vals| <= |g.shares| && at + |vals| <= |e.shares|
    && WiresInv(gws, ews, vals, g.delta, e.delta)
    && ShareList(gws) == Taken(g.shares, at, |vals|) && ShareList(ews) == Taken(e.shares, at, |vals|)
  }

  lemma ConcatWires(g: GbState, e: EvState, gws: seq<Wire>, ews: seq<Wire>, v: seq<bool>,
                    gws': seq<Wire>, ews': seq<Wire>, v': seq<bool>)
    requires OnWires(g, e, 0, v, gws, ews) && OnWires(g, e, |v|, v', gws', ews')
    ensures OnWires(g, e, 0, v + v', gws + gws', ews + ews')
  {
    WiresConcat(gws, ews, v, gws', ews', v', g.delta, e.delta);
    ShareListConcat(gws, gws');
    ShareListConcat(ews, ews');
    var n, n' := |v|, |v'|;
    assert Taken(g.shares, 0, n) + Taken(g.shares, n, n') == Taken(g.shares, 0, n + n');
    assert Taken(e.shares, 0, n) + Taken(e.shares, n, n') == Taken(e.shares, 0, n + n');
  }

  lemma AllOnWires(g: GbState, e: EvState, vals: seq<bool>, g2: GbState, e2: EvState, gws: seq<Wire>, ews: seq<Wire>)
    requires OnWires(g, e, 0, vals, gws, ews)
    requires g2 == GbTake(g, |vals|).(drawn := g2.drawn) && e2 == EvTake(e, |vals|)
    ensures InputsDone(g, e, vals, g2, e2, gws, ews)
  {}

  /** The first half: the garbler's inputs. */
  lemma MyInputsReach<A, B>(gin: seq<nat>, ein: seq<nat>, g: GbState, e: EvState, g1: GbState, e1: EvState,
                            k: (GbState, seq<Wire>) -> Proc<A>, h: (EvState, seq<Wire>) -> Proc<B>)
    returns (gws: seq<Wire>, ews: seq<Wire>)
    requires SharesLeft(g, e, |gin|) && Boolean(gin)
    requires g1 == GbTake(g, |gin|).(drawn := g.drawn + |gin|) && e1 == EvTake(e, |gin|)
    ensures OnWires(g, e, g.shareIndex, BitsFromInputs(gin), gws, ews)
    ensures Reaches(Net(GbInputs(g, gin, |ein|, k), EvInputs(e, |gin|, ein, h), [], []),
                    Net(GbTheirInputs(g1, gws, |ein|, k), EvMyInputs(e1, ews, ein, h), [], []))
  {
    var k1 := (s: GbState, mine: seq<Wire>) => GbTheirInputs(s, mine, |ein|, k);
    var h1 := (s: EvState, ws: seq<Wire>) => EvMyInputs(s, ws, ein, h);
    gws, ews := GarblerInputs(g, e, gin, g1, e1, k1, h1);
  }

  /** The second half: the evaluator's inputs. */
  lemma TheirInputsReach<A, B>(ein: seq<nat>, g: GbState, e: EvState, gws: seq<Wire>, ews: seq<Wire>, g2: GbState,
                               e2: EvState, k: (GbState, seq<Wire>) -> Proc<A>, h: (EvState, seq<Wire>) -> Proc<B>)
    returns (gws': seq<Wire>, ews': seq<Wire>)
    requires SharesLeft(g, e, |ein|) && Boolean(ein)
    requires g2 == GbTake(g, |ein|).(drawn := g.drawn + |ein|) && e2 == EvTake(e, |ein|)
    ensures OnWires(g, e, g.shareIndex, BitsFromInputs(ein), gws', ews')
    ensures Reaches(Net(GbTheirInputs(g, gws, |ein|, k), EvMyInputs(e, ews, ein, h), [], []),
                    Net(k(g2, gws + gws'), h(e2, ews + ews'), [], []))
  {
    var k2 := (s: GbState, ws: seq<Wire>) => k(s, gws + ws);
    var h2 := (s: EvState, ws: seq<Wire>) => h(s, ews + ws);
    gws', ews' := EvaluatorInputs(g, e, ein, g2, e2, k2, h2);
  }

  /** Both parties' inputs. */
  lemma InputsReach<A, B>(gin: seq<nat>, ein: seq<nat>, g: GbState, e: EvState, g1: GbState, e1: EvState,
                          g2: GbState, e2: EvState,
                          k: (GbState, seq<Wire>) -> Proc<A>, h: (EvState, seq<Wire>) -> Proc<B>)
    returns (gws: seq<Wire>, ews: seq<Wire>)
    requires SharesLeft(g, e, |gin|) && SharesLeft(g1, e1, |ein|) && Boolean(gin) && Boolean(ein) && g.shareIndex == 0
    requires g1 == GbTake(g, |gin|).(drawn := g.drawn + |gin|) && e1 == EvTake(e, |gin|)
    requires g2 == GbTake(g1, |ein|).(drawn := g1.drawn + |ein|) && e2 == EvTake(e1, |ein|)
    ensures OnWires(g, e, 0, BitsFromInputs(gin) + BitsFromInputs(ein), gws, ews)
    ensures Reaches(Net(GbInputs(g, gin, |ein|, k), EvInputs(e, |gin|, ein, h), [], []),
                    Net(k(g2, gws), h(e2, ews), [], []))
  {
    var gws1, ews1 := MyInputsReach(gin, ein, g, e, g1, e1, k, h);
    var gws2, ews2 := TheirInputsReach(ein, g1, e1, gws1, ews1, g2, e2, k, h);
    gws, ews := gws1 + gws2, ews1 + ews2;
    ConcatWires(g, e, gws1, ews1, BitsFromInputs(gin), gws2, ews2, BitsFromInputs(ein));
    ReachesTrans(Net(GbInputs(g, gin, |ein|, k), EvInputs(e, |gin|, ein, h), [], []),
                 Net(GbTheirInputs(g1, gws1, |ein|, k), EvMyInputs(e1, ews1, ein, h), [], []),
                 Net(k(g2, gws), h(e2, ews), [], []));
  }

  lemma SetupShares(u: Setup, gates: seq<Gate>, inputs: nat)
    requires HonestSetup(u, gates, inputs)
    ensures SharesLeft(u.g, WithOne(u.g, u.e), inputs) && u.g.shareIndex == 0 && u.g.tripleIndex == 0
    ensures |u.g.triples| == Ands(gates)
  {}

  // ---------------------------------------------------------------- the whole run

  /** After the label for one the inputs go through. */
  lemma SetupInputsReach<A, B>(u: Setup, gates: seq<Gate>, gin: seq<nat>, ein: seq<nat>, n: nat, vals: seq<bool>,
                               e1: EvState, k: (GbState, seq<Wire>) -> Proc<A>, h: (EvState, seq<Wire>) -> Proc<B>)
    returns (g2: GbState, e2: EvState, gws: seq<Wire>, ews: seq<Wire>)
    requires HonestSetup(u, gates, n) && Boolean(gin) && Boolean(ein)
    requires n == |gin| + |ein| && vals == BitsFromInputs(gin) + BitsFromInputs(ein) && e1 == WithOne(u.g, u.e)
    ensures OnWires(u.g, e1, 0, vals, gws, ews)
    ensures g2 == GbTake(u.g, n).(drawn := g2.drawn) && e2 == EvTake(e1, n)
    ensures Reaches(Net(GbInputs(u.g, gin, |ein|, k), EvInputs(e1, |gin|, ein, h), [], []),
                    Net(k(g2, gws), h(e2, ews), [], []))
  {
    var g1 := GbTake(u.g, |gin|).(drawn := u.g.drawn + |gin|);
    SetupShares(u, gates, n);
    SharesLeftAfter(u.g, e1, |gin|, |ein|, g1.drawn);
    g2, e2 := GbTake(g1, |ein|).(drawn := g1.drawn + |ein|), EvTake(EvTake(e1, |gin|), |ein|);
    gws, ews := InputsReach(gin, ein, u.g, e1, g1, EvTake(e1, |gin|), g2, e2, k, h);
  }

  /** With the inputs on wires both parties are ready for the gates. */
  lemma ReadyReached(u: Setup, gates: seq<Gate>, n: nat, vals: seq<bool>, e1: EvState, g2: GbState, e2: EvState,
                     gws: seq<Wire>, ews: seq<Wire>)
    requires HonestSetup(u, gates, n) && n == |vals| && e1 == WithOne(u.g, u.e)
    requires OnWires(u.g, e1, 0, vals, gws, ews)
    requires g2 == GbTake(u.g, n).(drawn := g2.drawn) && e2 == EvTake(e1, n)
    ensures Ready(u.lib, gates, g2, e2, PreInputs(u.g.shares, n, u.g.delta), PreInputs(u.e.shares, n, u.e.delta),
                  gws, ews, vals, u.gf, u.ef)
    ensures g2.shareIndex == n && g2.tripleIndex == 0 && |u.g.triples| == Ands(gates)
  {
    AllOnWires(u.g, e1, vals, g2, e2, gws, ews);
    InputsReady(u, gates, n, vals, g2, e2, gws, ews);
    SetupShares(u, gates, n);
  }

  lemma InputsPhase<A, B>(u: Setup, gates: seq<Gate>, gin: seq<nat>, ein: seq<nat>, n: nat, vals: seq<bool>,
                          e1: EvState, k: (GbState, seq<Wire>) -> Proc<A>, h: (EvState, seq<Wire>) -> Proc<B>)
    returns (g2: GbState, e2: EvState, gws: seq<Wire>, ews: seq<Wire>)
    requires HonestSetup(u, gates, n) && Boolean(gin) && Boolean(ein)
    requires n == |gin| + |ein| && vals == BitsFromInputs(gin) + BitsFromInputs(ein) && e1 == WithOne(u.g, u.e)
    ensures g2.shareIndex == n && g2.tripleIndex == 0 && |u.g.triples| == Ands(gates)
    ensures Ready(u.lib, gates, g2, e2, PreInputs(u.g.shares, n, u.g.delta), PreInputs(u.e.shares, n, u.e.delta),
                  gws, ews, vals, u.gf, u.ef)
    ensures Reaches(Net(GbInputs(u.g, gin, |ein|, k), EvInputs(e1, |gin|, ein, h), [], []),
                    Net(k(g2, gws), h(e2, ews), [], []))
  {
    g2, e2, gws, ews := SetupInputsReach(u, gates, gin, ein, n, vals, e1, k, h);
    ReadyReached(u, gates, n, vals, e1, g2, e2, gws, ews);
  }

  /** After the label for one: inputs, gates and outputs go through. */
  lemma SessionReaches<A, B>(u: Setup, gates: seq<Gate>, outs: seq<nat>, gin: seq<nat>, ein: seq<nat>, n: nat,
                             e1: EvState, k: GbState -> Proc<A>, h: (EvState, seq<bool>) -> Proc<B>)
    returns (g': GbState, e': EvState)
    requires HonestSetup(u, gates, n) && n == |gin| + |ein| && e1 == WithOne(u.g, u.e)
    requires Boolean(gin) && Boolean(ein) && Within(outs, n + |gates|)
    ensures UsedUp(u, gates, n, g', e')
    ensures Reaches(Net(GbAfterOne(u.lib, u.g, gin, |ein|, gates, outs, k),
                        EvAfterOne(u.lib, e1, |gin|, ein, gates, outs, h), [], []),
                    Net(k(g'), h(e', ClearOutputs(gates, outs, gin, ein)), [], []))
  {
    var vals := BitsFromInputs(gin) + BitsFromInputs(ein);
    var k1 := (s: GbState, inputs: seq<Wire>) => GbCompute(u.lib, s, inputs, gates, outs, k);
    var h1 := (s: EvState, inputs: seq<Wire>) => EvCompute(u.lib, s, inputs, gates, outs, h);
    var g2, e2, gws, ews := InputsPhase(u, gates, gin, ein, n, vals, e1, k1, h1);
    g', e' := ComputeReaches(u.lib, gates, outs, g2, e2, PreInputs(u.g.shares, n, u.g.delta),
                             PreInputs(u.e.shares, n, u.e.delta), gws, ews, vals, u.gf, u.ef, k, h);
    SetupShares(u, gates, n);
    ReachesTrans(Net(GbInputs(u.g, gin, |ein|, k1), EvInputs(e1, |gin|, ein, h1), [], []),
                 Net(k1(g2, gws), h1(e2, ews), [], []),
                 Net(k(g'), h(e', ClearOutputs(gates, outs, gin, ein)), [], []));
  }

  /** One session as a part of a longer run: whatever the parties do next, they get there, and
      the evaluator has the clear outputs. */
  lemma RunReaches<A, B>(u: Setup, gates: seq<Gate>, outs: seq<nat>, gin: seq<nat>, ein: seq<nat>,
                         k: GbState -> Proc<A>, h: (EvState, seq<bool>) -> Proc<B>)
    returns (g': GbState, e': EvState)
    requires HonestSetup(u, gates, |gin| + |ein|)
    requires Boolean(gin) && Boolean(ein) && Within(outs, |gin| + |ein| + |gates|)
    ensures UsedUp(u, gates, |gin| + |ein|, g', e')
    ensures Reaches(Net(GbMain(u.lib, u.g, gin, |ein|, gates, outs, k), EvMain(u.lib, u.e, |gin|, ein, gates, outs, h),
                        [], []),
                    Net(k(g'), h(e', ClearOutputs(gates, outs, gin, ein)), [], []))
  {
    g', e' := SessionReaches(u, gates, outs, gin, ein, |gin| + |ein|, WithOne(u.g, u.e), k, h);
    var p := GbMain(u.lib, u.g, gin, |ein|, gates, outs, k);
    PassPQ(p, EvMain(u.lib, u.e, |gin|, ein, gates, outs, h),
           Net(k(g'), h(e', ClearOutputs(gates, outs, gin, ein)), [], []));
  }

  /** One schedule that runs the whole protocol to the end. */
  lemma SomeRunFinishes(u: Setup, gates: seq<Gate>, outs: seq<nat>, gin: seq<nat>, ein: seq<nat>)
    returns (moves: seq<Move>)
    requires HonestSetup(u, gates, |gin| + |ein|)
    requires Boolean(gin) && Boolean(ein) && Within(outs, |gin| + |ein| + |gates|)
    ensures Schedule(Start(u, gates, outs, gin, ein), moves)
    ensures Correct(u, gates, outs, gin, ein, Run(Start(u, gates, outs, gin, ein), moves))
  {
    var start := Start(u, gates, outs, gin, ein);
    var g', e' := RunReaches(u, gates, outs, gin, ein, Return<GbState>, Both<EvState, seq<bool>>);
    moves :| Schedule(start, moves)
          && Run(start, moves) == Net(Return(g'), Both(e', ClearOutputs(gates, outs, gin, ein)), [], []);
  }

  /** The engine's correctness. From an honest setup, in every interleaving of the two
      parties' steps, no party has aborted at any point; the run can always be
      completed, by `rest`, to one where the evaluator holds exactly the clear
      evaluation of the circuit; and a run that can go no further is such a run. */
  lemma EveryRunIsCorrect(u: Setup, gates: seq<Gate>, outs: seq<nat>, gin: seq<nat>, ein: seq<nat>, soFar: seq<Move>)
    returns (rest: seq<Move>)
    requires HonestSetup(u, gates, |gin| + |ein|)
    requires Boolean(gin) && Boolean(ein) && Within(outs, |gin| + |ein| + |gates|)
    requires Schedule(Start(u, gates, outs, gin, ein), soFar)
    ensures
      var now := Run(Start(u, gates, outs, gin, ein), soFar);
      && !Aborted(now)
      && Schedule(now, rest)
      && Correct(u, gates, outs, gin, ein, Run(now, rest))
      && (Quiescent(now) ==> rest == [])
  {
    var start := Start(u, gates, outs, gin, ein);
    var moves := SomeRunFinishes(u, gates, outs, gin, ein);
    rest := EveryScheduleFinishes(start, moves, soFar);
  }
}
