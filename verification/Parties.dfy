/** The garbler, the evaluator and the wire preprocessor as processes: which
    messages each one sends and expects, and what it keeps, operation by operation.
    `k` is what the party does next. */
module Parties {
  import opened Bits
  import opened Circuit
  import opened Network
  import opened Shares

  datatype Wire = Wire(value: bool, lab: Label, share: AuthShare)

  // ---------------------------------------------------------------- state

  datatype GbState = GbState(
    delta: Label,
    zero: Label,
    andIndex: nat,
    shares: seq<AuthShare>,
    shareIndex: nat,
    triples: seq<AuthShare>,
    tripleIndex: nat,
    rand: nat -> Label,
    drawn: nat)

  datatype EvState = EvState(
    delta: Label,
    one: Label,
    andIndex: nat,
    shares: seq<AuthShare>,
    shareIndex: nat,
    triples: seq<AuthShare>,
    tripleIndex: nat)

  datatype PreState = PreState(
    shares: seq<AuthShare>,
    shareIndex: nat,
    left: seq<AuthShare>,
    right: seq<AuthShare>,
    delta: Label)

  // ---------------------------------------------------------------- gate algebra

  function ValidationShare(c: AuthShare, a: Wire, b: Wire, triple: AuthShare, share: AuthShare): AuthShare {
    XorShare(XorShare(XorShare(XorShare(c, MulConst(a.share, b.value)), MulConst(b.share, a.value)), triple), share)
  }

  function Gate0(lib: Library, delta: Label, i: nat, a: Wire, b: Wire): Label {
    Xor(Xor(Xor(lib.hash(a.lab, i), lib.hash(Xor(a.lab, delta), i)), b.share.key), Times(b.share.bit, delta))
  }

  function Gate1(lib: Library, delta: Label, i: nat, a: Wire, b: Wire): Label {
    Xor(Xor(Xor(Xor(lib.hash(b.lab, i), lib.hash(Xor(b.lab, delta), i)), a.share.key), Times(a.share.bit, delta)),
        a.lab)
  }

  function ZeroLabel(lib: Library, delta: Label, i: nat, a: Wire, b: Wire, c: AuthShare, t: AuthShare): Label {
    Xor(Xor(Xor(Xor(Xor(lib.hash(a.lab, i), lib.hash(b.lab, i)), c.key), Times(c.bit, delta)), t.key),
        Times(t.bit, delta))
  }

  /** The label the evaluator computes from the two garbled rows it received. */
  function EvaluatedLabel(lib: Library, i: nat, a: Wire, b: Wire, c: AuthShare, t: AuthShare, row0: Label,
                          row1: Label): Label {
    var gate0 := Xor(row0, b.share.mac);
    var gate1 := Xor(row1, a.share.mac);
    Xor(Xor(Xor(Xor(Xor(lib.hash(a.lab, i), lib.hash(b.lab, i)), c.mac), t.mac),
            Times(a.value, gate0)), Times(b.value, Xor(gate1, a.lab)))
  }

  // ---------------------------------------------------------------- taking shares

  function Taken(shares: seq<AuthShare>, at: nat, n: nat): seq<AuthShare>
    requires at + n <= |shares|
  {
    shares[at..at + n]
  }

  function GbTake(g: GbState, n: nat): GbState {
    g.(shareIndex := g.shareIndex + n)
  }

  function EvTake(e: EvState, n: nat): EvState {
    e.(shareIndex := e.shareIndex + n)
  }

  // ---------------------------------------------------------------- garbler

  function GbXor(x: Wire, y: Wire): Wire {
    Wire(x.value != y.value, Xor(x.lab, y.lab), XorShare(x.share, y.share))
  }

  function GbNegate(st: GbState, x: Wire): Wire {
    Wire(!x.value, Xor(x.lab, st.zero), x.share)
  }

  /** The cursors after an AND. */
  function GbAfterAnd(g: GbState): GbState {
    g.(andIndex := g.andIndex + 1, shareIndex := g.shareIndex + 1, tripleIndex := g.tripleIndex + 1)
  }

  function GbAnd<T>(lib: Library, st: GbState, a: Wire, b: Wire, k: (GbState, Wire) -> Proc<T>): Proc<T> {
    if st.shareIndex >= |st.shares| || st.tripleIndex >= |st.triples| then Fail
    else
      var share := st.shares[st.shareIndex];
      var triple := st.triples[st.tripleIndex];
      var zeroLabel := ZeroLabel(lib, st.delta, st.andIndex, a, b, share, triple);
      var st' := GbAfterAnd(st);
      SendGate(Gate0(lib, st.delta, st.andIndex, a, b), Gate1(lib, st.delta, st.andIndex, a, b), Lsb(zeroLabel),
               (m: Msg) => GbAndReply(lib, st', a, b, share, triple, zeroLabel, m, k))
  }

  /** A garbled gate is two rows and the permute bit; the masked value comes back. */
  function SendGate<T>(row0: Label, row1: Label, permute: bool, k: Msg -> Proc<T>): Proc<T> {
    Send(LabelMsg(row0), Send(LabelMsg(row1), Send(BitMsg(permute), Recv(k))))
  }

  /** The second half of the garbler's AND: the masked value arrived. */
  function GbAndReply<T>(lib: Library, st: GbState, a: Wire, b: Wire, share: AuthShare, triple: AuthShare,
                         zeroLabel: Label, m: Msg, k: (GbState, Wire) -> Proc<T>): Proc<T>
  {
    if !m.BitMsg? then Fail
    else
      var c := lib.garblerConst((a.value && b.value) != m.b, st.delta);
      var v := ValidationShare(c, a, b, triple, share);
      Send(Opening(v), Recv((o: Msg) =>
        if Authentic(v, o, st.delta) && v.bit == o.bit then k(st, Wire(m.b, zeroLabel, share)) else Fail))
  }

  function GbConstant<T>(lib: Library, st: GbState, value: bool, k: (GbState, Wire) -> Proc<T>): Proc<T> {
    var zeroLabel := st.rand(st.drawn);
    Send(LabelMsg(Xor(zeroLabel, Times(value, st.delta))),
         k(st.(drawn := st.drawn + 1), Wire(value, zeroLabel, lib.garblerConst(false, st.delta))))
  }

  function GbLabels(st: GbState, values: seq<bool>): (r: seq<Msg>)
    ensures |r| == |values|
  {
    seq(|values|, i requires 0 <= i < |values| => LabelMsg(Xor(st.rand(st.drawn + i), Times(values[i], st.delta))))
  }

  function GbWires(st: GbState, values: seq<bool>, shares: seq<AuthShare>): (r: seq<Wire>)
    requires |values| == |shares|
    ensures |r| == |values|
  {
    seq(|values|, i requires 0 <= i < |values| => Wire(values[i], st.rand(st.drawn + i), shares[i]))
  }

  /** Sends the labels that stand for the masked values and keeps the zero labels. */
  function GbEncodeLabels<T>(st: GbState, values: seq<bool>, shares: seq<AuthShare>,
                             k: (GbState, seq<Wire>) -> Proc<T>): Proc<T>
    requires |values| == |shares|
  {
    SendAll(GbLabels(st, values), k(st.(drawn := st.drawn + |values|), GbWires(st, values, shares)))
  }

  function Openings(shares: seq<AuthShare>): (r: seq<Msg>)
    ensures |r| == |shares|
  {
    seq(|shares|, i requires 0 <= i < |shares| => Opening(shares[i]))
  }

  predicate AllAuthentic(mine: seq<AuthShare>, theirs: seq<Msg>, delta: Label) {
    |mine| == |theirs| && forall i :: 0 <= i < |mine| ==> Authentic(mine[i], theirs[i], delta)
  }

  /** The masked inputs: input bit, own share bit and the opened share bit, xored. */
  function MaskInputs(values: seq<nat>, mine: seq<AuthShare>, theirs: seq<Msg>): (r: seq<bool>)
    requires |values| == |mine| == |theirs|
    requires forall i :: 0 <= i < |theirs| ==> theirs[i].OpenMsg?
    ensures |r| == |values|
  {
    seq(|values|, i requires 0 <= i < |values| => (theirs[i].bit != mine[i].bit) != (values[i] == 1))
  }

  predicate Boolean(values: seq<nat>) {
    forall i :: 0 <= i < |values| ==> values[i] < 2
  }

  function BitMsgs(bits: seq<bool>): (r: seq<Msg>)
    ensures |r| == |bits|
  {
    seq(|bits|, i requires 0 <= i < |bits| => BitMsg(bits[i]))
  }

  predicate AllBits(ms: seq<Msg>) {
    forall i :: 0 <= i < |ms| ==> ms[i].BitMsg?
  }

  function BitsOf(ms: seq<Msg>): (r: seq<bool>)
    requires AllBits(ms)
    ensures |r| == |ms|
  {
    seq(|ms|, i requires 0 <= i < |ms| => ms[i].b)
  }

  function GbEncodeMany<T>(st: GbState, values: seq<nat>, k: (GbState, seq<Wire>) -> Proc<T>): Proc<T> {
    var n := |values|;
    if st.shareIndex + n > |st.shares| then Fail
    else
      var mine := Taken(st.shares, st.shareIndex, n);
      RecvAll(n, [], (theirs: seq<Msg>) => GbEncodeOpened(GbTake(st, n), values, mine, theirs, k))
  }

  /** The evaluator's shares were opened: mask the inputs and send them. */
  function GbEncodeOpened<T>(st: GbState, values: seq<nat>, mine: seq<AuthShare>, theirs: seq<Msg>,
                             k: (GbState, seq<Wire>) -> Proc<T>): Proc<T>
  {
    if |values| == |mine| && AllAuthentic(mine, theirs, st.delta) && Boolean(values) then
      var masked := MaskInputs(values, mine, theirs);
      SendAll(BitMsgs(masked), GbEncodeLabels(st, masked, mine, k))
    else Fail
  }

  function GbReceiveMany<T>(st: GbState, n: nat, k: (GbState, seq<Wire>) -> Proc<T>): Proc<T> {
    if st.shareIndex + n > |st.shares| then Fail
    else
      var mine := Taken(st.shares, st.shareIndex, n);
      SendAll(Openings(mine), RecvAll(n, [], (ms: seq<Msg>) => GbReceiveMasked(GbTake(st, n), mine, ms, k)))
  }

  function GbReceiveMasked<T>(st: GbState, mine: seq<AuthShare>, ms: seq<Msg>,
                              k: (GbState, seq<Wire>) -> Proc<T>): Proc<T> {
    if AllBits(ms) && |ms| == |mine| then GbEncodeLabels(st, BitsOf(ms), mine, k) else Fail
  }

  function ShareList(ws: seq<Wire>): (r: seq<AuthShare>)
    ensures |r| == |ws|
  {
    seq(|ws|, i requires 0 <= i < |ws| => ws[i].share)
  }

  function GbOutputs<T>(ws: seq<Wire>, next: Proc<T>): Proc<T> {
    SendAll(Openings(ShareList(ws)), next)
  }

  function GbExec<T>(lib: Library, gates: seq<Gate>, st: GbState, ws: seq<Wire>,
                     k: (GbState, seq<Wire>) -> Proc<T>): Proc<T>
    decreases |gates|
  {
    if gates == [] then k(st, ws)
    else if !ReadsBelow(gates[0], |ws|) then Fail
    else match gates[0]
      case XorGate(a, b) => GbExec(lib, gates[1..], st, ws + [GbXor(ws[a], ws[b])], k)
      case InvGate(a) => GbExec(lib, gates[1..], st, ws + [GbNegate(st, ws[a])], k)
      case AndGate(a, b) =>
        GbAnd(lib, st, ws[a], ws[b], (s: GbState, w: Wire) => GbExec(lib, gates[1..], s, ws + [w], k))
      case ConstGate(v) =>
        GbConstant(lib, st, v, (s: GbState, w: Wire) => GbExec(lib, gates[1..], s, ws + [w], k))
  }

  function PickWires(ws: seq<Wire>, outs: seq<nat>): (r: seq<Wire>)
    requires Within(outs, |ws|)
    ensures |r| == |outs|
  {
    seq(|outs|, i requires 0 <= i < |outs| => ws[outs[i]])
  }

  /** Its own inputs, then the evaluator's. */
  function GbInputs<T>(st: GbState, values: seq<nat>, theirs: nat, k: (GbState, seq<Wire>) -> Proc<T>): Proc<T> {
    GbEncodeMany(st, values, (s: GbState, mine: seq<Wire>) => GbTheirInputs(s, mine, theirs, k))
  }

  function GbTheirInputs<T>(st: GbState, mine: seq<Wire>, theirs: nat, k: (GbState, seq<Wire>) -> Proc<T>): Proc<T> {
    GbReceiveMany(st, theirs, (s: GbState, ws: seq<Wire>) => k(s, mine + ws))
  }

  /** The garbler's whole run, from the label for one to the opened outputs. */
  function GbMain<T>(lib: Library, st: GbState, values: seq<nat>, theirs: nat, gates: seq<Gate>, outs: seq<nat>,
                     k: GbState -> Proc<T>): Proc<T>
  {
    Send(LabelMsg(Xor(st.zero, st.delta)), GbAfterOne(lib, st, values, theirs, gates, outs, k))
  }

  function GbAfterOne<T>(lib: Library, st: GbState, values: seq<nat>, theirs: nat, gates: seq<Gate>, outs: seq<nat>,
                         k: GbState -> Proc<T>): Proc<T>
  {
    GbInputs(st, values, theirs, (s: GbState, inputs: seq<Wire>) => GbCompute(lib, s, inputs, gates, outs, k))
  }

  function GbCompute<T>(lib: Library, st: GbState, inputs: seq<Wire>, gates: seq<Gate>, outs: seq<nat>,
                        k: GbState -> Proc<T>): Proc<T>
  {
    GbExec(lib, gates, st, inputs, (s: GbState, all: seq<Wire>) => GbFinish(s, all, outs, k))
  }

  function GbFinish<T>(st: GbState, all: seq<Wire>, outs: seq<nat>, k: GbState -> Proc<T>): Proc<T> {
    if Within(outs, |all|) then GbOutputs(PickWires(all, outs), k(st)) else Fail
  }

  // ---------------------------------------------------------------- evaluator

  function EvXor(x: Wire, y: Wire): Wire {
    Wire(x.value != y.value, Xor(x.lab, y.lab), XorShare(x.share, y.share))
  }

  function EvNegate(st: EvState, x: Wire): Wire {
    Wire(!x.value, Xor(x.lab, st.one), x.share)
  }

  function EvAfterAnd(e: EvState): EvState {
    e.(andIndex := e.andIndex + 1, shareIndex := e.shareIndex + 1, tripleIndex := e.tripleIndex + 1)
  }

  function EvAnd<T>(lib: Library, st: EvState, a: Wire, b: Wire, k: (EvState, Wire) -> Proc<T>): Proc<T> {
    if st.shareIndex >= |st.shares| || st.tripleIndex >= |st.triples| then Fail
    else
      var share := st.shares[st.shareIndex];
      var triple := st.triples[st.tripleIndex];
      var st' := EvAfterAnd(st);
      RecvGate((row0: Label, row1: Label, permute: bool) =>
        EvAndReply(lib, st', a, b, share, triple,
                   EvaluatedLabel(lib, st.andIndex, a, b, share, triple, row0, row1), permute, k))
  }

  function RecvGate<T>(k: (Label, Label, bool) -> Proc<T>): Proc<T> {
    Recv((r0: Msg) => if !r0.LabelMsg? then Fail else
    Recv((r1: Msg) => if !r1.LabelMsg? then Fail else
    Recv((r2: Msg) => if !r2.BitMsg? then Fail else k(r0.lab, r1.lab, r2.b))))
  }

  /** The second half of the evaluator's AND: it knows its output label. */
  function EvAndReply<T>(lib: Library, st: EvState, a: Wire, b: Wire, share: AuthShare, triple: AuthShare,
                         lab: Label, permute: bool, k: (EvState, Wire) -> Proc<T>): Proc<T>
  {
    var value := Lsb(lab) != permute;
    var c := lib.evaluatorConst((a.value && b.value) != value, st.delta);
    var v := ValidationShare(c, a, b, triple, share);
    Send(BitMsg(value), Send(Opening(v), Recv((o: Msg) =>
      if Authentic(v, o, st.delta) && v.bit == o.bit then k(st, Wire(value, lab, share)) else Fail)))
  }

  function EvConstant<T>(lib: Library, st: EvState, value: bool, k: (EvState, Wire) -> Proc<T>): Proc<T> {
    Recv((m: Msg) => if m.LabelMsg? then k(st, Wire(value, m.lab, lib.evaluatorConst(false, st.delta))) else Fail)
  }

  predicate AllLabels(ms: seq<Msg>) {
    forall i :: 0 <= i < |ms| ==> ms[i].LabelMsg?
  }

  function EvWires(values: seq<bool>, labels: seq<Msg>, shares: seq<AuthShare>): (r: seq<Wire>)
    requires |values| == |labels| == |shares| && AllLabels(labels)
    ensures |r| == |values|
  {
    seq(|values|, i requires 0 <= i < |values| => Wire(values[i], labels[i].lab, shares[i]))
  }

  function EvReceiveLabels<T>(st: EvState, values: seq<bool>, shares: seq<AuthShare>,
                              k: (EvState, seq<Wire>) -> Proc<T>): Proc<T>
    requires |values| == |shares|
  {
    RecvAll(|values|, [], (ms: seq<Msg>) => EvLabelsRead(st, values, shares, ms, k))
  }

  function EvLabelsRead<T>(st: EvState, values: seq<bool>, shares: seq<AuthShare>, ms: seq<Msg>,
                           k: (EvState, seq<Wire>) -> Proc<T>): Proc<T>
    requires |values| == |shares|
  {
    if AllLabels(ms) && |ms| == |values| then k(st, EvWires(values, ms, shares)) else Fail
  }

  function EvEncodeMany<T>(st: EvState, values: seq<nat>, k: (EvState, seq<Wire>) -> Proc<T>): Proc<T> {
    var n := |values|;
    if st.shareIndex + n > |st.shares| then Fail
    else
      var mine := Taken(st.shares, st.shareIndex, n);
      RecvAll(n, [], (theirs: seq<Msg>) => EvEncodeOpened(EvTake(st, n), values, mine, theirs, k))
  }

  /** The garbler's shares were opened: mask the inputs and send them. */
  function EvEncodeOpened<T>(st: EvState, values: seq<nat>, mine: seq<AuthShare>, theirs: seq<Msg>,
                             k: (EvState, seq<Wire>) -> Proc<T>): Proc<T>
  {
    if |values| == |mine| && AllAuthentic(mine, theirs, st.delta) && Boolean(values) then
      var masked := MaskInputs(values, mine, theirs);
      SendAll(BitMsgs(masked), EvReceiveLabels(st, masked, mine, k))
    else Fail
  }

  function EvReceiveMany<T>(st: EvState, n: nat, k: (EvState, seq<Wire>) -> Proc<T>): Proc<T> {
    if st.shareIndex + n > |st.shares| then Fail
    else
      var mine := Taken(st.shares, st.shareIndex, n);
      SendAll(Openings(mine), RecvAll(n, [], (ms: seq<Msg>) => EvReceiveMasked(EvTake(st, n), mine, ms, k)))
  }

  function EvReceiveMasked<T>(st: EvState, mine: seq<AuthShare>, ms: seq<Msg>,
                              k: (EvState, seq<Wire>) -> Proc<T>): Proc<T> {
    if AllBits(ms) && |ms| == |mine| then EvReceiveLabels(st, BitsOf(ms), mine, k) else Fail
  }

  /** The evaluator unmasks each output with the garbler's opened share and its own. */
  function Unmask(ws: seq<Wire>, theirs: seq<Msg>): (r: seq<bool>)
    requires |ws| == |theirs|
    requires forall i :: 0 <= i < |theirs| ==> theirs[i].OpenMsg?
    ensures |r| == |ws|
  {
    seq(|ws|, i requires 0 <= i < |ws| => (theirs[i].bit != ws[i].value) != ws[i].share.bit)
  }

  function EvOutputs<T>(st: EvState, ws: seq<Wire>, k: seq<bool> -> Proc<T>): Proc<T> {
    RecvAll(|ws|, [], (theirs: seq<Msg>) => EvOutputsOpened(st, ws, theirs, k))
  }

  function EvOutputsOpened<T>(st: EvState, ws: seq<Wire>, theirs: seq<Msg>, k: seq<bool> -> Proc<T>): Proc<T> {
    if AllAuthentic(ShareList(ws), theirs, st.delta) then k(Unmask(ws, theirs)) else Fail
  }

  function EvExec<T>(lib: Library, gates: seq<Gate>, st: EvState, ws: seq<Wire>,
                     k: (EvState, seq<Wire>) -> Proc<T>): Proc<T>
    decreases |gates|
  {
    if gates == [] then k(st, ws)
    else if !ReadsBelow(gates[0], |ws|) then Fail
    else match gates[0]
      case XorGate(a, b) => EvExec(lib, gates[1..], st, ws + [EvXor(ws[a], ws[b])], k)
      case InvGate(a) => EvExec(lib, gates[1..], st, ws + [EvNegate(st, ws[a])], k)
      case AndGate(a, b) =>
        EvAnd(lib, st, ws[a], ws[b], (s: EvState, w: Wire) => EvExec(lib, gates[1..], s, ws + [w], k))
      case ConstGate(v) =>
        EvConstant(lib, st, v, (s: EvState, w: Wire) => EvExec(lib, gates[1..], s, ws + [w], k))
  }

  /** The garbler's inputs, then its own. */
  function EvInputs<T>(st: EvState, theirs: nat, values: seq<nat>, k: (EvState, seq<Wire>) -> Proc<T>): Proc<T> {
    EvReceiveMany(st, theirs, (s: EvState, ws: seq<Wire>) => EvMyInputs(s, ws, values, k))
  }

  function EvMyInputs<T>(st: EvState, theirs: seq<Wire>, values: seq<nat>,
                         k: (EvState, seq<Wire>) -> Proc<T>): Proc<T> {
    EvEncodeMany(st, values, (s: EvState, ws: seq<Wire>) => k(s, theirs + ws))
  }

  /** The evaluator's whole run. `st` is its state before the label for one arrives. */
  function EvMain<T>(lib: Library, st: EvState, theirs: nat, values: seq<nat>, gates: seq<Gate>, outs: seq<nat>,
                     k: (EvState, seq<bool>) -> Proc<T>): Proc<T>
  {
    Recv((m: Msg) => if m.LabelMsg? then EvAfterOne(lib, st.(one := m.lab), theirs, values, gates, outs, k) else Fail)
  }

  function EvAfterOne<T>(lib: Library, st: EvState, theirs: nat, values: seq<nat>, gates: seq<Gate>, outs: seq<nat>,
                         k: (EvState, seq<bool>) -> Proc<T>): Proc<T>
  {
    EvInputs(st, theirs, values, (s: EvState, inputs: seq<Wire>) => EvCompute(lib, s, inputs, gates, outs, k))
  }

  function EvCompute<T>(lib: Library, st: EvState, inputs: seq<Wire>, gates: seq<Gate>, outs: seq<nat>,
                        k: (EvState, seq<bool>) -> Proc<T>): Proc<T>
  {
    EvExec(lib, gates, st, inputs, (s: EvState, all: seq<Wire>) => EvFinish(s, all, outs, k))
  }

  function EvFinish<T>(st: EvState, all: seq<Wire>, outs: seq<nat>, k: (EvState, seq<bool>) -> Proc<T>): Proc<T> {
    if Within(outs, |all|) then EvOutputs(st, PickWires(all, outs), Given(k, st)) else Fail
  }

  // ---------------------------------------------------------------- preprocessor

  function PreAnd(st: PreState, x: AuthShare, y: AuthShare): PreState {
    st.(left := st.left + [x], right := st.right + [y], shareIndex := st.shareIndex + 1)
  }

  /** The preprocessor's run over the gates: `zero` is this party's share of the constant 0. */
  function PreExec(gates: seq<Gate>, st: PreState, ws: seq<AuthShare>, zero: AuthShare): (r: PreState)
    requires WellFormed(gates, |ws|)
    requires st.shareIndex + Ands(gates) <= |st.shares|
    ensures r.shares == st.shares && r.delta == st.delta
    ensures r.shareIndex == st.shareIndex + Ands(gates)
    ensures st.left <= r.left && |r.left| == |st.left| + Ands(gates)
    ensures st.right <= r.right && |r.right| == |st.right| + Ands(gates)
    decreases |gates|
  {
    if gates == [] then st
    else
      WellFormedTail(gates, |ws|);
      match gates[0]
      case XorGate(a, b) => PreExec(gates[1..], st, ws + [XorShare(ws[a], ws[b])], zero)
      case InvGate(a) => PreExec(gates[1..], st, ws + [ws[a]], zero)
      case AndGate(a, b) => PreExec(gates[1..], PreAnd(st, ws[a], ws[b]), ws + [st.shares[st.shareIndex]], zero)
      case ConstGate(v) => PreExec(gates[1..], st, ws + [zero], zero)
  }

  /** The preprocessor once the inputs took their shares. */
  function PreInputs(shares: seq<AuthShare>, inputs: nat, delta: Label): PreState {
    PreState(shares, inputs, [], [], delta)
  }

  /** Preprocessing a circuit: the inputs take the first shares, then the gates run. */
  function PreRun(gates: seq<Gate>, inputs: nat, shares: seq<AuthShare>, delta: Label, zero: AuthShare): PreState
    requires WellFormed(gates, inputs)
    requires inputs + Ands(gates) <= |shares|
  {
    PreExec(gates, PreInputs(shares, inputs, delta), shares[..inputs], zero)
  }
}
