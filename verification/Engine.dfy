/** The joint run of the garbler and the evaluator computes the clear value of the
    circuit, whatever the interleaving of their messages. */
module Engine {
  import opened Bits
  import opened Circuit
  import opened Network
  import opened Shares
  import opened Parties

  /** How the two parties' views of one wire relate to its clear value `v`. */
  predicate WireInv(g: Wire, e: Wire, v: bool, dg: Label, de: Label) {
    && g.value == e.value
    && e.lab == Xor(g.lab, Times(g.value, dg))
    && Paired(g.share, e.share, dg, de)
    && g.value == (v != Mask(g.share, e.share))
  }

  // ---------------------------------------------------------------- one gate

  lemma XorWire(g1: Wire, e1: Wire, v1: bool, g2: Wire, e2: Wire, v2: bool, dg: Label, de: Label)
    requires WireInv(g1, e1, v1, dg, de) && WireInv(g2, e2, v2, dg, de)
    ensures WireInv(GbXor(g1, g2), EvXor(e1, e2), v1 != v2, dg, de)
  {
    XorPaired(g1.share, e1.share, g2.share, e2.share, dg, de);
    XorSwap(g1.lab, Times(g1.value, dg), g2.lab, Times(g2.value, dg));
    TimesXor(g1.value, g2.value, dg);
  }

  lemma NegateWire(gst: GbState, est: EvState, g: Wire, e: Wire, v: bool, dg: Label, de: Label)
    requires WireInv(g, e, v, dg, de)
    requires est.one == Xor(gst.zero, dg)
    ensures WireInv(GbNegate(gst, g), EvNegate(est, e), !v, dg, de)
  {
    XorSwap(g.lab, Times(g.value, dg), gst.zero, dg);
    TimesXor(g.value, true, dg);
  }

  lemma ConstantWire(lib: Library, zeroLabel: Label, v: bool, dg: Label, de: Label)
    requires ConstantsPaired(lib)
    ensures WireInv(Wire(v, zeroLabel, lib.garblerConst(false, dg)),
                    Wire(v, Xor(zeroLabel, Times(v, dg)), lib.evaluatorConst(false, de)), v, dg, de)
  {
    assert Paired(lib.garblerConst(false, dg), lib.evaluatorConst(false, de), dg, de);
  }

  /** The cancellations behind the garbled rows, for each pair of masked values.
      `h..` are hashes, `k..` keys, `r..`/`s..` the garbler's and the evaluator's
      bits times delta. */
  lemma Row0Cancels(ha0: Label, ha1: Label, kb: Label, rb: Label, sb: Label)
    ensures Xor(Xor(Xor(Xor(ha0, ha1), kb), rb), Xor(kb, sb)) == Xor(Xor(ha0, ha1), Xor(rb, sb))
  {
    Ext(Xor(Xor(Xor(Xor(ha0, ha1), kb), rb), Xor(kb, sb)), Xor(Xor(ha0, ha1), Xor(rb, sb)));
  }

  lemma Row1Cancels(hb0: Label, hb1: Label, ka: Label, ra: Label, sa: Label, la: Label, x: Label)
    ensures Xor(Xor(Xor(Xor(Xor(Xor(hb0, hb1), ka), ra), la), Xor(ka, sa)), Xor(la, x))
         == Xor(Xor(hb0, hb1), Xor(Xor(ra, sa), x))
  {
    Ext(Xor(Xor(Xor(Xor(Xor(Xor(hb0, hb1), ka), ra), la), Xor(ka, sa)), Xor(la, x)),
        Xor(Xor(hb0, hb1), Xor(Xor(ra, sa), x)));
  }

  /** What the evaluator's two selected rows are. */
  lemma Row0Value(lib: Library, i: nat, ga: Wire, gb: Wire, eb: Wire, dg: Label)
    requires eb.share.mac == Xor(gb.share.key, Times(eb.share.bit, dg))
    ensures Xor(Gate0(lib, dg, i, ga, gb), eb.share.mac)
         == Xor(Xor(lib.hash(ga.lab, i), lib.hash(Xor(ga.lab, dg), i)), Times(Mask(gb.share, eb.share), dg))
  {
    Row0Cancels(lib.hash(ga.lab, i), lib.hash(Xor(ga.lab, dg), i), gb.share.key,
                Times(gb.share.bit, dg), Times(eb.share.bit, dg));
    TimesXor(gb.share.bit, eb.share.bit, dg);
  }

  lemma Row1Value(lib: Library, i: nat, ga: Wire, gb: Wire, ea: Wire, z: bool, dg: Label)
    requires ea.share.mac == Xor(ga.share.key, Times(ea.share.bit, dg))
    requires ea.lab == Xor(ga.lab, Times(z, dg))
    ensures Xor(Xor(Gate1(lib, dg, i, ga, gb), ea.share.mac), ea.lab)
         == Xor(Xor(lib.hash(gb.lab, i), lib.hash(Xor(gb.lab, dg), i)), Times(Mask(ga.share, ea.share) != z, dg))
  {
    Row1Cancels(lib.hash(gb.lab, i), lib.hash(Xor(gb.lab, dg), i), ga.share.key,
                Times(ga.share.bit, dg), Times(ea.share.bit, dg), ga.lab, Times(z, dg));
    TimesXor(ga.share.bit, ea.share.bit, dg);
    TimesXor(Mask(ga.share, ea.share), z, dg);
  }

  /** The evaluator's label of an AND gate, in terms of the garbler's zero label. */
  lemma EvaluatedLabelOffset(lib: Library, i: nat, ga: Wire, gb: Wire, ea: Wire, eb: Wire, va: bool, vb: bool,
                             gc: AuthShare, ec: AuthShare, gt: AuthShare, et: AuthShare, dg: Label, de: Label)
    requires WireInv(ga, ea, va, dg, de) && WireInv(gb, eb, vb, dg, de)
    requires Paired(gc, ec, dg, de) && Paired(gt, et, dg, de)
    ensures EvaluatedLabel(lib, i, ea, eb, ec, et, Gate0(lib, dg, i, ga, gb), Gate1(lib, dg, i, ga, gb))
         == Xor(ZeroLabel(lib, dg, i, ga, gb, gc, gt),
                Times(((Mask(gc, ec) != Mask(gt, et)) != (ga.value && Mask(gb.share, eb.share)))
                      != (gb.value && (Mask(ga.share, ea.share) != ga.value)), dg))
  {
    var ma, mb := Mask(ga.share, ea.share), Mask(gb.share, eb.share);
    Row0Value(lib, i, ga, gb, eb, dg);
    Row1Value(lib, i, ga, gb, ea, ga.value, dg);
    ActiveLabel(ga, ea, va, dg, de);
    ActiveLabel(gb, eb, vb, dg, de);
    Unfold(lib.hash(ga.lab, i), lib.hash(Xor(ga.lab, dg), i), ga.value,
           lib.hash(gb.lab, i), lib.hash(Xor(gb.lab, dg), i), gb.value,
           gc.key, gc.bit, ec.bit, gt.key, gt.bit, et.bit, mb, ma != ga.value, dg);
  }

  /** The selected rows and the MACs folded into an offset of the zero label. */
  lemma Unfold(ha0: Label, ha1: Label, za: bool, hb0: Label, hb1: Label, zb: bool,
               kc: Label, rc: bool, sc: bool, kt: Label, rt: bool, st: bool, x: bool, y: bool, d: Label)
    ensures Xor(Xor(Xor(Xor(Xor(if za then ha1 else ha0, if zb then hb1 else hb0), Xor(kc, Times(sc, d))),
                        Xor(kt, Times(st, d))),
                    Times(za, Xor(Xor(ha0, ha1), Times(x, d)))), Times(zb, Xor(Xor(hb0, hb1), Times(y, d))))
         == Xor(Xor(Xor(Xor(Xor(Xor(ha0, hb0), kc), Times(rc, d)), kt), Times(rt, d)),
                Times((((rc != sc) != (rt != st)) != (za && x)) != (zb && y), d))
  {
    FoldRows(ha0, ha1, za, hb0, hb1, zb, Xor(kc, Times(sc, d)), Xor(kt, Times(st, d)), Times(x, d), Times(y, d));
    FoldShares(ha0, hb0, kc, rc, sc, kt, rt, st, za, Times(x, d), zb, Times(y, d), d);
    FoldDelta(rc != sc, rt != st, za && x, zb && y, d);
    TimesTwice(za, x, d);
    TimesTwice(zb, y, d);
  }

  lemma TimesTwice(a: bool, b: bool, d: Label)
    ensures Times(a, Times(b, d)) == Times(a && b, d)
  {}

  lemma ActiveLabel(g: Wire, e: Wire, v: bool, dg: Label, de: Label)
    requires WireInv(g, e, v, dg, de)
    ensures e.lab == if g.value then Xor(g.lab, dg) else g.lab
  {
    XorZero(g.lab);
  }

  lemma FoldRows(ha0: Label, ha1: Label, za: bool, hb0: Label, hb1: Label, zb: bool, mc: Label, mt: Label, x: Label,
                 y: Label)
    ensures Xor(Xor(Xor(Xor(Xor(if za then ha1 else ha0, if zb then hb1 else hb0), mc), mt),
                    Times(za, Xor(Xor(ha0, ha1), x))), Times(zb, Xor(Xor(hb0, hb1), y)))
         == Xor(Xor(Xor(Xor(Xor(ha0, hb0), mc), mt), Times(za, x)), Times(zb, y))
  {
    Ext(Xor(Xor(Xor(Xor(Xor(if za then ha1 else ha0, if zb then hb1 else hb0), mc), mt),
                Times(za, Xor(Xor(ha0, ha1), x))), Times(zb, Xor(Xor(hb0, hb1), y))),
        Xor(Xor(Xor(Xor(Xor(ha0, hb0), mc), mt), Times(za, x)), Times(zb, y)));
  }

  lemma FoldShares(ha: Label, hb: Label, kc: Label, rc: bool, sc: bool, kt: Label, rt: bool, st: bool,
                   za: bool, x: Label, zb: bool, y: Label, d: Label)
    ensures Xor(Xor(Xor(Xor(Xor(ha, hb), Xor(kc, Times(sc, d))), Xor(kt, Times(st, d))), Times(za, x)), Times(zb, y))
         == Xor(Xor(Xor(Xor(Xor(Xor(ha, hb), kc), Times(rc, d)), kt), Times(rt, d)),
                Xor(Xor(Xor(Times(rc != sc, d), Times(rt != st, d)), Times(za, x)), Times(zb, y)))
  {
    Ext(Xor(Xor(Xor(Xor(Xor(ha, hb), Xor(kc, Times(sc, d))), Xor(kt, Times(st, d))), Times(za, x)), Times(zb, y)),
        Xor(Xor(Xor(Xor(Xor(Xor(ha, hb), kc), Times(rc, d)), kt), Times(rt, d)),
            Xor(Xor(Xor(Times(rc != sc, d), Times(rt != st, d)), Times(za, x)), Times(zb, y))));
  }

  lemma FoldDelta(a: bool, b: bool, c: bool, e: bool, d: Label)
    ensures Xor(Xor(Xor(Times(a, d), Times(b, d)), Times(c, d)), Times(e, d)) == Times(((a != b) != c) != e, d)
  {
    TimesXor(a, b, d);
    TimesXor(a != b, c, d);
    TimesXor((a != b) != c, e, d);
  }

  /** The AND gate keeps the wire invariant: with a triple that is the product of
      the operands' masks, and a delta whose last bit is one, the evaluator decodes
      the masked value of the conjunction and holds the matching label. */
  lemma AndWire(lib: Library, i: nat, ga: Wire, gb: Wire, ea: Wire, eb: Wire, va: bool, vb: bool,
                gc: AuthShare, ec: AuthShare, gt: AuthShare, et: AuthShare, dg: Label, de: Label)
    requires WireInv(ga, ea, va, dg, de) && WireInv(gb, eb, vb, dg, de)
    requires Paired(gc, ec, dg, de) && Paired(gt, et, dg, de)
    requires Mask(gt, et) == (Mask(ga.share, ea.share) && Mask(gb.share, eb.share))
    requires dg[127]
    ensures
      var zeroLabel := ZeroLabel(lib, dg, i, ga, gb, gc, gt);
      var lab := EvaluatedLabel(lib, i, ea, eb, ec, et, Gate0(lib, dg, i, ga, gb), Gate1(lib, dg, i, ga, gb));
      var value := lab[127] != zeroLabel[127];
      WireInv(Wire(value, zeroLabel, gc), Wire(value, lab, ec), va && vb, dg, de)
  {
    EvaluatedLabelOffset(lib, i, ga, gb, ea, eb, va, vb, gc, ec, gt, et, dg, de);
    var zeroLabel := ZeroLabel(lib, dg, i, ga, gb, gc, gt);
    var lab := EvaluatedLabel(lib, i, ea, eb, ec, et, Gate0(lib, dg, i, ga, gb), Gate1(lib, dg, i, ga, gb));
    var z := (va && vb) != Mask(gc, ec);
    assert lab == Xor(zeroLabel, Times(z, dg));
    assert lab[127] == (zeroLabel[127] != (z && dg[127]));
  }

  /** A validation share of consistent parts is consistent and shares their sum. */
  lemma ValidationPaired(g0: AuthShare, e0: AuthShare, ga: Wire, gb: Wire, ea: Wire, eb: Wire,
                         gt: AuthShare, et: AuthShare, gc: AuthShare, ec: AuthShare, dg: Label, de: Label)
    requires Paired(g0, e0, dg, de) && Paired(gt, et, dg, de) && Paired(gc, ec, dg, de)
    requires Paired(ga.share, ea.share, dg, de) && Paired(gb.share, eb.share, dg, de)
    requires ga.value == ea.value && gb.value == eb.value
    ensures
      var g, e := ValidationShare(g0, ga, gb, gt, gc), ValidationShare(e0, ea, eb, et, ec);
      && Paired(g, e, dg, de)
      && Mask(g, e) == ((((Mask(g0, e0) != (gb.value && Mask(ga.share, ea.share)))
                          != (ga.value && Mask(gb.share, eb.share))) != Mask(gt, et)) != Mask(gc, ec))
  {
    MulPaired(ga.share, ea.share, gb.value, dg, de);
    MulPaired(gb.share, eb.share, ga.value, dg, de);
    SumPaired(g0, e0, MulConst(ga.share, gb.value), MulConst(ea.share, eb.value),
              MulConst(gb.share, ga.value), MulConst(eb.share, ea.value), gt, et, gc, ec, dg, de);
  }

  lemma SumPaired(g0: AuthShare, e0: AuthShare, g1: AuthShare, e1: AuthShare, g2: AuthShare, e2: AuthShare,
                  g3: AuthShare, e3: AuthShare, g4: AuthShare, e4: AuthShare, dg: Label, de: Label)
    requires Paired(g0, e0, dg, de) && Paired(g1, e1, dg, de) && Paired(g2, e2, dg, de)
    requires Paired(g3, e3, dg, de) && Paired(g4, e4, dg, de)
    ensures
      var g := XorShare(XorShare(XorShare(XorShare(g0, g1), g2), g3), g4);
      var e := XorShare(XorShare(XorShare(XorShare(e0, e1), e2), e3), e4);
      && Paired(g, e, dg, de)
      && Mask(g, e) == ((((Mask(g0, e0) != Mask(g1, e1)) != Mask(g2, e2)) != Mask(g3, e3)) != Mask(g4, e4))
  {
    XorPaired(g0, e0, g1, e1, dg, de);
    var ga, ea := XorShare(g0, g1), XorShare(e0, e1);
    XorPaired(ga, ea, g2, e2, dg, de);
    var gb, eb := XorShare(ga, g2), XorShare(ea, e2);
    XorPaired(gb, eb, g3, e3, dg, de);
    XorPaired(XorShare(gb, g3), XorShare(eb, e3), g4, e4, dg, de);
  }

  /** The validation share opens to zero: both parties accept it. */
  lemma ValidationAccepted(lib: Library, ga: Wire, gb: Wire, ea: Wire, eb: Wire, va: bool, vb: bool, value: bool,
                           gc: AuthShare, ec: AuthShare, gt: AuthShare, et: AuthShare, dg: Label, de: Label)
    requires ConstantsPaired(lib)
    requires WireInv(ga, ea, va, dg, de) && WireInv(gb, eb, vb, dg, de)
    requires Paired(gc, ec, dg, de) && Paired(gt, et, dg, de)
    requires Mask(gt, et) == (Mask(ga.share, ea.share) && Mask(gb.share, eb.share))
    requires value == ((va && vb) != Mask(gc, ec))
    ensures
      var b := (ga.value && gb.value) != value;
      var g := ValidationShare(lib.garblerConst(b, dg), ga, gb, gt, gc);
      var e := ValidationShare(lib.evaluatorConst(b, de), ea, eb, et, ec);
      Authentic(g, Opening(e), dg) && Authentic(e, Opening(g), de) && g.bit == e.bit
  {
    var b := (ga.value && gb.value) != value;
    var g0, e0 := lib.garblerConst(b, dg), lib.evaluatorConst(b, de);
    assert Paired(g0, e0, dg, de) && Mask(g0, e0) == b;
    ValidationPaired(g0, e0, ga, gb, ea, eb, gt, et, gc, ec, dg, de);
    OpeningAccepted(ValidationShare(g0, ga, gb, gt, gc), ValidationShare(e0, ea, eb, et, ec), dg, de);
  }

  // ---------------------------------------------------------------- one gate, on the channels

  /** Both parties agree on the two deltas and on the label for one, and stand at
      the same point of consistent share and triple lists. */
  predicate StatesAgree(g: GbState, e: EvState) {
    && g.delta[127]
    && e.one == Xor(g.zero, g.delta)
    && g.andIndex == e.andIndex == g.tripleIndex == e.tripleIndex
    && g.shareIndex == e.shareIndex
    && PairedLists(g.shares, e.shares, g.delta, e.delta)
    && PairedLists(g.triples, e.triples, g.delta, e.delta)
  }

  predicate PairedLists(gs: seq<AuthShare>, es: seq<AuthShare>, dg: Label, de: Label) {
    |gs| == |es| && forall i :: 0 <= i < |gs| ==> Paired(gs[i], es[i], dg, de)
  }

  /** Both parties' wires after an AND, by what they compute. */
  function AndResult(lib: Library, i: nat, dg: Label, ga: Wire, gb: Wire, ea: Wire, eb: Wire,
                     gc: AuthShare, ec: AuthShare, gt: AuthShare, et: AuthShare): (Wire, Wire)
  {
    var zeroLabel := ZeroLabel(lib, dg, i, ga, gb, gc, gt);
    var lab := EvaluatedLabel(lib, i, ea, eb, ec, et, Gate0(lib, dg, i, ga, gb), Gate1(lib, dg, i, ga, gb));
    var value := lab[127] != zeroLabel[127];
    (Wire(value, zeroLabel, gc), Wire(value, lab, ec))
  }

  /** The messages of an AND gate go through: the three of the garbled gate, the
      masked value back, and the two openings of the validation share. */
  lemma AndReaches<A, B>(lib: Library, g: GbState, e: EvState, ga: Wire, gb: Wire, ea: Wire, eb: Wire, va: bool,
                         vb: bool, k: (GbState, Wire) -> Proc<A>, h: (EvState, Wire) -> Proc<B>)
                           returns (gw: Wire, ew: Wire)
    requires ConstantsPaired(lib) && StatesAgree(g, e)
    requires g.shareIndex < |g.shares| && g.tripleIndex < |g.triples|
    requires WireInv(ga, ea, va, g.delta, e.delta) && WireInv(gb, eb, vb, g.delta, e.delta)
    requires Mask(g.triples[g.tripleIndex], e.triples[e.tripleIndex])
          == (Mask(ga.share, ea.share) && Mask(gb.share, eb.share))
    ensures WireInv(gw, ew, va && vb, g.delta, e.delta)
    ensures gw.share == g.shares[g.shareIndex] && ew.share == e.shares[e.shareIndex]
    ensures Reaches(Net(GbAnd(lib, g, ga, gb, k), EvAnd(lib, e, ea, eb, h), [], []),
                    Net(k(GbAfterAnd(g), gw), h(EvAfterAnd(e), ew), [], []))
  {
    var gc, ec := g.shares[g.shareIndex], e.shares[e.shareIndex];
    var gt, et := g.triples[g.tripleIndex], e.triples[e.tripleIndex];
    assert Paired(gc, ec, g.delta, e.delta) && Paired(gt, et, g.delta, e.delta);
    AndWire(lib, g.andIndex, ga, gb, ea, eb, va, vb, gc, ec, gt, et, g.delta, e.delta);
    var r := AndResult(lib, g.andIndex, g.delta, ga, gb, ea, eb, gc, ec, gt, et);
    gw, ew := r.0, r.1;
    ValidationAccepted(lib, ga, gb, ea, eb, va, vb, gw.value, gc, ec, gt, et, g.delta, e.delta);
    AndMessages(lib, g, e, ga, gb, ea, eb, gw, ew, k, h);
  }

  /** The garbled gate goes over, then the reply comes back. `share`, `triple` are the two
      parties' shares for the gate, `gw` and `ew` the wires that result. */
  lemma AndMessages<A, B>(lib: Library, g: GbState, e: EvState, ga: Wire, gb: Wire, ea: Wire, eb: Wire, gw: Wire,
                          ew: Wire, k: (GbState, Wire) -> Proc<A>, h: (EvState, Wire) -> Proc<B>)
    requires g.shareIndex < |g.shares| && g.tripleIndex < |g.triples|
    requires e.shareIndex < |e.shares| && e.tripleIndex < |e.triples|
    requires g.andIndex == e.andIndex && ga.value == ea.value && gb.value == eb.value
    requires (gw, ew) == AndResult(lib, g.andIndex, g.delta, ga, gb, ea, eb, g.shares[g.shareIndex],
                                   e.shares[e.shareIndex], g.triples[g.tripleIndex], e.triples[e.tripleIndex])
    requires ValidationOpens(lib, g, e, ga, gb, ea, eb, g.triples[g.tripleIndex], e.triples[e.tripleIndex], gw, ew)
    ensures Reaches(Net(GbAnd(lib, g, ga, gb, k), EvAnd(lib, e, ea, eb, h), [], []),
                    Net(k(GbAfterAnd(g), gw), h(EvAfterAnd(e), ew), [], []))
  {
    var gt, et := g.triples[g.tripleIndex], e.triples[e.tripleIndex];
    var row0, row1 := Gate0(lib, g.delta, g.andIndex, ga, gb), Gate1(lib, g.delta, g.andIndex, ga, gb);
    var g', e' := GbAfterAnd(g), EvAfterAnd(e);
    var k1 := (m: Msg) => GbAndReply(lib, g', ga, gb, gw.share, gt, gw.lab, m, k);
    var h1 := (r0: Label, r1: Label, permute: bool) =>
      EvAndReply(lib, e', ea, eb, ew.share, et, EvaluatedLabel(lib, e.andIndex, ea, eb, ew.share, et, r0, r1), permute,
                 h);
    ReplyReaches(lib, g', e', ga, gb, ea, eb, gt, et, gw, ew, k, h, k1);
    GateGoesThrough(row0, row1, gw.lab[127], k1, h1, Net(k(g', gw), h(e', ew), [], []));
  }

  lemma GateGoesThrough<A, B>(row0: Label, row1: Label, permute: bool, k: Msg -> Proc<A>,
                              h: (Label, Label, bool) -> Proc<B>, t: Net<A, B>)
    requires Reaches(Net(Recv(k), h(row0, row1, permute), [], []), t)
    ensures Reaches(Net(SendGate(row0, row1, permute, k), RecvGate(h), [], []), t)
  {
    GateSent(row0, row1, permute, k, h);
    ReachesTrans(Net(SendGate(row0, row1, permute, k), RecvGate(h), [], []),
                 Net(Recv(k), h(row0, row1, permute), [], []), t);
  }

  /** Both openings of the validation share of a gate are accepted, and equal. */
  predicate ValidationOpens(lib: Library, g: GbState, e: EvState, ga: Wire, gb: Wire, ea: Wire, eb: Wire,
                            gt: AuthShare, et: AuthShare, gw: Wire, ew: Wire)
  {
    var b := (ga.value && gb.value) != gw.value;
    var vg := ValidationShare(lib.garblerConst(b, g.delta), ga, gb, gt, gw.share);
    var ve := ValidationShare(lib.evaluatorConst(b, e.delta), ea, eb, et, ew.share);
    Authentic(vg, Opening(ve), g.delta) && Authentic(ve, Opening(vg), e.delta) && vg.bit == ve.bit
  }

  /** A garbled gate arrives whole; the garbler then waits for the masked value. */
  lemma GateSent<A, B>(row0: Label, row1: Label, permute: bool, k: Msg -> Proc<A>, h: (Label, Label, bool) -> Proc<B>)
    ensures Reaches(Net(SendGate(row0, row1, permute, k), RecvGate(h), [], []),
                    Net(Recv(k), h(row0, row1, permute), [], []))
  {
    var p0, q0 := SendGate(row0, row1, permute, k), RecvGate(h);
    var p1, q1 := p0.next, q0.k(p0.m);
    var p2, q2 := p1.next, q1.k(p1.m);
    var t := Net(Recv(k), h(row0, row1, permute), [], []);
    ReachesSelf(t);
    PassPQ(p2, q2, t);
    PassPQ(p1, q1, t);
    PassPQ(p0, q0, t);
  }

  /** The masked value goes back and both validation openings cross. */
  lemma ReplyReaches<A, B>(lib: Library, g: GbState, e: EvState, ga: Wire, gb: Wire, ea: Wire, eb: Wire,
                           gt: AuthShare, et: AuthShare, gw: Wire, ew: Wire,
                           k: (GbState, Wire) -> Proc<A>, h: (EvState, Wire) -> Proc<B>, k1: Msg -> Proc<A>)
    requires gw.value == ew.value == (ew.lab[127] != gw.lab[127])
    requires ga.value == ea.value && gb.value == eb.value
    requires ValidationOpens(lib, g, e, ga, gb, ea, eb, gt, et, gw, ew)
    requires k1(BitMsg(gw.value)) == GbAndReply(lib, g, ga, gb, gw.share, gt, gw.lab, BitMsg(gw.value), k)
    ensures Reaches(Net(Recv(k1), EvAndReply(lib, e, ea, eb, ew.share, et, ew.lab, gw.lab[127], h), [], []),
                    Net(k(g, gw), h(e, ew), [], []))
  {
    var p, q := Recv(k1), EvAndReply(lib, e, ea, eb, ew.share, et, ew.lab, gw.lab[127], h);
    var t := Net(k(g, gw), h(e, ew), [], []);
    ReachesSelf(t);
    Cross(p.k(q.m), q.next, t);
    PassQP(p, q, t);
  }

  // ---------------------------------------------------------------- the whole circuit

  predicate WiresInv(gws: seq<Wire>, ews: seq<Wire>, vals: seq<bool>, dg: Label, de: Label) {
    |gws| == |ews| == |vals| && forall i :: 0 <= i < |vals| ==> WireInv(gws[i], ews[i], vals[i], dg, de)
  }

  /** Triple `i` shares the product of what the `i`-th recorded operands share. */
  predicate KnownTriples(gt: seq<AuthShare>, et: seq<AuthShare>, gp: PreState, ep: PreState) {
    && |gt| == |et| == |gp.left| == |gp.right| == |ep.left| == |ep.right|
    && forall i :: 0 <= i < |gt| ==>
         Mask(gt[i], et[i]) == (Mask(gp.left[i], ep.left[i]) && Mask(gp.right[i], ep.right[i]))
  }

  /** The online states are where the preprocessors are before the same gates. */
  predicate Lockstep(gates: seq<Gate>, g: GbState, e: EvState, gp: PreState, ep: PreState, wires: nat) {
    && WellFormed(gates, wires)
    && gp.shares == g.shares && ep.shares == e.shares
    && gp.shareIndex == g.shareIndex && ep.shareIndex == e.shareIndex
    && |gp.left| == |gp.right| == |ep.left| == |ep.right| == g.tripleIndex
    && g.shareIndex + Ands(gates) <= |g.shares|
    && e.shareIndex + Ands(gates) <= |e.shares|
  }

  /** Preprocessing the remaining gates ends in `gf` and `ef`, for whose recorded
      operands the triples were made. */
  predicate TriplesFor(lib: Library, gates: seq<Gate>, g: GbState, e: EvState, gp: PreState, ep: PreState,
                       gws: seq<Wire>, ews: seq<Wire>, gf: PreState, ef: PreState)
    requires |gws| == |ews| && Lockstep(gates, g, e, gp, ep, |gws|)
  {
    && gf == PreExec(gates, gp, ShareList(gws), lib.garblerConst(false, g.delta))
    && ef == PreExec(gates, ep, ShareList(ews), lib.evaluatorConst(false, e.delta))
    && KnownTriples(g.triples, e.triples, gf, ef)
  }

  /** After the gates: both parties consumed one share and one triple per AND, and
      the wires carry the values of the clear evaluation. */
  predicate ExecDone(gates: seq<Gate>, g: GbState, e: EvState, vals: seq<bool>,
                     g': GbState, e': EvState, gws': seq<Wire>, ews': seq<Wire>)
    requires WellFormed(gates, |vals|)
  {
    && StatesAgree(g', e')
    && g'.delta == g.delta && e'.delta == e.delta
    && g'.shareIndex == g.shareIndex + Ands(gates)
    && g'.tripleIndex == g.tripleIndex + Ands(gates)
    && g'.shares == g.shares && g'.triples == g.triples
    && WiresInv(gws', ews', Eval(gates, vals), g.delta, e.delta)
  }

  /** Everything the induction over the gates carries. */
  ghost predicate Ready(lib: Library, gates: seq<Gate>, g: GbState, e: EvState, gp: PreState, ep: PreState,
                        gws: seq<Wire>, ews: seq<Wire>, vals: seq<bool>, gf: PreState, ef: PreState)
  {
    && ConstantsPaired(lib) && StatesAgree(g, e)
    && WiresInv(gws, ews, vals, g.delta, e.delta)
    && Lockstep(gates, g, e, gp, ep, |gws|)
    && TriplesFor(lib, gates, g, e, gp, ep, gws, ews, gf, ef)
  }

  lemma WiresSnoc(gws: seq<Wire>, ews: seq<Wire>, vals: seq<bool>, g: Wire, e: Wire, v: bool, dg: Label, de: Label)
    requires WiresInv(gws, ews, vals, dg, de) && WireInv(g, e, v, dg, de)
    ensures WiresInv(gws + [g], ews + [e], vals + [v], dg, de)
    ensures ShareList(gws + [g]) == ShareList(gws) + [g.share]
    ensures ShareList(ews + [e]) == ShareList(ews) + [e.share]
  {}

  /** A gate that takes no share and no triple: XOR, NOT or a constant. */
  lemma ReadyAfterFree(lib: Library, gates: seq<Gate>, g: GbState, e: EvState, gp: PreState, ep: PreState,
                       gws: seq<Wire>, ews: seq<Wire>, vals: seq<bool>, gf: PreState, ef: PreState, gw: Wire, ew: Wire,
                       drawn: nat)
    requires Ready(lib, gates, g, e, gp, ep, gws, ews, vals, gf, ef)
    requires gates != [] && !gates[0].AndGate? && ReadsBelow(gates[0], |vals|)
    requires WireInv(gw, ew, GateValue(gates[0], vals), g.delta, e.delta)
    requires match gates[0]
             case XorGate(a, b) => gw.share == XorShare(gws[a].share, gws[b].share)
                 && ew.share == XorShare(ews[a].share, ews[b].share)
             case InvGate(a) => gw.share == gws[a].share && ew.share == ews[a].share
             case _ => gw.share == lib.garblerConst(false, g.delta) && ew.share == lib.evaluatorConst(false, e.delta)
    ensures Ready(lib, gates[1..], g.(drawn := drawn), e, gp, ep, gws + [gw], ews + [ew],
                  vals + [GateValue(gates[0], vals)], gf, ef)
  {
    WellFormedTail(gates, |gws|);
    WiresSnoc(gws, ews, vals, gw, ew, GateValue(gates[0], vals), g.delta, e.delta);
  }

  /** An AND gate: the next share becomes the output share, the operands are recorded. */
  lemma ReadyAfterAnd(lib: Library, gates: seq<Gate>, g: GbState, e: EvState, gp: PreState, ep: PreState,
                      gws: seq<Wire>, ews: seq<Wire>, vals: seq<bool>, gf: PreState, ef: PreState, gw: Wire, ew: Wire)
    requires Ready(lib, gates, g, e, gp, ep, gws, ews, vals, gf, ef)
    requires gates != [] && gates[0].AndGate? && ReadsBelow(gates[0], |vals|)
    requires WireInv(gw, ew, GateValue(gates[0], vals), g.delta, e.delta)
    requires gw.share == g.shares[g.shareIndex] && ew.share == e.shares[e.shareIndex]
    ensures Ready(lib, gates[1..], GbAfterAnd(g), EvAfterAnd(e),
                  PreAnd(gp, gws[gates[0].a].share, gws[gates[0].b].share),
                  PreAnd(ep, ews[gates[0].a].share, ews[gates[0].b].share),
                  gws + [gw], ews + [ew], vals + [GateValue(gates[0], vals)], gf, ef)
  {
    WellFormedTail(gates, |gws|);
    WiresSnoc(gws, ews, vals, gw, ew, GateValue(gates[0], vals), g.delta, e.delta);
  }

  /** The recorded operands of the next AND are the shares its wires carry online,
      so its triple shares the product of their masks. */
  lemma NextTriple(lib: Library, gates: seq<Gate>, g: GbState, e: EvState, gp: PreState, ep: PreState,
                   gws: seq<Wire>, ews: seq<Wire>, gf: PreState, ef: PreState)
    requires |gws| == |ews| && Lockstep(gates, g, e, gp, ep, |gws|)
    requires gates != [] && gates[0].AndGate?
    requires g.tripleIndex == e.tripleIndex
    requires TriplesFor(lib, gates, g, e, gp, ep, gws, ews, gf, ef)
    ensures g.tripleIndex < |g.triples| && e.tripleIndex < |e.triples|
    ensures ReadsBelow(gates[0], |gws|)
    ensures Mask(g.triples[g.tripleIndex], e.triples[e.tripleIndex])
         == (Mask(gws[gates[0].a].share, ews[gates[0].a].share) && Mask(gws[gates[0].b].share, ews[gates[0].b].share))
  {
    WellFormedTail(gates, |gws|);
    var a, b := gates[0].a, gates[0].b;
    var gs, es := ShareList(gws), ShareList(ews);
    var gz, ez := lib.garblerConst(false, g.delta), lib.evaluatorConst(false, e.delta);
    var n := g.tripleIndex;
    var gp', ep' := PreAnd(gp, gs[a], gs[b]), PreAnd(ep, es[a], es[b]);
    assert gp'.left[n] == gs[a] && gp'.right[n] == gs[b];
    assert ep'.left[n] == es[a] && ep'.right[n] == es[b];
    assert gf == PreExec(gates[1..], gp', gs + [gp.shares[gp.shareIndex]], gz);
    assert ef == PreExec(gates[1..], ep', es + [ep.shares[ep.shareIndex]], ez);
    assert gf.left[n] == gs[a] && gf.right[n] == gs[b] && ef.left[n] == es[a] && ef.right[n] == es[b];
  }

  /** What the rest of the gates did, seen from before the first one. */
  lemma DoneStep(gates: seq<Gate>, g: GbState, e: EvState, vals: seq<bool>, g1: GbState, e1: EvState,
                 g': GbState, e': EvState, gws': seq<Wire>, ews': seq<Wire>)
    requires WellFormed(gates, |vals|) && gates != [] && ReadsBelow(gates[0], |vals|)
    requires WellFormed(gates[1..], |vals| + 1)
    requires ExecDone(gates[1..], g1, e1, vals + [GateValue(gates[0], vals)], g', e', gws', ews')
    requires g1.delta == g.delta && e1.delta == e.delta && g1.shares == g.shares && g1.triples == g.triples
    requires var n := if gates[0].AndGate? then 1 else 0;
             g1.shareIndex == g.shareIndex + n && g1.tripleIndex == g.tripleIndex + n
    ensures ExecDone(gates, g, e, vals, g', e', gws', ews')
  {}

  /** Running the same gates on both sides goes through without an abort, and keeps
      the wire invariant with the clear evaluation on every wire. */
  lemma {:induction false} ExecReaches<A, B>(lib: Library, gates: seq<Gate>, g: GbState, e: EvState, gp: PreState,
                                             ep: PreState,
      gws: seq<Wire>, ews: seq<Wire>, vals: seq<bool>, gf: PreState, ef: PreState,
      k: (GbState, seq<Wire>) -> Proc<A>, h: (EvState, seq<Wire>) -> Proc<B>)
    returns (g': GbState, e': EvState, gws': seq<Wire>, ews': seq<Wire>)
    requires Ready(lib, gates, g, e, gp, ep, gws, ews, vals, gf, ef)
    ensures ExecDone(gates, g, e, vals, g', e', gws', ews')
    ensures Reaches(Net(GbExec(lib, gates, g, gws, k), EvExec(lib, gates, e, ews, h), [], []),
                    Net(k(g', gws'), h(e', ews'), [], []))
    decreases |gates|
  {
    hide Paired, ConstantsPaired, PairedLists, KnownTriples, PreRun;
    if gates == [] {
      g', e', gws', ews' := g, e, gws, ews;
      ReachesSelf(Net(k(g, gws), h(e, ews), [], []));
    } else {
      WellFormedTail(gates, |gws|);
      var v := GateValue(gates[0], vals);
      var g1, e1, gp1, ep1, gw, ew;
      match gates[0] {
      case XorGate(a, b) =>
        gw, ew := GbXor(gws[a], gws[b]), EvXor(ews[a], ews[b]);
        XorWire(gws[a], ews[a], vals[a], gws[b], ews[b], vals[b], g.delta, e.delta);
        ReadyAfterFree(lib, gates, g, e, gp, ep, gws, ews, vals, gf, ef, gw, ew, g.drawn);
        g1, e1, gp1, ep1 := g, e, gp, ep;
        ReachesSelf(NextNet(lib, gates[1..], g1, e1, gws + [gw], ews + [ew], k, h));
      case InvGate(a) =>
        gw, ew := GbNegate(g, gws[a]), EvNegate(e, ews[a]);
        NegateWire(g, e, gws[a], ews[a], vals[a], g.delta, e.delta);
        ReadyAfterFree(lib, gates, g, e, gp, ep, gws, ews, vals, gf, ef, gw, ew, g.drawn);
        g1, e1, gp1, ep1 := g, e, gp, ep;
        ReachesSelf(NextNet(lib, gates[1..], g1, e1, gws + [gw], ews + [ew], k, h));
      case AndGate(a, b) =>
        gw, ew := AndGateReaches(lib, gates, g, e, gp, ep, gws, ews, vals, gf, ef, k, h);
        ReadyAfterAnd(lib, gates, g, e, gp, ep, gws, ews, vals, gf, ef, gw, ew);
        g1, e1 := GbAfterAnd(g), EvAfterAnd(e);
        gp1, ep1 := PreAnd(gp, gws[a].share, gws[b].share), PreAnd(ep, ews[a].share, ews[b].share);
      case ConstGate(c) =>
        gw, ew := ConstGateReaches(lib, gates, g, e, gws, ews, k, h);
        ReadyAfterFree(lib, gates, g, e, gp, ep, gws, ews, vals, gf, ef, gw, ew, g.drawn + 1);
        g1, e1, gp1, ep1 := g.(drawn := g.drawn + 1), e, gp, ep;
      }
      g', e', gws', ews' := ExecReaches(lib, gates[1..], g1, e1, gp1, ep1, gws + [gw], ews + [ew], vals + [v], gf, ef,
                                        k, h);
      DoneStep(gates, g, e, vals, g1, e1, g', e', gws', ews');
      ReachesTrans(NextNet(lib, gates, g, e, gws, ews, k, h),
                   NextNet(lib, gates[1..], g1, e1, gws + [gw], ews + [ew], k, h),
                   Net(k(g', gws'), h(e', ews'), [], []));
    }
  }

  /** Both parties about to run `gates`, with nothing in flight. */
  function NextNet<A, B>(lib: Library, gates: seq<Gate>, g: GbState, e: EvState, gws: seq<Wire>, ews: seq<Wire>,
                         k: (GbState, seq<Wire>) -> Proc<A>, h: (EvState, seq<Wire>) -> Proc<B>): Net<A, B>
  {
    Net(GbExec(lib, gates, g, gws, k), EvExec(lib, gates, e, ews, h), [], [])
  }

  lemma AndGateReaches<A, B>(lib: Library, gates: seq<Gate>, g: GbState, e: EvState, gp: PreState, ep: PreState,
      gws: seq<Wire>, ews: seq<Wire>, vals: seq<bool>, gf: PreState, ef: PreState,
      k: (GbState, seq<Wire>) -> Proc<A>, h: (EvState, seq<Wire>) -> Proc<B>)
    returns (gw: Wire, ew: Wire)
    requires Ready(lib, gates, g, e, gp, ep, gws, ews, vals, gf, ef)
    requires gates != [] && gates[0].AndGate? && ReadsBelow(gates[0], |vals|)
    ensures WireInv(gw, ew, GateValue(gates[0], vals), g.delta, e.delta)
    ensures gw.share == g.shares[g.shareIndex] && ew.share == e.shares[e.shareIndex]
    ensures Reaches(NextNet(lib, gates, g, e, gws, ews, k, h),
                    NextNet(lib, gates[1..], GbAfterAnd(g), EvAfterAnd(e), gws + [gw], ews + [ew], k, h))
  {
    NextTriple(lib, gates, g, e, gp, ep, gws, ews, gf, ef);
    var a, b := gates[0].a, gates[0].b;
    var k1 := (s: GbState, w: Wire) => GbExec(lib, gates[1..], s, gws + [w], k);
    var h1 := (s: EvState, w: Wire) => EvExec(lib, gates[1..], s, ews + [w], h);
    gw, ew := AndReaches(lib, g, e, gws[a], gws[b], ews[a], ews[b], vals[a], vals[b], k1, h1);
    assert GbExec(lib, gates, g, gws, k) == GbAnd(lib, g, gws[a], gws[b], k1);
    assert EvExec(lib, gates, e, ews, h) == EvAnd(lib, e, ews[a], ews[b], h1);
  }

  lemma ConstGateReaches<A, B>(lib: Library, gates: seq<Gate>, g: GbState, e: EvState, gws: seq<Wire>, ews: seq<Wire>,
      k: (GbState, seq<Wire>) -> Proc<A>, h: (EvState, seq<Wire>) -> Proc<B>)
    returns (gw: Wire, ew: Wire)
    requires ConstantsPaired(lib)
    requires gates != [] && gates[0].ConstGate?
    ensures WireInv(gw, ew, gates[0].v, g.delta, e.delta)
    ensures gw.share == lib.garblerConst(false, g.delta) && ew.share == lib.evaluatorConst(false, e.delta)
    ensures Reaches(NextNet(lib, gates, g, e, gws, ews, k, h),
                    NextNet(lib, gates[1..], g.(drawn := g.drawn + 1), e, gws + [gw], ews + [ew], k, h))
  {
    var v := gates[0].v;
    var zeroLabel := g.rand(g.drawn);
    gw := Wire(v, zeroLabel, lib.garblerConst(false, g.delta));
    ew := Wire(v, Xor(zeroLabel, Times(v, g.delta)), lib.evaluatorConst(false, e.delta));
    ConstantWire(lib, zeroLabel, v, g.delta, e.delta);
    var k1 := (s: GbState, w: Wire) => GbExec(lib, gates[1..], s, gws + [w], k);
    var h1 := (s: EvState, w: Wire) => EvExec(lib, gates[1..], s, ews + [w], h);
    var p, q := GbConstant(lib, g, v, k1), EvConstant(lib, e, v, h1);
    assert GbExec(lib, gates, g, gws, k) == p && EvExec(lib, gates, e, ews, h) == q;
    var t := NextNet(lib, gates[1..], g.(drawn := g.drawn + 1), e, gws + [gw], ews + [ew], k, h);
    assert t == Net(p.next, q.k(p.m), [], []);
    ReachesSelf(t);
    PassPQ(p, q, t);
  }
}
