/** Authenticated shares of one bit, as the garbler and the evaluator hold them. */
module Shares {
  import opened Bits
  import opened Network
  import Words

  /** The low bit of a label, the last one in MSB-first order. */
  function Lsb(x: Label): bool {
    x[127]
  }

  /** One party's half: its own bit, the MAC on it, and its key for the other party's bit. */
  datatype AuthShare = AuthShare(bit: bool, mac: Label, key: Label)

  function XorShare(x: AuthShare, y: AuthShare): AuthShare {
    AuthShare(x.bit != y.bit, Xor(x.mac, y.mac), Xor(x.key, y.key))
  }

  /** Multiplication by a public bit. */
  function MulConst(x: AuthShare, c: bool): AuthShare {
    AuthShare(c && x.bit, Times(c, x.mac), Times(c, x.key))
  }

  /** Each party's MAC authenticates its bit under the other party's key and delta. */
  predicate Paired(g: AuthShare, e: AuthShare, dg: Label, de: Label) {
    && e.mac == Xor(g.key, Times(e.bit, dg))
    && g.mac == Xor(e.key, Times(g.bit, de))
  }

  /** The bit that the two halves share. */
  function Mask(g: AuthShare, e: AuthShare): bool {
    g.bit != e.bit
  }

  /** What a party sends to open a share, and the check its peer makes. */
  function Opening(x: AuthShare): Msg {
    OpenMsg(x.bit, x.mac)
  }

  predicate Authentic(mine: AuthShare, theirs: Msg, delta: Label) {
    theirs.OpenMsg? && theirs.mac == Xor(mine.key, Times(theirs.bit, delta))
  }

  /** The parts of the protocol that come from libraries: the label hash and the
      two halves of a share of a public constant. */
  datatype Library = Library(
    hash: (Label, nat) -> Label,
    garblerConst: (bool, Label) -> AuthShare,
    evaluatorConst: (bool, Label) -> AuthShare)

  /** Shares of public constants are consistent and share that constant. */
  ghost predicate ConstantsPaired(lib: Library) {
    forall c, dg, de {:trigger lib.garblerConst(c, dg), lib.evaluatorConst(c, de)} ::
      && Paired(lib.garblerConst(c, dg), lib.evaluatorConst(c, de), dg, de)
      && Mask(lib.garblerConst(c, dg), lib.evaluatorConst(c, de)) == c
  }

  lemma XorPaired(g1: AuthShare, e1: AuthShare, g2: AuthShare, e2: AuthShare, dg: Label, de: Label)
    requires Paired(g1, e1, dg, de) && Paired(g2, e2, dg, de)
    ensures Paired(XorShare(g1, g2), XorShare(e1, e2), dg, de)
    ensures Mask(XorShare(g1, g2), XorShare(e1, e2)) == (Mask(g1, e1) != Mask(g2, e2))
  {
    XorSwap(g1.key, Times(e1.bit, dg), g2.key, Times(e2.bit, dg));
    TimesXor(e1.bit, e2.bit, dg);
    XorSwap(e1.key, Times(g1.bit, de), e2.key, Times(g2.bit, de));
    TimesXor(g1.bit, g2.bit, de);
  }

  lemma MulPaired(g: AuthShare, e: AuthShare, c: bool, dg: Label, de: Label)
    requires Paired(g, e, dg, de)
    ensures Paired(MulConst(g, c), MulConst(e, c), dg, de)
    ensures Mask(MulConst(g, c), MulConst(e, c)) == (c && Mask(g, e))
  {
    if c {
      assert MulConst(g, c) == g && MulConst(e, c) == e;
    } else {
      XorZero(Zeros(128));
    }
  }

  /** The last bit is the one that makes the label odd as a number. */
  lemma LsbIsOdd(x: Label)
    ensures Lsb(x) <==> Words.ToNat(x) % 2 == 1
  {
    assert x == x[..127] + [x[127]];
    Words.ToNatSnoc(x[..127], x[127]);
  }

  /** A party accepts the honest opening of a consistent share, in either direction. */
  lemma OpeningAccepted(g: AuthShare, e: AuthShare, dg: Label, de: Label)
    requires Paired(g, e, dg, de)
    ensures Authentic(g, Opening(e), dg) && Authentic(e, Opening(g), de)
  {}

  lemma XorDiffers(a: Label, d: Label)
    requires d != Zeros(128)
    ensures Xor(a, d) != a
  {
    var i :| 0 <= i < 128 && d[i];
    assert Xor(a, d)[i] != a[i];
  }

  /** Under one MAC no key and delta accept both bits. */
  lemma OneBitAccepted(mine: AuthShare, mac: Label, delta: Label)
    requires delta != Zeros(128)
    ensures !(Authentic(mine, OpenMsg(false, mac), delta) && Authentic(mine, OpenMsg(true, mac), delta))
  {
    XorZero(mine.key);
    XorDiffers(mine.key, delta);
  }

  /** Opening a consistent share with its own MAC: a bit is accepted exactly if it is the share's
      bit, unless the other party's delta is zero. */
  lemma OnlyItsBit(g: AuthShare, e: AuthShare, dg: Label, de: Label, b: bool)
    requires Paired(g, e, dg, de)
    ensures Authentic(g, OpenMsg(b, e.mac), dg) <==> b == e.bit || dg == Zeros(128)
    ensures Authentic(e, OpenMsg(b, g.mac), de) <==> b == g.bit || de == Zeros(128)
  {
    OneDelta(g, e.mac, e.bit, b, dg);
    OneDelta(e, g.mac, g.bit, b, de);
  }

  lemma OneDelta(mine: AuthShare, mac: Label, bit: bool, b: bool, delta: Label)
    requires mac == Xor(mine.key, Times(bit, delta))
    ensures Authentic(mine, OpenMsg(b, mac), delta) <==> b == bit || delta == Zeros(128)
  {
    if delta == Zeros(128) {
      assert Times(b, delta) == Times(bit, delta);
    } else if b != bit {
      OneBitAccepted(mine, mac, delta);
    }
  }
}
