/** Honest setups exist: what the engine's theorem assumes can be met for every circuit. */
module HonestStart {
  import opened Bits
  import opened Circuit
  import opened Network
  import opened Shares
  import opened Parties
  import opened Engine
  import opened JointRun

  /** A library with any label hash: the evaluator holds the constant, the garbler nothing. */
  function SomeLibrary(hash: (Label, nat) -> Label): Library {
    Library(hash,
            (c: bool, dg: Label) => AuthShare(false, Zeros(128), Times(c, dg)),
            (c: bool, de: Label) => AuthShare(c, Zeros(128), Zeros(128)))
  }

  lemma SomeLibraryPaired(hash: (Label, nat) -> Label)
    ensures ConstantsPaired(SomeLibrary(hash))
  {
    var lib := SomeLibrary(hash);
    forall c, dg: Label, de: Label
      ensures Paired(lib.garblerConst(c, dg), lib.evaluatorConst(c, de), dg, de)
      ensures Mask(lib.garblerConst(c, dg), lib.evaluatorConst(c, de)) == c
    {
      XorZero(Times(c, dg));
      XorZero(Zeros(128));
    }
  }

  /** Shares of the bit `b`, held by the garbler. */
  function SomeShare(b: bool, de: Label): AuthShare {
    AuthShare(b, Times(b, de), Zeros(128))
  }

  function NoShare(): AuthShare {
    AuthShare(false, Zeros(128), Zeros(128))
  }

  lemma SomeSharePaired(b: bool, dg: Label, de: Label)
    ensures Paired(SomeShare(b, de), NoShare(), dg, de) && Mask(SomeShare(b, de), NoShare()) == b
  {
    XorZero(Times(b, de));
    XorZero(Zeros(128));
  }

  /** Triples for the operands that two preprocessors recorded. */
  function TriplesOf(gf: PreState, ef: PreState, de: Label): (r: seq<AuthShare>)
    requires |gf.left| == |gf.right| == |ef.left| == |ef.right|
    ensures |r| == |gf.left|
  {
    seq(|gf.left|, i requires 0 <= i < |gf.left| =>
      SomeShare(Mask(gf.left[i], ef.left[i]) && Mask(gf.right[i], ef.right[i]), de))
  }

  /** For every circuit, every pair of deltas of which the garbler's has last bit one, and every
      consistent list of wire shares of the generated length, there are triples that make the
      setup honest. */
  lemma TriplesExist(lib: Library, gates: seq<Gate>, inputs: nat, dg: Label, de: Label, zero: Label, rand: nat -> Label,
                     gs: seq<AuthShare>, es: seq<AuthShare>)
    returns (u: Setup)
    requires ConstantsPaired(lib) && dg[127] && WellFormed(gates, inputs)
    requires |gs| == inputs + Ands(gates) + Consts(gates) && PairedLists(gs, es, dg, de)
    ensures HonestSetup(u, gates, inputs) && u.lib == lib
    ensures u.g.shares == gs && u.e.shares == es && u.g.delta == dg && u.e.delta == de
  {
    var gf := PreRun(gates, inputs, gs, dg, lib.garblerConst(false, dg));
    var ef := PreRun(gates, inputs, es, de, lib.evaluatorConst(false, de));
    var gt, et := TriplesOf(gf, ef, de), seq(|gf.left|, _ => NoShare());
    forall i | 0 <= i < |gt|
      ensures Paired(gt[i], et[i], dg, de)
      ensures Mask(gt[i], et[i]) == (Mask(gf.left[i], ef.left[i]) && Mask(gf.right[i], ef.right[i]))
    {
      SomeSharePaired(Mask(gf.left[i], ef.left[i]) && Mask(gf.right[i], ef.right[i]), dg, de);
    }
    u := Setup(lib, GbState(dg, zero, 0, gs, 0, gt, 0, rand, 0), EvState(de, Zeros(128), 0, es, 0, et, 0), gf, ef);
  }

  /** Some consistent shares of any length. */
  lemma SharesExist(n: nat, dg: Label, de: Label) returns (gs: seq<AuthShare>, es: seq<AuthShare>)
    ensures |gs| == n && PairedLists(gs, es, dg, de)
  {
    gs, es := seq(n, _ => SomeShare(false, de)), seq(n, _ => NoShare());
    SomeSharePaired(false, dg, de);
  }

  /** So every circuit has an honest setup. */
  lemma SetupExists(gates: seq<Gate>, inputs: nat) returns (u: Setup)
    requires WellFormed(gates, inputs)
    ensures HonestSetup(u, gates, inputs)
  {
    hide HonestSetup, Paired, PairedLists, SomeLibrary;
    var hash: (Label, nat) -> Label := (l: Label, i: nat) => l;
    var dg: Label, zero: Label := Zeros(127) + [true], Zeros(128);
    SomeLibraryPaired(hash);
    var gs, es := SharesExist(inputs + Ands(gates) + Consts(gates), dg, zero);
    u := TriplesExist(SomeLibrary(hash), gates, inputs, dg, zero, zero, (i: nat) => Zeros(128), gs, es);
  }
}
