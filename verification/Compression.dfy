/** The SHA-256 compression circuit, built by appending gates, and its meaning on every
    768-bit input: the compression function of FIPS 180-4. */
module Compression {
  import opened Bits
  import opened Words
  import opened Sha256
  import opened CompressBuilder
  import Circuit

  // ---------------------------------------------------------------- what wires give

  /** In `g`, the word on `out` is `f` of the words on `a`, `c` and `d`. */
  ghost predicate Gives3(g: seq<Gate>, n: nat, f: (Word, Word, Word) -> Word, a: U32, c: U32, d: U32, out: U32) {
    && Circuit.Within(a, n + |g|) && Circuit.Within(c, n + |g|) && Circuit.Within(d, n + |g|)
    && Circuit.Within(out, n + |g|)
    && forall input: seq<bool> | |input| == n ::
         Read(g, out, input) == f(Read(g, a, input), Read(g, c, input), Read(g, d, input))
  }

  lemma Gives3Kept(g: seq<Gate>, g': seq<Gate>, n: nat, f: (Word, Word, Word) -> Word, a: U32, c: U32, d: U32, out: U32)
    requires Gives3(g, n, f, a, c, d, out) && g <= g' && Sequential(g', n)
    ensures Gives3(g', n, f, a, c, d, out)
  {
    forall input: seq<bool> | |input| == n
      ensures Read(g', out, input) == f(Read(g', a, input), Read(g', c, input), Read(g', d, input))
    {
      ReadKept(g, g', a, input);
      ReadKept(g, g', c, input);
      ReadKept(g, g', d, input);
      ReadKept(g, g', out, input);
    }
  }

  /** A unary function, for `Gives` with both operands the same word. */
  function Unary(f: Word -> Word): (Word, Word) -> Word {
    (x: Word, y: Word) => f(x)
  }

  // ---------------------------------------------------------------- round helpers

  method ChGates(b: Builder, x: U32, y: U32, z: U32) returns (out: U32)
    requires b.Valid() && b.Has(x) && b.Has(y) && b.Has(z)
    modifies b
    ensures b.Valid() && old(b.gates) <= b.gates
    ensures Gives3(b.gates, b.inputs, Ch, x, y, z, out)
  {
    var xy := AndU32(b, x, y);
    ghost var g1 := b.gates;
    var nx := NotU32(b, x);
    ghost var g2 := b.gates;
    var nxz := AndU32(b, nx, z);
    ghost var g3 := b.gates;
    out := XorU32(b, xy, nxz);
    GivesKept(g1, b.gates, b.inputs, AndW, x, y, xy);
    GivesKept(g2, b.gates, b.inputs, (x: Word, y: Word) => NotW(x), x, x, nx);
    GivesKept(g3, b.gates, b.inputs, AndW, nx, z, nxz);
  }

  method MajGates(b: Builder, x: U32, y: U32, z: U32) returns (out: U32)
    requires b.Valid() && b.Has(x) && b.Has(y) && b.Has(z)
    modifies b
    ensures b.Valid() && old(b.gates) <= b.gates
    ensures Gives3(b.gates, b.inputs, Maj, x, y, z, out)
  {
    var xy := AndU32(b, x, y);
    ghost var g1 := b.gates;
    var xz := AndU32(b, x, z);
    ghost var g2 := b.gates;
    var yz := AndU32(b, y, z);
    ghost var g3 := b.gates;
    var a := XorU32(b, xy, xz);
    ghost var g4 := b.gates;
    out := XorU32(b, a, yz);
    GivesKept(g1, b.gates, b.inputs, AndW, x, y, xy);
    GivesKept(g2, b.gates, b.inputs, AndW, x, z, xz);
    GivesKept(g3, b.gates, b.inputs, AndW, y, z, yz);
    GivesKept(g4, b.gates, b.inputs, XorW, xy, xz, a);
  }

  /** The XOR of three words that are rewirings of `x`. */
  method XorThree(b: Builder, a: U32, c: U32, d: U32) returns (out: U32)
    requires b.Valid() && b.Has(a) && b.Has(c) && b.Has(d)
    modifies b
    ensures b.Valid() && old(b.gates) <= b.gates
    ensures Gives3(b.gates, b.inputs, (x: Word, y: Word, z: Word) => XorW(XorW(x, y), z), a, c, d, out)
  {
    var e := XorU32(b, a, c);
    ghost var g1 := b.gates;
    out := XorU32(b, e, d);
    GivesKept(g1, b.gates, b.inputs, XorW, a, c, e);
  }

  method BigSigma0Gates(b: Builder, x: U32) returns (out: U32)
    requires b.Valid() && b.Has(x)
    modifies b
    ensures b.Valid() && old(b.gates) <= b.gates
    ensures Gives(b.gates, b.inputs, Unary(BigSigma0), x, x, out)
  {
    out := XorThree(b, RotrU32(x, 2), RotrU32(x, 13), RotrU32(x, 22));
    forall input: seq<bool> | |input| == b.inputs
      ensures Read(b.gates, out, input) == BigSigma0(Read(b.gates, x, input))
    {
      SmallRotrReads(b.gates, x, 2, input);
      SmallRotrReads(b.gates, x, 13, input);
      SmallRotrReads(b.gates, x, 22, input);
    }
  }

  method BigSigma1Gates(b: Builder, x: U32) returns (out: U32)
    requires b.Valid() && b.Has(x)
    modifies b
    ensures b.Valid() && old(b.gates) <= b.gates
    ensures Gives(b.gates, b.inputs, Unary(BigSigma1), x, x, out)
  {
    out := XorThree(b, RotrU32(x, 6), RotrU32(x, 11), RotrU32(x, 25));
    forall input: seq<bool> | |input| == b.inputs
      ensures Read(b.gates, out, input) == BigSigma1(Read(b.gates, x, input))
    {
      SmallRotrReads(b.gates, x, 6, input);
      SmallRotrReads(b.gates, x, 11, input);
      SmallRotrReads(b.gates, x, 25, input);
    }
  }

  method SmallSigma0Gates(b: Builder, x: U32) returns (out: U32)
    requires b.Valid() && b.Has(x)
    modifies b
    ensures b.Valid() && old(b.gates) <= b.gates
    ensures Gives(b.gates, b.inputs, Unary(SmallSigma0), x, x, out)
  {
    var d := ShrU32(b, x, 3);
    ghost var g := b.gates;
    out := XorThree(b, RotrU32(x, 7), RotrU32(x, 18), d);
    forall input: seq<bool> | |input| == b.inputs
      ensures Read(b.gates, out, input) == SmallSigma0(Read(b.gates, x, input))
    {
      SmallRotrReads(b.gates, x, 7, input);
      SmallRotrReads(b.gates, x, 18, input);
      ReadKept(g, b.gates, d, input);
      ReadKept(g, b.gates, x, input);
    }
  }

  method SmallSigma1Gates(b: Builder, x: U32) returns (out: U32)
    requires b.Valid() && b.Has(x)
    modifies b
    ensures b.Valid() && old(b.gates) <= b.gates
    ensures Gives(b.gates, b.inputs, Unary(SmallSigma1), x, x, out)
  {
    var d := ShrU32(b, x, 10);
    ghost var g := b.gates;
    out := XorThree(b, RotrU32(x, 17), RotrU32(x, 19), d);
    forall input: seq<bool> | |input| == b.inputs
      ensures Read(b.gates, out, input) == SmallSigma1(Read(b.gates, x, input))
    {
      SmallRotrReads(b.gates, x, 17, input);
      SmallRotrReads(b.gates, x, 19, input);
      ReadKept(g, b.gates, d, input);
      ReadKept(g, b.gates, x, input);
    }
  }

  // ---------------------------------------------------------------- message schedule

  /** Word `j` of the schedule is on the wires `x`. */
  ghost predicate OnWord(g: seq<Gate>, x: U32, j: nat) {
    && Circuit.Within(x, 768 + |g|)
    && forall input: seq<bool> | |input| == 768 :: Read(g, x, input) == Schedule(BlockOf(input[256..]), j)
  }

  /** The first `|w|` words of the schedule are on the wires `w`. */
  ghost predicate Scheduled(g: seq<Gate>, w: seq<U32>) {
    forall j :: 0 <= j < |w| ==> OnWord(g, w[j], j)
  }

  lemma OnWordKept(g: seq<Gate>, g': seq<Gate>, x: U32, j: nat)
    requires OnWord(g, x, j) && g <= g' && Sequential(g', 768)
    ensures OnWord(g', x, j)
  {
    forall input: seq<bool> | |input| == 768
      ensures Read(g', x, input) == Schedule(BlockOf(input[256..]), j)
    {
      ReadKept(g, g', x, input);
    }
  }

  lemma ScheduledKept(g: seq<Gate>, g': seq<Gate>, w: seq<U32>)
    requires Scheduled(g, w) && g <= g' && Sequential(g', 768)
    ensures Scheduled(g', w)
  {
    forall j | 0 <= j < |w| ensures OnWord(g', w[j], j) {
      OnWordKept(g, g', w[j], j);
    }
  }

  /** The two small sigmas of one word. */
  method ScheduleSigmas(b: Builder, x: U32, y: U32) returns (s1: U32, s0: U32)
    requires b.Valid() && b.Has(x) && b.Has(y)
    modifies b
    ensures b.Valid() && old(b.gates) <= b.gates
    ensures Gives(b.gates, b.inputs, Unary(SmallSigma1), x, x, s1)
    ensures Gives(b.gates, b.inputs, Unary(SmallSigma0), y, y, s0)
  {
    s1 := SmallSigma1Gates(b, x);
    ghost var g1 := b.gates;
    s0 := SmallSigma0Gates(b, y);
    GivesKept(g1, b.gates, b.inputs, Unary(SmallSigma1), x, x, s1);
  }

  /** The sum of four words, added as two pairs. */
  method AddPairs(b: Builder, s1: U32, x: U32, s0: U32, y: U32) returns (t: U32, u: U32, sum: U32)
    requires b.Valid() && b.Has(s1) && b.Has(x) && b.Has(s0) && b.Has(y)
    modifies b
    ensures b.Valid() && old(b.gates) <= b.gates
    ensures Gives(b.gates, b.inputs, AddW, s1, x, t) && Gives(b.gates, b.inputs, AddW, s0, y, u)
    ensures Gives(b.gates, b.inputs, AddW, t, u, sum)
  {
    t := AddU32(b, s1, x);
    ghost var g1 := b.gates;
    u := AddU32(b, s0, y);
    ghost var g2 := b.gates;
    sum := AddU32(b, t, u);
    GivesKept(g1, b.gates, b.inputs, AddW, s1, x, t);
    GivesKept(g2, b.gates, b.inputs, AddW, s0, y, u);
  }

  /** One word of the schedule. The four terms are added as two pairs; the standard
      adds them from the left. */
  method NextScheduleWord(b: Builder, w: seq<U32>) returns (wi: U32)
    requires b.Valid() && b.inputs == 768 && 16 <= |w| < 64 && Scheduled(b.gates, w)
    modifies b
    ensures b.Valid() && old(b.gates) <= b.gates && Scheduled(b.gates, w + [wi])
  {
    var i := |w|;
    ghost var g0 := b.gates;
    var s1, s0 := ScheduleSigmas(b, w[i - 2], w[i - 15]);
    ghost var g1 := b.gates;
    var t, u, sum := AddPairs(b, s1, w[i - 7], s0, w[i - 16]);
    wi := sum;
    ScheduleGrows(g0, g1, b.gates, w, w[i - 2], w[i - 15], s1, s0, t, u, wi);
  }

  lemma ScheduleGrows(g0: seq<Gate>, g1: seq<Gate>, g: seq<Gate>, w: seq<U32>, x: U32, y: U32, s1: U32, s0: U32,
                      t: U32, u: U32, wi: U32)
    requires 16 <= |w| < 64 && Scheduled(g0, w) && g0 <= g1 <= g && Sequential(g, 768)
    requires x == w[|w| - 2] && y == w[|w| - 15]
    requires Gives(g1, 768, Unary(SmallSigma1), x, x, s1) && Gives(g1, 768, Unary(SmallSigma0), y, y, s0)
    requires Gives(g, 768, AddW, s1, w[|w| - 7], t) && Gives(g, 768, AddW, s0, w[|w| - 16], u)
    requires Gives(g, 768, AddW, t, u, wi)
    ensures Scheduled(g, w + [wi])
  {
    GivesKept(g1, g, 768, Unary(SmallSigma1), x, x, s1);
    GivesKept(g1, g, 768, Unary(SmallSigma0), y, y, s0);
    ScheduledKept(g0, g, w);
    ScheduleStep(g, w, s1, s0, t, u, wi);
  }

  /** The new word on one input, from the four earlier words it is made of. */
  lemma ScheduleWord(g: seq<Gate>, input: seq<bool>, m: seq<Word>, i: nat, w2: U32, w7: U32, w15: U32, w16: U32,
                     s1: U32, s0: U32, t: U32, u: U32, wi: U32)
    requires |input| == 768 && |m| == 16 && 16 <= i < 64
    requires Read(g, w2, input) == Schedule(m, i - 2) && Read(g, w7, input) == Schedule(m, i - 7)
    requires Read(g, w15, input) == Schedule(m, i - 15) && Read(g, w16, input) == Schedule(m, i - 16)
    requires Read(g, s1, input) == SmallSigma1(Read(g, w2, input))
             && Read(g, s0, input) == SmallSigma0(Read(g, w15, input))
    requires Read(g, t, input) == AddMod(Read(g, s1, input), Read(g, w7, input))
    requires Read(g, u, input) == AddMod(Read(g, s0, input), Read(g, w16, input))
    requires Read(g, wi, input) == AddMod(Read(g, t, input), Read(g, u, input))
    ensures Read(g, wi, input) == Schedule(m, i)
  {
    AddModAssoc(Read(g, t, input), Read(g, s0, input), Read(g, w16, input));
  }

  lemma ScheduleStep(g: seq<Gate>, w: seq<U32>, s1: U32, s0: U32, t: U32, u: U32, wi: U32)
    requires 16 <= |w| < 64 && Scheduled(g, w)
    requires Gives(g, 768, Unary(SmallSigma1), w[|w| - 2], w[|w| - 2], s1)
    requires Gives(g, 768, Unary(SmallSigma0), w[|w| - 15], w[|w| - 15], s0)
    requires Gives(g, 768, AddW, s1, w[|w| - 7], t)
    requires Gives(g, 768, AddW, s0, w[|w| - 16], u)
    requires Gives(g, 768, AddW, t, u, wi)
    ensures Scheduled(g, w + [wi])
  {
    var i := |w|;
    assert OnWord(g, w[i - 2], i - 2) && OnWord(g, w[i - 7], i - 7);
    assert OnWord(g, w[i - 15], i - 15) && OnWord(g, w[i - 16], i - 16);
    forall input: seq<bool> | |input| == 768
      ensures Read(g, wi, input) == Schedule(BlockOf(input[256..]), i)
    {
      ScheduleWord(g, input, BlockOf(input[256..]), i, w[i - 2], w[i - 7], w[i - 15], w[i - 16], s1, s0, t, u, wi);
    }
  }

  // ---------------------------------------------------------------- rounds

  predicate HasVars(v: Vars<U32>, n: nat) {
    && Circuit.Within(v.a, n) && Circuit.Within(v.b, n) && Circuit.Within(v.c, n) && Circuit.Within(v.d, n)
    && Circuit.Within(v.e, n) && Circuit.Within(v.f, n) && Circuit.Within(v.g, n) && Circuit.Within(v.h, n)
  }

  function ReadVars(g: seq<Gate>, v: Vars<U32>, input: seq<bool>): Vars<Word> {
    Vars(Read(g, v.a, input), Read(g, v.b, input), Read(g, v.c, input), Read(g, v.d, input),
         Read(g, v.e, input), Read(g, v.f, input), Read(g, v.g, input), Read(g, v.h, input))
  }

  lemma ReadVarsKept(g: seq<Gate>, g': seq<Gate>, v: Vars<U32>, input: seq<bool>)
    requires Sequential(g', |input|) && g <= g' && HasVars(v, |input| + |g|)
    ensures ReadVars(g', v, input) == ReadVars(g, v, input)
  {
    ReadKept(g, g', v.a, input);
    ReadKept(g, g', v.b, input);
    ReadKept(g, g', v.c, input);
    ReadKept(g, g', v.d, input);
    ReadKept(g, g', v.e, input);
    ReadKept(g, g', v.f, input);
    ReadKept(g, g', v.g, input);
    ReadKept(g, g', v.h, input);
  }

  ghost predicate GivesTemp1(g: seq<Gate>, n: nat, v: Vars<U32>, k: U32, w: U32, t1: U32) {
    && HasVars(v, n + |g|) && Circuit.Within(k, n + |g|) && Circuit.Within(w, n + |g|) && Circuit.Within(t1, n + |g|)
    && forall input: seq<bool> | |input| == n ::
         Read(g, t1, input) == Temp1(ReadVars(g, v, input), Read(g, k, input), Read(g, w, input))
  }

  ghost predicate GivesTemp2(g: seq<Gate>, n: nat, v: Vars<U32>, t2: U32) {
    && HasVars(v, n + |g|) && Circuit.Within(t2, n + |g|)
    && forall input: seq<bool> | |input| == n :: Read(g, t2, input) == Temp2(ReadVars(g, v, input))
  }

  lemma Temp1Kept(g: seq<Gate>, g': seq<Gate>, n: nat, v: Vars<U32>, k: U32, w: U32, t1: U32)
    requires GivesTemp1(g, n, v, k, w, t1) && g <= g' && Sequential(g', n)
    ensures GivesTemp1(g', n, v, k, w, t1)
  {
    forall input: seq<bool> | |input| == n
      ensures Read(g', t1, input) == Temp1(ReadVars(g', v, input), Read(g', k, input), Read(g', w, input))
    {
      ReadVarsKept(g, g', v, input);
      ReadKept(g, g', k, input);
      ReadKept(g, g', w, input);
      ReadKept(g, g', t1, input);
    }
  }

  lemma Temp2Kept(g: seq<Gate>, g': seq<Gate>, n: nat, v: Vars<U32>, t2: U32)
    requires GivesTemp2(g, n, v, t2) && g <= g' && Sequential(g', n)
    ensures GivesTemp2(g', n, v, t2)
  {
    forall input: seq<bool> | |input| == n
      ensures Read(g', t2, input) == Temp2(ReadVars(g', v, input))
    {
      ReadVarsKept(g, g', v, input);
      ReadKept(g, g', t2, input);
    }
  }

  /** T1 = h + Sigma1(e) + Ch(e, f, g) + K + W */
  method Temp1Gates(b: Builder, v: Vars<U32>, k: U32, w: U32) returns (t1: U32)
    requires b.Valid() && HasVars(v, b.inputs + |b.gates|) && b.Has(k) && b.Has(w)
    modifies b
    ensures b.Valid() && old(b.gates) <= b.gates && GivesTemp1(b.gates, b.inputs, v, k, w, t1)
  {
    var s1 := BigSigma1Gates(b, v.e);
    ghost var g1 := b.gates;
    var chv := ChGates(b, v.e, v.f, v.g);
    ghost var g2 := b.gates;
    var t := AddU32(b, v.h, s1);
    ghost var g3 := b.gates;
    var t' := AddU32(b, t, chv);
    ghost var g4 := b.gates;
    var t'' := AddU32(b, t', k);
    ghost var g5 := b.gates;
    t1 := AddU32(b, t'', w);
    ghost var g, n := b.gates, b.inputs;
    GivesKept(g1, g, n, Unary(BigSigma1), v.e, v.e, s1);
    Gives3Kept(g2, g, n, Ch, v.e, v.f, v.g, chv);
    GivesKept(g3, g, n, AddW, v.h, s1, t);
    GivesKept(g4, g, n, AddW, t, chv, t');
    GivesKept(g5, g, n, AddW, t', k, t'');
    Temp1Value(g, n, v, k, w, s1, chv, t, t', t'', t1);
  }

  lemma Temp1Value(g: seq<Gate>, n: nat, v: Vars<U32>, k: U32, w: U32, s1: U32, chv: U32, t: U32, t': U32, t'': U32,
                   t1: U32)
    requires HasVars(v, n + |g|)
    requires Gives(g, n, Unary(BigSigma1), v.e, v.e, s1) && Gives3(g, n, Ch, v.e, v.f, v.g, chv)
    requires Gives(g, n, AddW, v.h, s1, t) && Gives(g, n, AddW, t, chv, t') && Gives(g, n, AddW, t', k, t'')
    requires Gives(g, n, AddW, t'', w, t1)
    ensures GivesTemp1(g, n, v, k, w, t1)
  {}

  /** T2 = Sigma0(a) + Maj(a, b, c) */
  method Temp2Gates(b: Builder, v: Vars<U32>) returns (t2: U32)
    requires b.Valid() && HasVars(v, b.inputs + |b.gates|)
    modifies b
    ensures b.Valid() && old(b.gates) <= b.gates && GivesTemp2(b.gates, b.inputs, v, t2)
  {
    var s0 := BigSigma0Gates(b, v.a);
    ghost var g1 := b.gates;
    var mj := MajGates(b, v.a, v.b, v.c);
    ghost var g2 := b.gates;
    t2 := AddU32(b, s0, mj);
    ghost var g, n := b.gates, b.inputs;
    GivesKept(g1, g, n, Unary(BigSigma0), v.a, v.a, s0);
    Gives3Kept(g2, g, n, Maj, v.a, v.b, v.c, mj);
  }

  /** The wires `v'` carry the round function of the words on `v`. */
  ghost predicate GivesRound(g: seq<Gate>, n: nat, v: Vars<U32>, k: U32, w: U32, v': Vars<U32>) {
    && HasVars(v, n + |g|) && HasVars(v', n + |g|)
    && forall input: seq<bool> | |input| == n ::
         ReadVars(g, v', input) == Round(ReadVars(g, v, input), Read(g, k, input), Read(g, w, input))
  }

  method RoundGates(b: Builder, v: Vars<U32>, k: U32, w: U32) returns (v': Vars<U32>)
    requires b.Valid() && HasVars(v, b.inputs + |b.gates|) && b.Has(k) && b.Has(w)
    modifies b
    ensures b.Valid() && old(b.gates) <= b.gates && GivesRound(b.gates, b.inputs, v, k, w, v')
  {
    var t1 := Temp1Gates(b, v, k, w);
    ghost var g1 := b.gates;
    var t2 := Temp2Gates(b, v);
    ghost var g2 := b.gates;
    var e := AddU32(b, v.d, t1);
    ghost var g3 := b.gates;
    var a := AddU32(b, t1, t2);
    v' := Vars(a, v.a, v.b, v.c, e, v.e, v.f, v.g);
    ghost var g, n := b.gates, b.inputs;
    Temp1Kept(g1, g, n, v, k, w, t1);
    Temp2Kept(g2, g, n, v, t2);
    GivesKept(g3, g, n, AddW, v.d, t1, e);
    RoundValue(g, n, v, k, w, t1, t2, e, a);
  }

  lemma RoundValue(g: seq<Gate>, n: nat, v: Vars<U32>, k: U32, w: U32, t1: U32, t2: U32, e: U32, a: U32)
    requires GivesTemp1(g, n, v, k, w, t1) && GivesTemp2(g, n, v, t2)
    requires Gives(g, n, AddW, v.d, t1, e) && Gives(g, n, AddW, t1, t2, a)
    ensures GivesRound(g, n, v, k, w, Vars(a, v.a, v.b, v.c, e, v.e, v.f, v.g))
  {}

  // ---------------------------------------------------------------- the whole circuit

  /** The wires `v` carry the working variables after `t` rounds. */
  ghost predicate Rounded(g: seq<Gate>, v: Vars<U32>, t: nat)
    requires t <= 64
  {
    && HasVars(v, 768 + |g|)
    && forall input: seq<bool> | |input| == 768 :: RoundsRead(g, v, t, input)
  }

  /** On this input the wires `v` read as the working variables after `t` rounds. */
  ghost predicate RoundsRead(g: seq<Gate>, v: Vars<U32>, t: nat, input: seq<bool>)
    requires t <= 64 && |input| == 768
  {
    ReadVars(g, v, input) == Rounds(VarsOf(input), BlockOf(input[256..]), t)
  }

  lemma RoundedStep(g0: seq<Gate>, g: seq<Gate>, v: Vars<U32>, t: nat, k: U32, w: U32, v': Vars<U32>)
    requires t < 64 && Rounded(g0, v, t) && g0 <= g && Sequential(g, 768)
    requires OnWord(g0, w, t) && Circuit.Within(k, 768 + |g0|)
    requires forall input: seq<bool> | |input| == 768 :: Read(g0, k, input) == FromNat(32, K[t])
    requires GivesRound(g, 768, v, k, w, v')
    ensures Rounded(g, v', t + 1)
  {
    forall input: seq<bool> | |input| == 768 ensures RoundsRead(g, v', t + 1, input) {
      RoundedValue(g0, g, v, t, k, w, v', input);
    }
  }

  lemma RoundedValue(g0: seq<Gate>, g: seq<Gate>, v: Vars<U32>, t: nat, k: U32, w: U32, v': Vars<U32>, input: seq<bool>)
    requires |input| == 768 && t < 64 && g0 <= g && Sequential(g, 768)
    requires HasVars(v, 768 + |g0|) && Circuit.Within(k, 768 + |g0|) && Circuit.Within(w, 768 + |g0|)
    requires RoundsRead(g0, v, t, input)
    requires Read(g0, k, input) == FromNat(32, K[t]) && Read(g0, w, input) == Schedule(BlockOf(input[256..]), t)
    requires ReadVars(g, v', input) == Round(ReadVars(g, v, input), Read(g, k, input), Read(g, w, input))
    ensures RoundsRead(g, v', t + 1, input)
  {
    ReadVarsKept(g0, g, v, input);
    ReadKept(g0, g, k, input);
    ReadKept(g0, g, w, input);
  }

  function InputWord(start: nat): (r: U32)
    ensures forall i :: 0 <= i < 32 ==> r[i] == start + i
  {
    seq(32, i requires 0 <= i < 32 => start + i)
  }

  lemma InputWordReads(g: seq<Gate>, i: nat, input: seq<bool>)
    requires Sequential(g, |input|) && 32 * i + 32 <= |input|
    ensures Read(g, InputWord(32 * i), input) == WordAt(input, i)
  {
    Ext(Read(g, InputWord(32 * i), input), WordAt(input, i));
  }

  function InputVars(): Vars<U32> {
    Vars(InputWord(0), InputWord(32), InputWord(64), InputWord(96), InputWord(128), InputWord(160), InputWord(192),
         InputWord(224))
  }

  lemma InputVarsRead(g: seq<Gate>, input: seq<bool>)
    requires Sequential(g, |input|) && |input| >= 256
    ensures ReadVars(g, InputVars(), input) == VarsOf(input)
  {
    InputWordReads(g, 0, input);
    InputWordReads(g, 1, input);
    InputWordReads(g, 2, input);
    InputWordReads(g, 3, input);
    InputWordReads(g, 4, input);
    InputWordReads(g, 5, input);
    InputWordReads(g, 6, input);
    InputWordReads(g, 7, input);
  }

  lemma BlockWordReads(g: seq<Gate>, j: nat, input: seq<bool>)
    requires Sequential(g, |input|) && |input| == 768 && j < 16
    ensures Read(g, InputWord(256 + 32 * j), input) == BlockOf(input[256..])[j]
  {
    InputWordReads(g, j + 8, input);
    Ext(WordAt(input[256..], j), WordAt(input, j + 8));
  }

  /** The chaining value's words and the block's words are on the input wires. */
  lemma InputsRead(g: seq<Gate>, w: seq<U32>)
    requires Sequential(g, 768)
    requires |w| == 16 && forall i :: 0 <= i < 16 ==> w[i] == InputWord(256 + 32 * i)
    ensures Rounded(g, InputVars(), 0) && Scheduled(g, w)
  {
    forall input: seq<bool> | |input| == 768
      ensures RoundsRead(g, InputVars(), 0, input)
    {
      InputVarsRead(g, input);
    }
    forall input: seq<bool>, j | |input| == 768 && 0 <= j < |w|
      ensures Read(g, w[j], input) == Schedule(BlockOf(input[256..]), j)
    {
      BlockWordReads(g, j, input);
    }
  }

  /** The addition of the chaining value, word by word. */
  ghost predicate GivesSums(g: seq<Gate>, n: nat, v: Vars<U32>, h: Vars<U32>, r: Vars<U32>) {
    && Gives(g, n, AddW, v.a, h.a, r.a) && Gives(g, n, AddW, v.b, h.b, r.b)
    && Gives(g, n, AddW, v.c, h.c, r.c) && Gives(g, n, AddW, v.d, h.d, r.d)
    && Gives(g, n, AddW, v.e, h.e, r.e) && Gives(g, n, AddW, v.f, h.f, r.f)
    && Gives(g, n, AddW, v.g, h.g, r.g) && Gives(g, n, AddW, v.h, h.h, r.h)
  }

  /** Four of the eight additions. */
  method SumFour(b: Builder, x: seq<U32>, y: seq<U32>) returns (r: seq<U32>)
    requires b.Valid() && |x| == |y| == 4
    requires b.Has(x[0]) && b.Has(x[1]) && b.Has(x[2]) && b.Has(x[3])
    requires b.Has(y[0]) && b.Has(y[1]) && b.Has(y[2]) && b.Has(y[3])
    modifies b
    ensures b.Valid() && old(b.gates) <= b.gates && |r| == 4
    ensures Gives(b.gates, b.inputs, AddW, x[0], y[0], r[0]) && Gives(b.gates, b.inputs, AddW, x[1], y[1], r[1])
    ensures Gives(b.gates, b.inputs, AddW, x[2], y[2], r[2]) && Gives(b.gates, b.inputs, AddW, x[3], y[3], r[3])
  {
    var r0 := AddU32(b, x[0], y[0]);
    ghost var g0 := b.gates;
    var r1 := AddU32(b, x[1], y[1]);
    ghost var g1 := b.gates;
    var r2 := AddU32(b, x[2], y[2]);
    ghost var g2 := b.gates;
    var r3 := AddU32(b, x[3], y[3]);
    GivesKept(g0, b.gates, b.inputs, AddW, x[0], y[0], r0);
    GivesKept(g1, b.gates, b.inputs, AddW, x[1], y[1], r1);
    GivesKept(g2, b.gates, b.inputs, AddW, x[2], y[2], r2);
    r := [r0, r1, r2, r3];
  }

  method SumGates(b: Builder, v: Vars<U32>, h: Vars<U32>) returns (r: Vars<U32>)
    requires b.Valid() && HasVars(v, b.inputs + |b.gates|) && HasVars(h, b.inputs + |b.gates|)
    modifies b
    ensures b.Valid() && old(b.gates) <= b.gates && GivesSums(b.gates, b.inputs, v, h, r)
  {
    var p := SumFour(b, [v.a, v.b, v.c, v.d], [h.a, h.b, h.c, h.d]);
    ghost var g1 := b.gates;
    var q := SumFour(b, [v.e, v.f, v.g, v.h], [h.e, h.f, h.g, h.h]);
    GivesKept(g1, b.gates, b.inputs, AddW, v.a, h.a, p[0]);
    GivesKept(g1, b.gates, b.inputs, AddW, v.b, h.b, p[1]);
    GivesKept(g1, b.gates, b.inputs, AddW, v.c, h.c, p[2]);
    GivesKept(g1, b.gates, b.inputs, AddW, v.d, h.d, p[3]);
    r := Vars(p[0], p[1], p[2], p[3], q[0], q[1], q[2], q[3]);
  }

  function OutBits(r: Vars<U32>): (out: seq<nat>)
    ensures |out| == 256
  {
    r.a + r.b + r.c + r.d + r.e + r.f + r.g + r.h
  }

  lemma ReadConcat(g: seq<Gate>, x: seq<nat>, y: seq<nat>, input: seq<bool>)
    ensures ReadAll(g, x + y, input) == ReadAll(g, x, input) + ReadAll(g, y, input)
  {}

  lemma OutBitsRead(g: seq<Gate>, r: Vars<U32>, input: seq<bool>)
    ensures ReadAll(g, OutBits(r), input) == Flatten(ReadVars(g, r, input))
  {
    ReadConcat(g, r.a, r.b, input);
    ReadConcat(g, r.a + r.b, r.c, input);
    ReadConcat(g, r.a + r.b + r.c, r.d, input);
    ReadConcat(g, r.a + r.b + r.c + r.d, r.e, input);
    ReadConcat(g, r.a + r.b + r.c + r.d + r.e, r.f, input);
    ReadConcat(g, r.a + r.b + r.c + r.d + r.e + r.f, r.g, input);
    ReadConcat(g, r.a + r.b + r.c + r.d + r.e + r.f + r.g, r.h, input);
  }

  /** The wires `out` carry the compression function of the input. */
  ghost predicate Compresses(g: seq<Gate>, out: seq<nat>) {
    && |out| == 256 && Circuit.Within(out, 768 + |g|)
    && forall input: seq<bool> | |input| == 768 ::
         ReadAll(g, out, input) == CompressBits(input[..256], input[256..])
  }

  lemma SumsCompress(g: seq<Gate>, v: Vars<U32>, h: Vars<U32>, r: Vars<U32>)
    requires Rounded(g, v, 64) && Rounded(g, h, 0) && GivesSums(g, 768, v, h, r)
    ensures Compresses(g, OutBits(r))
  {
    forall input: seq<bool> | |input| == 768
      ensures ReadAll(g, OutBits(r), input) == CompressBits(input[..256], input[256..])
    {
      OutBitsRead(g, r, input);
      VarsOfPrefix(input);
      SumsValue(g, v, h, r, input);
    }
  }

  lemma SumsValue(g: seq<Gate>, v: Vars<U32>, h: Vars<U32>, r: Vars<U32>, input: seq<bool>)
    requires |input| == 768 && Rounded(g, v, 64) && Rounded(g, h, 0) && GivesSums(g, 768, v, h, r)
    ensures ReadVars(g, r, input) == Compress(VarsOf(input), BlockOf(input[256..]))
  {
    var x, y := ReadVars(g, v, input), ReadVars(g, h, input);
    assert x == Rounds(VarsOf(input), BlockOf(input[256..]), 64) && y == VarsOf(input);
  }

  lemma VarsOfPrefix(input: seq<bool>)
    requires |input| == 768
    ensures VarsOf(input[..256]) == VarsOf(input)
  {
    WordOfPrefix(input, 0);
    WordOfPrefix(input, 1);
    WordOfPrefix(input, 2);
    WordOfPrefix(input, 3);
    WordOfPrefix(input, 4);
    WordOfPrefix(input, 5);
    WordOfPrefix(input, 6);
    WordOfPrefix(input, 7);
  }

  lemma WordOfPrefix(s: seq<bool>, i: nat)
    requires i < 8 && |s| >= 256
    ensures WordAt(s[..256], i) == WordAt(s, i)
  {
    var lo := 32 * i;
    assert s[..256][lo..lo + 32] == s[lo..lo + 32];
  }

  lemma RoundedKept(g: seq<Gate>, g': seq<Gate>, v: Vars<U32>, t: nat)
    requires t <= 64 && Rounded(g, v, t) && g <= g' && Sequential(g', 768)
    ensures Rounded(g', v, t)
  {
    forall input: seq<bool> | |input| == 768
      ensures RoundsRead(g', v, t, input)
    {
      ReadVarsKept(g, g', v, input);
    }
  }

  /** The generator: schedule, 64 rounds and the final additions, as gates. */
  method BuildCompression() returns (b: Builder, outBits: seq<nat>)
    ensures fresh(b) && b.Valid() && b.inputs == 768 && Compresses(b.gates, outBits)
  {
    b := new Builder(768);
    var h := InputVars();
    var w: seq<U32> := seq(16, i requires 0 <= i < 16 => InputWord(256 + 32 * i));
    InputsRead(b.gates, w);
    while |w| < 64
      invariant 16 <= |w| <= 64 && b.Valid() && fresh(b) && b.inputs == 768
      invariant Scheduled(b.gates, w) && Rounded(b.gates, h, 0)
    {
      ghost var g := b.gates;
      var wi := NextScheduleWord(b, w);
      RoundedKept(g, b.gates, h, 0);
      w := w + [wi];
    }
    var v, i := h, 0;
    while i < 64
      invariant i <= 64 && b.Valid() && fresh(b) && b.inputs == 768 && |w| == 64
      invariant Scheduled(b.gates, w) && Rounded(b.gates, h, 0) && Rounded(b.gates, v, i)
    {
      ghost var g, v0 := b.gates, v;
      var k := b.ConstantU32(K[i]);
      v := RoundGates(b, v, k, w[i]);
      ScheduledKept(g, b.gates, w);
      RoundedKept(g, b.gates, h, 0);
      RoundedStep(g, b.gates, v0, i, k, w[i], v);
      i := i + 1;
    }
    ghost var g := b.gates;
    var r := SumGates(b, v, h);
    RoundedKept(g, b.gates, h, 0);
    RoundedKept(g, b.gates, v, 64);
    SumsCompress(b.gates, v, h, r);
    outBits := OutBits(r);
  }

  // ---------------------------------------------------------------- the written circuit

  /** The last wires of `g` repeat what the wires `outs` of `g0` carry. */
  ghost predicate EndsWith(g: seq<Gate>, n: nat, g0: seq<Gate>, outs: seq<nat>) {
    && Sequential(g, n) && |g| == |g0| + |outs|
    && forall input: seq<bool> | |input| == n :: LastWires(g, input, |outs|) == ReadAll(g0, outs, input)
  }

  function LastWires(g: seq<Gate>, input: seq<bool>, k: nat): seq<bool>
    requires Sequential(g, |input|) && k <= |g|
  {
    Circuit.Eval(Lowered(g), input)[|input| + |g| - k..]
  }

  /** Passthrough gates make the output wires the last ones. */
  method Write(b: Builder, outputWires: seq<nat>) returns (gates: seq<Gate>, nwires: nat)
    requires b.Valid() && Circuit.Within(outputWires, b.inputs + |b.gates|)
    ensures nwires == b.inputs + |gates| && EndsWith(gates, b.inputs, b.gates, outputWires)
  {
    gates, nwires := b.gates, b.nextWire;
    var i := 0;
    while i < |outputWires|
      invariant i <= |outputWires| && b.gates <= gates && |gates| == |b.gates| + i
      invariant Sequential(gates, b.inputs) && nwires == b.inputs + |gates|
      invariant Passed(b.gates, gates, b.inputs, outputWires, i)
    {
      ghost var g := gates;
      var x := Gate(Xor2, outputWires[i], b.zero, nwires);
      AppendedGate(gates, x, b.inputs);
      gates := gates + [x];
      nwires := nwires + 1;
      PassedStep(b, g, gates, outputWires, i);
      i := i + 1;
    }
    PassedAll(b.gates, gates, b.inputs, outputWires);
  }

  /** The first `i` passthrough wires repeat the output wires. */
  ghost predicate Passed(g0: seq<Gate>, g: seq<Gate>, n: nat, outs: seq<nat>, i: nat)
    requires i <= |outs|
  {
    forall input: seq<bool>, j: nat | |input| == n && j < i :: Repeats(g0, g, input, outs[j], j)
  }

  predicate Repeats(g0: seq<Gate>, g: seq<Gate>, input: seq<bool>, out: nat, j: nat) {
    Val(g, input, |input| + |g0| + j) == Val(g0, input, out)
  }

  lemma PassedStep(b: Builder, g: seq<Gate>, g': seq<Gate>, outs: seq<nat>, i: nat)
    requires b.Valid() && Circuit.Within(outs, b.inputs + |b.gates|) && i < |outs|
    requires b.gates <= g && |g| == |b.gates| + i && Passed(b.gates, g, b.inputs, outs, i)
    requires g' == g + [Gate(Xor2, outs[i], b.zero, b.inputs + |g|)] && Sequential(g', b.inputs)
    ensures Passed(b.gates, g', b.inputs, outs, i + 1)
  {
    forall input: seq<bool>, j: nat | |input| == b.inputs && j < i + 1
      ensures Repeats(b.gates, g', input, outs[j], j)
    {
      if j < i {
        assert Repeats(b.gates, g, input, outs[j], j);
        ValKept(g, g', input, |input| + |b.gates| + j);
      } else {
        b.ConstantWires(input);
        PassedGate(b.gates, g', input, outs[i], b.zero, i);
      }
    }
  }

  /** A wire added to the constant zero repeats that wire. */
  lemma PassedGate(g0: seq<Gate>, g: seq<Gate>, input: seq<bool>, out: nat, zero: nat, i: nat)
    requires Sequential(g, |input|) && g0 <= g && |g| == |g0| + i + 1
    requires out < |input| + |g0| && zero < |input| + |g0| && !Val(g0, input, zero)
    requires g[|g0| + i] == Gate(Xor2, out, zero, |input| + |g0| + i)
    ensures Repeats(g0, g, input, out, i)
  {
    WireEquation(g, |g0| + i, input);
    ValKept(g0, g, input, out);
    ValKept(g0, g, input, zero);
  }

  lemma PassedAll(g0: seq<Gate>, g: seq<Gate>, n: nat, outs: seq<nat>)
    requires Sequential(g, n) && |g| == |g0| + |outs| && Passed(g0, g, n, outs, |outs|)
    ensures EndsWith(g, n, g0, outs)
  {
    forall input: seq<bool> | |input| == n
      ensures LastWires(g, input, |outs|) == ReadAll(g0, outs, input)
    {
      forall j: nat | j < |outs|
        ensures LastWires(g, input, |outs|)[j] == ReadAll(g0, outs, input)[j]
      {
        assert Repeats(g0, g, input, outs[j], j);
      }
      Ext(LastWires(g, input, |outs|), ReadAll(g0, outs, input));
    }
  }

  /** `circuit` computes the compression function: on every chaining value and block,
      its last 256 wires are the next chaining value. */
  ghost predicate IsSha256Compress(circuit: seq<Circuit.Gate>) {
    && Circuit.WellFormed(circuit, 768) && |circuit| >= 256
    && forall iv: seq<bool>, block: seq<bool> | |iv| == 256 && |block| == 512 :: CompressesAt(circuit, iv, block)
  }

  /** The last 256 wires are the compression of this chaining value and block. */
  ghost predicate CompressesAt(circuit: seq<Circuit.Gate>, iv: seq<bool>, block: seq<bool>)
    requires Circuit.WellFormed(circuit, 768) && |circuit| >= 256 && |iv| == 256 && |block| == 512
  {
    Circuit.Eval(circuit, iv + block)[512 + |circuit|..] == CompressBits(iv, block)
  }

  method GenerateSha256Compress() returns (circuit: seq<Circuit.Gate>)
    ensures IsSha256Compress(circuit)
  {
    var b, outBits := BuildCompression();
    var gates, nwires := Write(b, outBits);
    circuit := Lowered(gates);
    WrittenCompresses(b.gates, gates, outBits, circuit);
  }

  lemma WrittenValue(g0: seq<Gate>, g: seq<Gate>, outs: seq<nat>, circuit: seq<Circuit.Gate>,
                     iv: seq<bool>, block: seq<bool>)
    requires Compresses(g0, outs) && EndsWith(g, 768, g0, outs) && circuit == Lowered(g)
    requires |iv| == 256 && |block| == 512
    ensures Circuit.WellFormed(circuit, 768) && |circuit| >= 256
    ensures CompressesAt(circuit, iv, block)
  {
    var input := iv + block;
    assert input[..256] == iv && input[256..] == block;
    assert LastWires(g, input, 256) == ReadAll(g0, outs, input);
  }

  lemma WrittenCompresses(g0: seq<Gate>, g: seq<Gate>, outs: seq<nat>, circuit: seq<Circuit.Gate>)
    requires Compresses(g0, outs) && EndsWith(g, 768, g0, outs) && circuit == Lowered(g)
    ensures IsSha256Compress(circuit)
  {
    hide CompressesAt, Compresses, EndsWith, Lowered, Circuit.WellFormed;
    WrittenValue(g0, g, outs, circuit, Zeros(256), Zeros(512));
    forall iv: seq<bool>, block: seq<bool> | |iv| == 256 && |block| == 512
      ensures CompressesAt(circuit, iv, block)
    {
      WrittenValue(g0, g, outs, circuit, iv, block);
    }
  }
}
