/** Bit strings as unsigned integers, most significant bit first. */
module Words {
  function Pow2(n: nat): (r: nat)
    ensures r > 0
  {
    if n == 0 then 1 else 2 * Pow2(n - 1)
  }

  function ToNat(s: seq<bool>): nat {
    if s == [] then 0 else (if s[0] then Pow2(|s| - 1) else 0) + ToNat(s[1..])
  }

  /** The low `n` bits of `v`. */
  function FromNat(n: nat, v: nat): (r: seq<bool>)
    ensures |r| == n
  {
    if n == 0 then [] else FromNat(n - 1, v / 2) + [v % 2 == 1]
  }

  lemma {:induction false} ToNatSnoc(s: seq<bool>, b: bool)
    ensures ToNat(s + [b]) == 2 * ToNat(s) + (if b then 1 else 0)
  {
    if s == [] {
      assert [b][1..] == [];
    } else {
      assert (s + [b])[1..] == s[1..] + [b];
      ToNatSnoc(s[1..], b);
    }
  }

  lemma {:induction false} ToNatBound(s: seq<bool>)
    ensures ToNat(s) < Pow2(|s|)
  {
    if s != [] {
      ToNatBound(s[1..]);
    }
  }

  lemma {:induction false} ToNatFromNat(n: nat, v: nat)
    requires v < Pow2(n)
    ensures ToNat(FromNat(n, v)) == v
  {
    if n > 0 {
      ToNatFromNat(n - 1, v / 2);
      ToNatSnoc(FromNat(n - 1, v / 2), v % 2 == 1);
    }
  }

  lemma {:induction false} FromNatToNat(s: seq<bool>)
    ensures FromNat(|s|, ToNat(s)) == s
  {
    if s != [] {
      var init, last := s[..|s| - 1], s[|s| - 1];
      assert s == init + [last];
      ToNatSnoc(init, last);
      FromNatToNat(init);
    }
  }

  /** Equal values in equally many bits are equal strings. */
  lemma ToNatInjective(s: seq<bool>, t: seq<bool>)
    requires |s| == |t| && ToNat(s) == ToNat(t)
    ensures s == t
  {
    FromNatToNat(s);
    FromNatToNat(t);
  }

  /** Bit `i` from the left of `n` bits is the value shifted right by `n - 1 - i`, modulo 2. */
  lemma {:induction false} FromNatBit(n: nat, v: nat, i: nat)
    requires i < n
    ensures FromNat(n, v)[i] == ((v / Pow2(n - 1 - i)) % 2 == 1)
  {
    if i < n - 1 {
      FromNatBit(n - 1, v / 2, i);
      DivTwice(v, Pow2(n - 2 - i));
    }
  }

  lemma DivTwice(v: nat, d: nat)
    requires d > 0
    ensures (v / 2) / d == v / (2 * d)
  {
    var q, r := v / (2 * d), v % (2 * d);
    assert v == 2 * d * q + r;
    var h := r / 2;
    assert v / 2 == d * q + h by {
      assert v == 2 * (d * q) + r;
    }
    assert 0 <= h < d;
    DivUnique(v / 2, d, q, h);
  }

  lemma DivUnique(n: nat, d: nat, q: nat, r: nat)
    requires d > 0 && r < d && n == d * q + r
    ensures n / d == q && n % d == r
  {
    var q', r' := n / d, n % d;
    assert n == d * q' + r';
    if q > q' {
      MulGap(d, q', q);
    } else if q < q' {
      MulGap(d, q, q');
    }
  }

  lemma {:induction false} MulGap(d: nat, k: nat, l: nat)
    requires k < l
    ensures d * l >= d * k + d
    decreases l
  {
    if l > k + 1 {
      MulGap(d, k, l - 1);
    }
    assert d * l == d * (l - 1) + d;
  }

  // ---------------------------------------------------------------- ripple carry

  /** The sum bits and the carry out of a ripple-carry adder. */
  function Ripple(x: seq<bool>, y: seq<bool>): (r: (seq<bool>, bool))
    requires |x| == |y| > 0
    ensures |r.0| == |x|
    decreases |x|
  {
    if |x| == 1 then ([x[0] != y[0]], x[0] && y[0])
    else
      var (sum, carry) := Ripple(x[1..], y[1..]);
      var t1 := x[0] != y[0];
      ([t1 != carry] + sum, (x[0] && y[0]) != (t1 && carry))
  }

  lemma {:induction false} RippleAdds(x: seq<bool>, y: seq<bool>)
    requires |x| == |y| > 0
    ensures ToNat(Ripple(x, y).0) + (if Ripple(x, y).1 then Pow2(|x|) else 0) == ToNat(x) + ToNat(y)
    decreases |x|
  {
    if |x| == 1 {
      assert x[1..] == [] && y[1..] == [] && [x[0] != y[0]][1..] == [];
    } else {
      RippleAdds(x[1..], y[1..]);
      var (sum, carry) := Ripple(x[1..], y[1..]);
      assert Ripple(x, y).0[1..] == sum;
    }
  }

  /** The remainder of `n` modulo `m`, by subtraction. */
  function Reduce(n: nat, m: nat): (r: nat)
    requires m > 0
    ensures r < m
  {
    if n < m then n else Reduce(n - m, m)
  }

  lemma {:induction false} ReduceIsMod(n: nat, m: nat)
    requires m > 0
    ensures Reduce(n, m) == n % m
  {
    if n < m {
      DivUnique(n, m, 0, n);
    } else {
      ReduceIsMod(n - m, m);
      var q, r := (n - m) / m, (n - m) % m;
      assert n == m * (q + 1) + r;
      DivUnique(n, m, q + 1, r);
    }
  }

  /** Addition modulo 2 to the length of the strings. */
  function AddMod(x: seq<bool>, y: seq<bool>): (r: seq<bool>)
    requires |x| == |y|
    ensures |r| == |x|
  {
    FromNat(|x|, Sum(x, y))
  }

  function Sum(x: seq<bool>, y: seq<bool>): (r: nat)
    requires |x| == |y|
    ensures r < Pow2(|x|)
    ensures r == (ToNat(x) + ToNat(y)) % Pow2(|x|)
  {
    ReduceIsMod(ToNat(x) + ToNat(y), Pow2(|x|));
    Reduce(ToNat(x) + ToNat(y), Pow2(|x|))
  }

  lemma AddModValue(x: seq<bool>, y: seq<bool>)
    requires |x| == |y|
    ensures ToNat(AddMod(x, y)) == Sum(x, y)
  {
    ToNatFromNat(|x|, Sum(x, y));
  }

  lemma RippleValue(x: seq<bool>, y: seq<bool>)
    requires |x| == |y| > 0
    ensures ToNat(Ripple(x, y).0) == Sum(x, y)
  {
    RippleAdds(x, y);
    ToNatBound(Ripple(x, y).0);
    DropCarry(ToNat(x) + ToNat(y), Pow2(|x|), Ripple(x, y).1, ToNat(Ripple(x, y).0));
  }

  /** A ripple-carry adder whose carry out is dropped adds modulo 2^n. */
  lemma RippleIsAddMod(x: seq<bool>, y: seq<bool>)
    requires |x| == |y| > 0
    ensures Ripple(x, y).0 == AddMod(x, y)
  {
    RippleValue(x, y);
    AddModValue(x, y);
    ToNatInjective(Ripple(x, y).0, AddMod(x, y));
  }

  lemma DropCarry(n: nat, m: nat, carry: bool, s: nat)
    requires s < m && s + (if carry then m else 0) == n
    ensures Reduce(n, m) == s
  {}

  lemma AddModReduced(x: seq<bool>, y: seq<bool>)
    requires |x| == |y|
    ensures ToNat(AddMod(x, y)) == Reduce(ToNat(x) + ToNat(y), Pow2(|x|))
  {
    AddModValue(x, y);
  }

  lemma ReduceAssoc(a: nat, b: nat, c: nat, m: nat)
    requires m > 0
    ensures Reduce(Reduce(a + b, m) + c, m) == Reduce(a + Reduce(b + c, m), m)
  {
    hide Reduce;
    ModOfSum(a + b, c, m);
    ModOfSum(b + c, a, m);
    assert (a + b) + c == (b + c) + a;
  }

  lemma AddModAssoc(x: seq<bool>, y: seq<bool>, z: seq<bool>)
    requires |x| == |y| == |z|
    ensures AddMod(AddMod(x, y), z) == AddMod(x, AddMod(y, z))
  {
    hide ToNat, Pow2, Reduce, AddMod;
    AddModReduced(x, y);
    AddModReduced(y, z);
    AddModReduced(AddMod(x, y), z);
    AddModReduced(x, AddMod(y, z));
    ReduceAssoc(ToNat(x), ToNat(y), ToNat(z), Pow2(|x|));
    ToNatInjective(AddMod(AddMod(x, y), z), AddMod(x, AddMod(y, z)));
  }

  lemma {:induction false} ModOfSum(a: nat, b: nat, m: nat)
    requires m > 0
    ensures Reduce(Reduce(a, m) + b, m) == Reduce(a + b, m)
  {
    if a >= m {
      ModOfSum(a - m, b, m);
    }
  }
}
