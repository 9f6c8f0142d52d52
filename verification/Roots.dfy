/** The rules that sections 4.2.2 and 5.3.3 of FIPS 180-4 give for the tables of SHA-256: the
    first 32 bits of the fractional parts of the roots of the first primes. */
module Roots {
  import opened Bytes
  import Hmac
  import Sha256

  // ---------------------------------------------------------------- the first primes

  /** The first 64 primes, in rows of eight. */
  const P_ROW_0: seq<nat> := [2, 3, 5, 7, 11, 13, 17, 19]
  const P_ROW_1: seq<nat> := [23, 29, 31, 37, 41, 43, 47, 53]
  const P_ROW_2: seq<nat> := [59, 61, 67, 71, 73, 79, 83, 89]
  const P_ROW_3: seq<nat> := [97, 101, 103, 107, 109, 113, 127, 131]
  const P_ROW_4: seq<nat> := [137, 139, 149, 151, 157, 163, 167, 173]
  const P_ROW_5: seq<nat> := [179, 181, 191, 193, 197, 199, 211, 223]
  const P_ROW_6: seq<nat> := [227, 229, 233, 239, 241, 251, 257, 263]
  const P_ROW_7: seq<nat> := [269, 271, 277, 281, 283, 293, 307, 311]

  const PRIMES: seq<nat> := P_ROW_0 + P_ROW_1 + P_ROW_2 + P_ROW_3 + P_ROW_4 + P_ROW_5 + P_ROW_6 + P_ROW_7

  ghost predicate Divides(d: nat, n: nat) {
    exists m: nat :: n == d * m
  }

  ghost predicate IsPrime(n: nat) {
    n >= 2 && forall d :: 2 <= d < n ==> !Divides(d, n)
  }

  /** No prime below 18 divides `n`, unless it is `n`. */
  predicate Sieved(n: nat) {
    && (n % 2 != 0 || n == 2) && (n % 3 != 0 || n == 3) && (n % 5 != 0 || n == 5) && (n % 7 != 0 || n == 7)
    && (n % 11 != 0 || n == 11) && (n % 13 != 0 || n == 13) && (n % 17 != 0 || n == 17)
  }

  lemma DividesWhen(d: nat, n: nat)
    requires d > 0 && n % d == 0
    ensures Divides(d, n)
  {
    assert n == d * (n / d);
  }

  lemma DividesTrans(a: nat, b: nat, n: nat)
    requires Divides(a, b) && Divides(b, n)
    ensures Divides(a, n)
  {
    var x: nat :| b == a * x;
    var y: nat :| n == b * y;
    assert (a * x) * y == a * (x * y);
  }

  lemma Below19(d: nat, m: nat)
    requires d >= 19 && d * m < 361
    ensures m < 19
  {
    assert d * m >= 19 * m;
  }

  /** A composite number below 19 * 19 has a divisor below 19. */
  lemma SmallDivisor(n: nat, d: nat) returns (s: nat)
    requires n < 361 && 2 <= d < n && Divides(d, n)
    ensures 2 <= s < 19 && s < n && Divides(s, n)
  {
    var m: nat :| n == d * m;
    if d < 19 {
      s := d;
    } else {
      s := m;
      Below19(d, m);
      CofactorFits(n, d, m);
      assert n == m * d;
    }
  }

  lemma CofactorFits(n: nat, d: nat, m: nat)
    requires n == d * m && 2 <= d < n
    ensures 2 <= m < n && n == m * d
  {
    assert m == 0 ==> d * m == 0;
    assert m == 1 ==> d * m == d;
    assert 2 * m <= d * m;
  }

  function Factor(d: nat): (f: nat)
    requires 2 <= d < 19
    ensures f in [2, 3, 5, 7, 11, 13, 17] && f <= d && d % f == 0
  {
    if d % 2 == 0 then 2 else if d % 3 == 0 then 3 else if d % 5 == 0 then 5 else d
  }

  lemma ZeroMultiple(f: nat, k: int)
    requires 0 <= f * k < f
    ensures k == 0
  {
    assert k >= 1 ==> f * k >= f;
    assert k <= -1 ==> f * k + f <= 0;
  }

  lemma ModProduct(f: nat, m: nat)
    requires f > 0
    ensures (f * m) % f == 0
  {
    var q, r := (f * m) / f, (f * m) % f;
    assert r == f * (m - q);
    ZeroMultiple(f, m - q);
  }

  lemma SievedOut(n: nat, f: nat)
    requires f in [2, 3, 5, 7, 11, 13, 17] && f < n && n % f == 0
    ensures !Sieved(n)
  {}

  lemma SievedIsPrime(n: nat)
    requires 2 <= n < 361
    ensures Sieved(n) <==> IsPrime(n)
  {
    if !IsPrime(n) {
      var d :| 2 <= d < n && Divides(d, n);
      var s := SmallDivisor(n, d);
      DividesWhen(Factor(s), s);
      DividesTrans(Factor(s), s, n);
      var m: nat :| n == Factor(s) * m;
      ModProduct(Factor(s), m);
      SievedOut(n, Factor(s));
    } else {
      Survives(n, 2);
      Survives(n, 3);
      Survives(n, 5);
      Survives(n, 7);
      Survives(n, 11);
      Survives(n, 13);
      Survives(n, 17);
    }
  }

  lemma Survives(n: nat, d: nat)
    requires IsPrime(n) && d >= 2
    ensures n % d != 0 || n == d
  {
    if d < n {
      if n % d == 0 {
        DividesWhen(d, n);
      }
    } else if n < d {
      SmallMod(n, d);
    }
  }

  lemma SmallMod(n: nat, d: nat)
    requires n < d
    ensures n % d == n
  {}

  lemma PrimesRow0(n: nat)
    requires 2 <= n < 23
    ensures Sieved(n) <==> n in P_ROW_0
  {}

  lemma OddRow1(h: nat)
    requires 23 <= 2 * h + 1 < 59
    ensures Sieved(2 * h + 1) <==> 2 * h + 1 in P_ROW_1
  {}

  lemma PrimesRow1(n: nat)
    requires 23 <= n < 59
    ensures Sieved(n) <==> n in P_ROW_1
  {
    if n % 2 != 0 {
      OddRow1(n / 2);
    }
  }

  lemma OddRow2(h: nat)
    requires 59 <= 2 * h + 1 < 97
    ensures Sieved(2 * h + 1) <==> 2 * h + 1 in P_ROW_2
  {}

  lemma PrimesRow2(n: nat)
    requires 59 <= n < 97
    ensures Sieved(n) <==> n in P_ROW_2
  {
    if n % 2 != 0 {
      OddRow2(n / 2);
    }
  }

  lemma OddRow3(h: nat)
    requires 97 <= 2 * h + 1 < 137
    ensures Sieved(2 * h + 1) <==> 2 * h + 1 in P_ROW_3
  {}

  lemma PrimesRow3(n: nat)
    requires 97 <= n < 137
    ensures Sieved(n) <==> n in P_ROW_3
  {
    if n % 2 != 0 {
      OddRow3(n / 2);
    }
  }

  lemma OddRow4(h: nat)
    requires 137 <= 2 * h + 1 < 179
    ensures Sieved(2 * h + 1) <==> 2 * h + 1 in P_ROW_4
  {}

  lemma PrimesRow4(n: nat)
    requires 137 <= n < 179
    ensures Sieved(n) <==> n in P_ROW_4
  {
    if n % 2 != 0 {
      OddRow4(n / 2);
    }
  }

  lemma OddRow5(h: nat)
    requires 179 <= 2 * h + 1 < 227
    ensures Sieved(2 * h + 1) <==> 2 * h + 1 in P_ROW_5
  {}

  lemma PrimesRow5(n: nat)
    requires 179 <= n < 227
    ensures Sieved(n) <==> n in P_ROW_5
  {
    if n % 2 != 0 {
      OddRow5(n / 2);
    }
  }

  lemma OddRow6(h: nat)
    requires 227 <= 2 * h + 1 < 269
    ensures Sieved(2 * h + 1) <==> 2 * h + 1 in P_ROW_6
  {}

  lemma PrimesRow6(n: nat)
    requires 227 <= n < 269
    ensures Sieved(n) <==> n in P_ROW_6
  {
    if n % 2 != 0 {
      OddRow6(n / 2);
    }
  }

  lemma OddRow7(h: nat)
    requires 269 <= 2 * h + 1 < 291
    ensures Sieved(2 * h + 1) <==> 2 * h + 1 in P_ROW_7
  {}

  lemma OddRow7End(h: nat)
    requires 291 <= 2 * h + 1 < 312
    ensures Sieved(2 * h + 1) <==> 2 * h + 1 in P_ROW_7
  {}

  lemma PrimesRow7(n: nat)
    requires 269 <= n < 312
    ensures Sieved(n) <==> n in P_ROW_7
  {
    if n % 2 != 0 {
      if n < 291 {
        OddRow7(n / 2);
      } else {
        OddRow7End(n / 2);
      }
    }
  }

  /** `PRIMES` is all primes up to 311, in order. */
  lemma FirstPrimes(n: nat)
    requires n <= 311
    ensures IsPrime(n) <==> n in PRIMES
  {
    if n < 2 {
      InRows(n);
    } else {
      SievedIsPrime(n);
      InRows(n);
      if n < 23 {
        PrimesRow0(n);
      } else if n < 59 {
        PrimesRow1(n);
      } else if n < 97 {
        PrimesRow2(n);
      } else if n < 137 {
        PrimesRow3(n);
      } else if n < 179 {
        PrimesRow4(n);
      } else if n < 227 {
        PrimesRow5(n);
      } else if n < 269 {
        PrimesRow6(n);
      } else {
        PrimesRow7(n);
      }
    }
  }

  lemma InRows(n: nat)
    ensures n in PRIMES
       <==> n in P_ROW_0 || n in P_ROW_1 || n in P_ROW_2 || n in P_ROW_3
            || n in P_ROW_4 || n in P_ROW_5 || n in P_ROW_6 || n in P_ROW_7
  {}

  /** Entry `t` of eight rows of eight. */
  lemma EntryOfRows(t: nat, r0: seq<nat>, r1: seq<nat>, r2: seq<nat>, r3: seq<nat>, r4: seq<nat>, r5: seq<nat>,
                    r6: seq<nat>, r7: seq<nat>)
    requires |r0| == |r1| == |r2| == |r3| == |r4| == |r5| == |r6| == |r7| == 8 && t < 64
    ensures |r0 + r1 + r2 + r3 + r4 + r5 + r6 + r7| == 64
    ensures (r0 + r1 + r2 + r3 + r4 + r5 + r6 + r7)[t] == [r0, r1, r2, r3, r4, r5, r6, r7][t / 8][t % 8]
  {}

  // ---------------------------------------------------------------- cube roots

  /** `r` is the cube root of `p` in units of 2^-32, rounded down. */
  predicate CubeRoot(p: nat, r: nat) {
    r * r * r <= p * 0x1_0000_0000_0000_0000_0000_0000 < (r + 1) * (r + 1) * (r + 1)
  }

  /** `k` is the first 32 bits of the fractional part of the cube root of `p`. */
  ghost predicate CubeRootBits(p: nat, k: nat) {
    k < 0x1_0000_0000 && exists q: nat :: CubeRoot(p, q * 0x1_0000_0000 + k)
  }

  lemma CubeMonotone(a: nat, b: nat)
    requires a <= b
    ensures a * a * a <= b * b * b
  {
    assert a * a <= b * b;
    assert a * a * a <= b * b * a <= b * b * b;
  }

  lemma CubeRootUnique(p: nat, r: nat, s: nat)
    requires CubeRoot(p, r) && CubeRoot(p, s)
    ensures r == s
  {
    if r < s {
      CubeMonotone(r + 1, s);
    } else if s < r {
      CubeMonotone(s + 1, r);
    }
  }

  lemma LowDigits(q: nat, k: nat, u: nat, l: nat)
    requires q * 0x1_0000_0000 + k == u * 0x1_0000_0000 + l && k < 0x1_0000_0000 && l < 0x1_0000_0000
    ensures k == l
  {}

  lemma CubeRootBitsUnique(p: nat, k: nat, l: nat)
    requires CubeRootBits(p, k) && CubeRootBits(p, l)
    ensures k == l
  {
    var q: nat :| CubeRoot(p, q * 0x1_0000_0000 + k);
    var u: nat :| CubeRoot(p, u * 0x1_0000_0000 + l);
    hide CubeRoot;
    CubeRootUnique(p, q * 0x1_0000_0000 + k, u * 0x1_0000_0000 + l);
    LowDigits(q, k, u, l);
  }

  /** A row of constants, with the integer parts of the roots. */
  predicate CubeRootRow(ps: seq<nat>, qs: seq<nat>, ks: seq<nat>) {
    && |ps| == |qs| == |ks| == 8
    && forall c :: 0 <= c < 8 ==> ks[c] < 0x1_0000_0000 && CubeRoot(ps[c], qs[c] * 0x1_0000_0000 + ks[c])
  }

  lemma RowBits(ps: seq<nat>, qs: seq<nat>, ks: seq<nat>, c: nat)
    requires CubeRootRow(ps, qs, ks) && c < 8
    ensures CubeRootBits(ps[c], ks[c])
  {
    var q := qs[c];
    assert CubeRoot(ps[c], q * 0x1_0000_0000 + ks[c]);
  }

  lemma CubeRow0()
    ensures CubeRootRow(P_ROW_0, [1, 1, 1, 1, 2, 2, 2, 2], Sha256.K_ROW_0)
  {}

  lemma CubeRow1()
    ensures CubeRootRow(P_ROW_1, [2, 3, 3, 3, 3, 3, 3, 3], Sha256.K_ROW_1)
  {}

  lemma CubeRow2()
    ensures CubeRootRow(P_ROW_2, [3, 3, 4, 4, 4, 4, 4, 4], Sha256.K_ROW_2)
  {}

  lemma CubeRow3()
    ensures CubeRootRow(P_ROW_3, [4, 4, 4, 4, 4, 4, 5, 5], Sha256.K_ROW_3)
  {}

  lemma CubeRow4()
    ensures CubeRootRow(P_ROW_4, [5, 5, 5, 5, 5, 5, 5, 5], Sha256.K_ROW_4)
  {}

  lemma CubeRow5()
    ensures CubeRootRow(P_ROW_5, [5, 5, 5, 5, 5, 5, 5, 6], Sha256.K_ROW_5)
  {}

  lemma CubeRow6()
    ensures CubeRootRow(P_ROW_6, [6, 6, 6, 6, 6, 6, 6, 6], Sha256.K_ROW_6)
  {}

  lemma CubeRow7()
    ensures CubeRootRow(P_ROW_7, [6, 6, 6, 6, 6, 6, 6, 6], Sha256.K_ROW_7)
  {}

  lemma RoundConstantBits(t: nat)
    requires t < 64
    ensures |PRIMES| == |Sha256.K| == 64 && CubeRootBits(PRIMES[t], Sha256.K[t])
  {
    EntryOfRows(t, P_ROW_0, P_ROW_1, P_ROW_2, P_ROW_3, P_ROW_4, P_ROW_5, P_ROW_6, P_ROW_7);
    EntryOfRows(t, Sha256.K_ROW_0, Sha256.K_ROW_1, Sha256.K_ROW_2, Sha256.K_ROW_3,
                Sha256.K_ROW_4, Sha256.K_ROW_5, Sha256.K_ROW_6, Sha256.K_ROW_7);
    if t < 8 {
      CubeRow0();
      RowBits(P_ROW_0, [1, 1, 1, 1, 2, 2, 2, 2], Sha256.K_ROW_0, t % 8);
    } else if t < 16 {
      CubeRow1();
      RowBits(P_ROW_1, [2, 3, 3, 3, 3, 3, 3, 3], Sha256.K_ROW_1, t % 8);
    } else if t < 24 {
      CubeRow2();
      RowBits(P_ROW_2, [3, 3, 4, 4, 4, 4, 4, 4], Sha256.K_ROW_2, t % 8);
    } else if t < 32 {
      CubeRow3();
      RowBits(P_ROW_3, [4, 4, 4, 4, 4, 4, 5, 5], Sha256.K_ROW_3, t % 8);
    } else if t < 40 {
      CubeRow4();
      RowBits(P_ROW_4, [5, 5, 5, 5, 5, 5, 5, 5], Sha256.K_ROW_4, t % 8);
    } else if t < 48 {
      CubeRow5();
      RowBits(P_ROW_5, [5, 5, 5, 5, 5, 5, 5, 6], Sha256.K_ROW_5, t % 8);
    } else if t < 56 {
      CubeRow6();
      RowBits(P_ROW_6, [6, 6, 6, 6, 6, 6, 6, 6], Sha256.K_ROW_6, t % 8);
    } else {
      CubeRow7();
      RowBits(P_ROW_7, [6, 6, 6, 6, 6, 6, 6, 6], Sha256.K_ROW_7, t % 8);
    }
  }

  /** The round constants are what section 4.2.2 says: a 32-bit number is constant `t` exactly
      if it is the start of the fractional part of the cube root of prime `t`. */
  lemma RoundConstants(t: nat, k: nat)
    requires t < 64
    ensures |PRIMES| == |Sha256.K| == 64
    ensures k == Sha256.K[t] <==> CubeRootBits(PRIMES[t], k)
  {
    RoundConstantBits(t);
    if CubeRootBits(PRIMES[t], k) {
      CubeRootBitsUnique(PRIMES[t], k, Sha256.K[t]);
    }
  }

  // ---------------------------------------------------------------- square roots

  /** `r` is the square root of `p` in units of 2^-32, rounded down. */
  predicate SquareRoot(p: nat, r: nat) {
    r * r <= p * 0x1_0000_0000_0000_0000 < (r + 1) * (r + 1)
  }

  /** `k` is the first 32 bits of the fractional part of the square root of `p`. */
  ghost predicate SquareRootBits(p: nat, k: nat) {
    k < 0x1_0000_0000 && exists q: nat :: SquareRoot(p, q * 0x1_0000_0000 + k)
  }

  lemma SquareMonotone(a: nat, b: nat)
    requires a <= b
    ensures a * a <= b * b
  {
    assert a * a <= a * b <= b * b;
  }

  lemma SquareRootUnique(p: nat, r: nat, s: nat)
    requires SquareRoot(p, r) && SquareRoot(p, s)
    ensures r == s
  {
    if r < s {
      SquareMonotone(r + 1, s);
    } else if s < r {
      SquareMonotone(s + 1, r);
    }
  }

  lemma SquareRootBitsUnique(p: nat, k: nat, l: nat)
    requires SquareRootBits(p, k) && SquareRootBits(p, l)
    ensures k == l
  {
    var q: nat :| SquareRoot(p, q * 0x1_0000_0000 + k);
    var u: nat :| SquareRoot(p, u * 0x1_0000_0000 + l);
    hide SquareRoot;
    SquareRootUnique(p, q * 0x1_0000_0000 + k, u * 0x1_0000_0000 + l);
    LowDigits(q, k, u, l);
  }

  /** Four bytes of the initial chaining value, as a number. */
  function InitialWord(i: nat): nat
    requires i < 8
  {
    FromBigEndian(Hmac.InitialIv()[4 * i..4 * i + 4])
  }

  lemma FourBytes(a: Byte, b: Byte, c: Byte, d: Byte)
    ensures FromBigEndian([a, b, c, d]) == 0x100_0000 * a + 0x1_0000 * b + 0x100 * c + d
  {
    assert [a][..0] == [] && FromBigEndian([a]) == a;
    assert [a, b][..1] == [a] && FromBigEndian([a, b]) == 256 * FromBigEndian([a]) + b;
    assert [a, b, c][..2] == [a, b] && FromBigEndian([a, b, c]) == 256 * FromBigEndian([a, b]) + c;
    assert [a, b, c, d][..3] == [a, b, c];
  }

  lemma RowWord(row: seq<Byte>, i: nat, a: Byte, b: Byte, c: Byte, d: Byte)
    requires |row| == 16 && i < 4
    requires row[4 * i] == a && row[4 * i + 1] == b && row[4 * i + 2] == c && row[4 * i + 3] == d
    ensures FromBigEndian(row[4 * i..4 * i + 4]) == 0x100_0000 * a + 0x1_0000 * b + 0x100 * c + d
  {
    FourBytes(a, b, c, d);
    assert row[4 * i..4 * i + 4] == [a, b, c, d];
  }

  lemma WordInRow(i: nat)
    requires i < 8
    ensures i < 4 ==> InitialWord(i) == FromBigEndian(Hmac.IV_ROW_0[4 * i..4 * i + 4])
    ensures i >= 4 ==> InitialWord(i) == FromBigEndian(Hmac.IV_ROW_1[4 * (i - 4)..4 * (i - 4) + 4])
  {
    if i < 4 {
      assert Hmac.InitialIv()[4 * i..4 * i + 4] == Hmac.IV_ROW_0[4 * i..4 * i + 4];
    } else {
      assert Hmac.InitialIv()[4 * i..4 * i + 4] == Hmac.IV_ROW_1[4 * (i - 4)..4 * (i - 4) + 4];
    }
  }

  /** The words of the initial chaining value, with the integer parts of the roots. */
  predicate SquareRootRow(ps: seq<nat>, qs: seq<nat>, ks: seq<nat>) {
    && |ps| == |qs| == |ks| == 8
    && forall c :: 0 <= c < 8 ==> ks[c] < 0x1_0000_0000 && SquareRoot(ps[c], qs[c] * 0x1_0000_0000 + ks[c])
  }

  lemma WordsOfRow0(i: nat)
    requires i < 4
    ensures FromBigEndian(Hmac.IV_ROW_0[4 * i..4 * i + 4]) == [0x6a09e667, 0xbb67ae85, 0x3c6ef372, 0xa54ff53a][i]
  {
    var row := Hmac.IV_ROW_0;
    RowWord(row, i, row[4 * i], row[4 * i + 1], row[4 * i + 2], row[4 * i + 3]);
  }

  lemma WordsOfRow1(i: nat)
    requires i < 4
    ensures FromBigEndian(Hmac.IV_ROW_1[4 * i..4 * i + 4]) == [0x510e527f, 0x9b05688c, 0x1f83d9ab, 0x5be0cd19][i]
  {
    var row := Hmac.IV_ROW_1;
    RowWord(row, i, row[4 * i], row[4 * i + 1], row[4 * i + 2], row[4 * i + 3]);
  }

  lemma InitialWordValue(i: nat)
    requires i < 8
    ensures InitialWord(i) == [
      0x6a09e667, 0xbb67ae85, 0x3c6ef372, 0xa54ff53a, 0x510e527f, 0x9b05688c, 0x1f83d9ab, 0x5be0cd19
    ][i]
  {
    WordInRow(i);
    if i < 4 {
      WordsOfRow0(i);
    } else {
      WordsOfRow1(i - 4);
    }
  }

  lemma SquareRow()
    ensures SquareRootRow(P_ROW_0, [1, 1, 2, 2, 3, 3, 4, 4], [
      0x6a09e667, 0xbb67ae85, 0x3c6ef372, 0xa54ff53a, 0x510e527f, 0x9b05688c, 0x1f83d9ab, 0x5be0cd19
    ])
  {}

  lemma InitialWordBits(i: nat)
    requires i < 8
    ensures SquareRootBits(P_ROW_0[i], InitialWord(i))
  {
    var q: nat := [1, 1, 2, 2, 3, 3, 4, 4][i];
    InitialWordValue(i);
    SquareRow();
    assert SquareRoot(P_ROW_0[i], q * 0x1_0000_0000 + InitialWord(i));
  }

  /** The initial chaining value is what section 5.3.3 says: a 32-bit number is its word `i`
      exactly if it is the start of the fractional part of the square root of prime `i`. */
  lemma InitialChainingValue(i: nat, k: nat)
    requires i < 8
    ensures k == InitialWord(i) <==> SquareRootBits(P_ROW_0[i], k)
  {
    InitialWordBits(i);
    if SquareRootBits(P_ROW_0[i], k) {
      SquareRootBitsUnique(P_ROW_0[i], k, InitialWord(i));
    }
  }
}
