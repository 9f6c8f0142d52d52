/** The SHA-256 compression function of FIPS 180-4, sections 3.2, 4.1.2, 4.2.2 and 6.2.2,
    on 32-bit strings. */
module Sha256 {
  import opened Bits
  import opened Words

  type Word = w: seq<bool> | |w| == 32 witness Zeros(32)

  function AndW(x: Word, y: Word): (r: Word)
    ensures forall i :: 0 <= i < 32 ==> r[i] == (x[i] && y[i])
  {
    seq(32, i requires 0 <= i < 32 => x[i] && y[i])
  }

  function OrW(x: Word, y: Word): (r: Word)
    ensures forall i :: 0 <= i < 32 ==> r[i] == (x[i] || y[i])
  {
    seq(32, i requires 0 <= i < 32 => x[i] || y[i])
  }

  function NotW(x: Word): (r: Word)
    ensures forall i :: 0 <= i < 32 ==> r[i] == !x[i]
  {
    seq(32, i requires 0 <= i < 32 => !x[i])
  }

  function XorW(x: Word, y: Word): Word {
    Xor(x, y)
  }

  function AddW(x: Word, y: Word): Word {
    AddMod(x, y)
  }

  function Shr(n: nat, x: Word): Word
    requires n <= 32
  {
    Zeros(n) + x[..32 - n]
  }

  function Shl(n: nat, x: Word): Word
    requires n <= 32
  {
    x[n..] + Zeros(n)
  }

  function Rotr(n: nat, x: Word): Word
    requires n <= 32
  {
    OrW(Shr(n, x), Shl(32 - n, x))
  }

  function Ch(x: Word, y: Word, z: Word): Word {
    Xor(AndW(x, y), AndW(NotW(x), z))
  }

  function Maj(x: Word, y: Word, z: Word): Word {
    Xor(Xor(AndW(x, y), AndW(x, z)), AndW(y, z))
  }

  function BigSigma0(x: Word): Word {
    Xor(Xor(Rotr(2, x), Rotr(13, x)), Rotr(22, x))
  }

  function BigSigma1(x: Word): Word {
    Xor(Xor(Rotr(6, x), Rotr(11, x)), Rotr(25, x))
  }

  function SmallSigma0(x: Word): Word {
    Xor(Xor(Rotr(7, x), Rotr(18, x)), Shr(3, x))
  }

  function SmallSigma1(x: Word): Word {
    Xor(Xor(Rotr(17, x), Rotr(19, x)), Shr(10, x))
  }

  /** The constants of section 4.2.2, in rows of eight. */
  const K_ROW_0: seq<nat> := [
    0x428a2f98, 0x71374491, 0xb5c0fbcf, 0xe9b5dba5, 0x3956c25b, 0x59f111f1, 0x923f82a4, 0xab1c5ed5
  ]
  const K_ROW_1: seq<nat> := [
    0xd807aa98, 0x12835b01, 0x243185be, 0x550c7dc3, 0x72be5d74, 0x80deb1fe, 0x9bdc06a7, 0xc19bf174
  ]
  const K_ROW_2: seq<nat> := [
    0xe49b69c1, 0xefbe4786, 0x0fc19dc6, 0x240ca1cc, 0x2de92c6f, 0x4a7484aa, 0x5cb0a9dc, 0x76f988da
  ]
  const K_ROW_3: seq<nat> := [
    0x983e5152, 0xa831c66d, 0xb00327c8, 0xbf597fc7, 0xc6e00bf3, 0xd5a79147, 0x06ca6351, 0x14292967
  ]
  const K_ROW_4: seq<nat> := [
    0x27b70a85, 0x2e1b2138, 0x4d2c6dfc, 0x53380d13, 0x650a7354, 0x766a0abb, 0x81c2c92e, 0x92722c85
  ]
  const K_ROW_5: seq<nat> := [
    0xa2bfe8a1, 0xa81a664b, 0xc24b8b70, 0xc76c51a3, 0xd192e819, 0xd6990624, 0xf40e3585, 0x106aa070
  ]
  const K_ROW_6: seq<nat> := [
    0x19a4c116, 0x1e376c08, 0x2748774c, 0x34b0bcb5, 0x391c0cb3, 0x4ed8aa4a, 0x5b9cca4f, 0x682e6ff3
  ]
  const K_ROW_7: seq<nat> := [
    0x748f82ee, 0x78a5636f, 0x84c87814, 0x8cc70208, 0x90befffa, 0xa4506ceb, 0xbef9a3f7, 0xc67178f2
  ]

  const K: seq<nat> := K_ROW_0 + K_ROW_1 + K_ROW_2 + K_ROW_3 + K_ROW_4 + K_ROW_5 + K_ROW_6 + K_ROW_7

  /** The message schedule: W_t for the 16-word block `m`. */
  function Schedule(m: seq<Word>, t: nat): Word
    requires |m| == 16
  {
    if t < 16 then m[t]
    else AddMod(AddMod(AddMod(SmallSigma1(Schedule(m, t - 2)), Schedule(m, t - 7)),
                       SmallSigma0(Schedule(m, t - 15))), Schedule(m, t - 16))
  }

  /** The eight working variables. */
  datatype Vars<T> = Vars(a: T, b: T, c: T, d: T, e: T, f: T, g: T, h: T)

  function Temp1(v: Vars<Word>, k: Word, w: Word): Word {
    AddMod(AddMod(AddMod(AddMod(v.h, BigSigma1(v.e)), Ch(v.e, v.f, v.g)), k), w)
  }

  function Temp2(v: Vars<Word>): Word {
    AddMod(BigSigma0(v.a), Maj(v.a, v.b, v.c))
  }

  function Round(v: Vars<Word>, k: Word, w: Word): Vars<Word> {
    var t1, t2 := Temp1(v, k, w), Temp2(v);
    Vars(AddMod(t1, t2), v.a, v.b, v.c, AddMod(v.d, t1), v.e, v.f, v.g)
  }

  /** The working variables after `t` rounds. */
  function Rounds(v: Vars<Word>, m: seq<Word>, t: nat): Vars<Word>
    requires |m| == 16 && t <= 64
  {
    if t == 0 then v else Round(Rounds(v, m, t - 1), FromNat(32, K[t - 1]), Schedule(m, t - 1))
  }

  /** The next intermediate hash value. */
  function Compress(h: Vars<Word>, m: seq<Word>): Vars<Word>
    requires |m| == 16
  {
    var v := Rounds(h, m, 64);
    Vars(AddMod(v.a, h.a), AddMod(v.b, h.b), AddMod(v.c, h.c), AddMod(v.d, h.d),
         AddMod(v.e, h.e), AddMod(v.f, h.f), AddMod(v.g, h.g), AddMod(v.h, h.h))
  }

  /** The 32-bit words of a bit string, in order. */
  function WordAt(s: seq<bool>, i: nat): Word
    requires 32 * i + 32 <= |s|
  {
    s[32 * i..32 * i + 32]
  }

  function VarsOf(s: seq<bool>): Vars<Word>
    requires |s| >= 256
  {
    Vars(WordAt(s, 0), WordAt(s, 1), WordAt(s, 2), WordAt(s, 3), WordAt(s, 4), WordAt(s, 5), WordAt(s, 6), WordAt(s, 7))
  }

  function BlockOf(s: seq<bool>): (r: seq<Word>)
    requires |s| >= 512
    ensures |r| == 16
  {
    seq(16, i requires 0 <= i < 16 => WordAt(s, i))
  }

  function Flatten(v: Vars<Word>): (r: seq<bool>)
    ensures |r| == 256
  {
    v.a + v.b + v.c + v.d + v.e + v.f + v.g + v.h
  }

  /** Compression of a 256-bit chaining value and a 512-bit block, bits to bits. */
  function CompressBits(iv: seq<bool>, block: seq<bool>): (r: seq<bool>)
    requires |iv| == 256 && |block| == 512
    ensures |r| == 256
  {
    Flatten(Compress(VarsOf(iv), BlockOf(block)))
  }
}
