/** What the functions of section 4.1.2 of FIPS 180-4 do to each bit of a word. */
module Sha256Bits {
  import opened Sha256

  /** A word with one bit set, the name of that bit. */
  predicate OneBit(m: word) {
    m != 0 && m & (m - 1) == 0
  }

  /** The bit `m` of a word is set; with `m` zero, a place past the end, nothing is. */
  predicate Set(x: word, m: word) {
    x & m != 0
  }

  /** An odd number of the three. */
  predicate Odd(a: bool, b: bool, c: bool) {
    (a != b) != c
  }

  /** `Ch` takes each bit from `y` where that of `x` is set, and from `z` elsewhere. */
  lemma ChSelects(x: word, y: word, z: word)
    ensures Ch(x, y, z) & x == y & x && Ch(x, y, z) & !x == z & !x
  {
  }

  /** `Maj` sets the bits set in two of the three. */
  lemma MajIsMajority(x: word, y: word, z: word)
    ensures Maj(x, y, z) == (x & y) | (x & z) | (y & z)
  {
  }

  // ---- The parts ----

  function Xor3(a: word, b: word, c: word): word {
    a ^ b ^ c
  }

  lemma XorBits(a: word, b: word, c: word, m: word)
    requires m & (m - 1) == 0
    ensures (a ^ b ^ c) & m != 0 <==> ((a & m != 0) != (b & m != 0)) != (c & m != 0)
  {
  }

  lemma SameXor(a: word, a': word, b: word, b': word, c: word, c': word, m: word)
    requires a == a' && b == b' && c == c'
    ensures Set(Xor3(a, b, c), m) <==> Set(Xor3(a', b', c'), m)
  {
  }

  lemma XorSets(a: word, b: word, c: word, m: word)
    requires OneBit(m)
    ensures Set(Xor3(a, b, c), m) <==> Odd(Set(a, m), Set(b, m), Set(c, m))
  {
    XorBits(a, b, c, m);
  }

  function Right2(x: word): word { x.RotateRight(2) }

  /** The bit 2 places up, counted round. */
  function Left2(m: word): word { m.RotateLeft(2) }

  function Right6(x: word): word { x.RotateRight(6) }

  /** The bit 6 places up, counted round. */
  function Left6(m: word): word { m.RotateLeft(6) }

  function Right7(x: word): word { x.RotateRight(7) }

  /** The bit 7 places up, counted round. */
  function Left7(m: word): word { m.RotateLeft(7) }

  function Right11(x: word): word { x.RotateRight(11) }

  /** The bit 11 places up, counted round. */
  function Left11(m: word): word { m.RotateLeft(11) }

  function Right13(x: word): word { x.RotateRight(13) }

  /** The bit 13 places up, counted round. */
  function Left13(m: word): word { m.RotateLeft(13) }

  function Right17(x: word): word { x.RotateRight(17) }

  /** The bit 17 places up, counted round. */
  function Left17(m: word): word { m.RotateLeft(17) }

  function Right18(x: word): word { x.RotateRight(18) }

  /** The bit 18 places up, counted round. */
  function Left18(m: word): word { m.RotateLeft(18) }

  function Right19(x: word): word { x.RotateRight(19) }

  /** The bit 19 places up, counted round. */
  function Left19(m: word): word { m.RotateLeft(19) }

  function Right22(x: word): word { x.RotateRight(22) }

  /** The bit 22 places up, counted round. */
  function Left22(m: word): word { m.RotateLeft(22) }

  function Right25(x: word): word { x.RotateRight(25) }

  /** The bit 25 places up, counted round. */
  function Left25(m: word): word { m.RotateLeft(25) }

  function Down3(x: word): word { x >> 3 }

  /** The bit 3 places up, none past the end. */
  function Up3(m: word): word { m << 3 }

  function Down10(x: word): word { x >> 10 }

  /** The bit 10 places up, none past the end. */
  function Up10(m: word): word { m << 10 }

  lemma Right2Sets(x: word, m: word)
    ensures Set(Right2(x), m) <==> Set(x, Left2(m))
  {
    Rotated2(x, m);
    hide Set;
  }

  lemma Rotated2(x: word, m: word)
    ensures Set(x.RotateRight(2), m) <==> Set(x, m.RotateLeft(2))
  {
  }

  lemma Right6Sets(x: word, m: word)
    ensures Set(Right6(x), m) <==> Set(x, Left6(m))
  {
    Rotated6(x, m);
    hide Set;
  }

  lemma Rotated6(x: word, m: word)
    ensures Set(x.RotateRight(6), m) <==> Set(x, m.RotateLeft(6))
  {
  }

  lemma Right7Sets(x: word, m: word)
    ensures Set(Right7(x), m) <==> Set(x, Left7(m))
  {
    Rotated7(x, m);
    hide Set;
  }

  lemma Rotated7(x: word, m: word)
    ensures Set(x.RotateRight(7), m) <==> Set(x, m.RotateLeft(7))
  {
  }

  lemma Right11Sets(x: word, m: word)
    ensures Set(Right11(x), m) <==> Set(x, Left11(m))
  {
    Rotated11(x, m);
    hide Set;
  }

  lemma Rotated11(x: word, m: word)
    ensures Set(x.RotateRight(11), m) <==> Set(x, m.RotateLeft(11))
  {
  }

  lemma Right13Sets(x: word, m: word)
    ensures Set(Right13(x), m) <==> Set(x, Left13(m))
  {
    Rotated13(x, m);
    hide Set;
  }

  lemma Rotated13(x: word, m: word)
    ensures Set(x.RotateRight(13), m) <==> Set(x, m.RotateLeft(13))
  {
  }

  lemma Right17Sets(x: word, m: word)
    ensures Set(Right17(x), m) <==> Set(x, Left17(m))
  {
    Rotated17(x, m);
    hide Set;
  }

  lemma Rotated17(x: word, m: word)
    ensures Set(x.RotateRight(17), m) <==> Set(x, m.RotateLeft(17))
  {
  }

  lemma Right18Sets(x: word, m: word)
    ensures Set(Right18(x), m) <==> Set(x, Left18(m))
  {
    Rotated18(x, m);
    hide Set;
  }

  lemma Rotated18(x: word, m: word)
    ensures Set(x.RotateRight(18), m) <==> Set(x, m.RotateLeft(18))
  {
  }

  lemma Right19Sets(x: word, m: word)
    ensures Set(Right19(x), m) <==> Set(x, Left19(m))
  {
    Rotated19(x, m);
    hide Set;
  }

  lemma Rotated19(x: word, m: word)
    ensures Set(x.RotateRight(19), m) <==> Set(x, m.RotateLeft(19))
  {
  }

  lemma Right22Sets(x: word, m: word)
    ensures Set(Right22(x), m) <==> Set(x, Left22(m))
  {
    Rotated22(x, m);
    hide Set;
  }

  lemma Rotated22(x: word, m: word)
    ensures Set(x.RotateRight(22), m) <==> Set(x, m.RotateLeft(22))
  {
  }

  lemma Right25Sets(x: word, m: word)
    ensures Set(Right25(x), m) <==> Set(x, Left25(m))
  {
    Rotated25(x, m);
    hide Set;
  }

  lemma Rotated25(x: word, m: word)
    ensures Set(x.RotateRight(25), m) <==> Set(x, m.RotateLeft(25))
  {
  }

  lemma Down3Sets(x: word, m: word)
    ensures Set(Down3(x), m) <==> Set(x, Up3(m))
  {
    Shifted3(x, m);
    hide Set;
  }

  lemma Shifted3(x: word, m: word)
    ensures Set(x >> 3, m) <==> Set(x, m << 3)
  {
  }

  lemma Down10Sets(x: word, m: word)
    ensures Set(Down10(x), m) <==> Set(x, Up10(m))
  {
    Shifted10(x, m);
    hide Set;
  }

  lemma Shifted10(x: word, m: word)
    ensures Set(x >> 10, m) <==> Set(x, m << 10)
  {
  }

  // ---- Main results ----

  /** The bit of each is the parity of three bits of the word: for a rotation by `n` the one `n` places up, counted
      round, and for a shift the one `n` places up, an absent one reading 0. */
  lemma BigSigma0Bits(x: word, m: word)
    requires OneBit(m)
    ensures Set(BigSigma0(x), m) <==> Odd(Set(x, Left2(m)), Set(x, Left13(m)), Set(x, Left22(m)))
  {
    hide *;
    BigSigma0Is(x, m);
    XorSets(Right2(x), Right13(x), Right22(x), m);
    Right2Sets(x, m);
    Right13Sets(x, m);
    Right22Sets(x, m);
  }

  lemma BigSigma0Is(x: word, m: word)
    ensures Set(BigSigma0(x), m) <==> Set(Xor3(Right2(x), Right13(x), Right22(x)), m)
  {
    hide Set;
    hide Xor3;
    BigSigma0Xors(x, m);
    SameXor(x.RotateRight(2), Right2(x), x.RotateRight(13), Right13(x), x.RotateRight(22), Right22(x), m);
  }

  lemma BigSigma0Xors(x: word, m: word)
    ensures Set(BigSigma0(x), m) <==> Set(Xor3(x.RotateRight(2), x.RotateRight(13), x.RotateRight(22)), m)
  {
    hide Set;
  }

  lemma BigSigma1Bits(x: word, m: word)
    requires OneBit(m)
    ensures Set(BigSigma1(x), m) <==> Odd(Set(x, Left6(m)), Set(x, Left11(m)), Set(x, Left25(m)))
  {
    hide *;
    BigSigma1Is(x, m);
    XorSets(Right6(x), Right11(x), Right25(x), m);
    Right6Sets(x, m);
    Right11Sets(x, m);
    Right25Sets(x, m);
  }

  lemma BigSigma1Is(x: word, m: word)
    ensures Set(BigSigma1(x), m) <==> Set(Xor3(Right6(x), Right11(x), Right25(x)), m)
  {
    hide Set;
    hide Xor3;
    BigSigma1Xors(x, m);
    SameXor(x.RotateRight(6), Right6(x), x.RotateRight(11), Right11(x), x.RotateRight(25), Right25(x), m);
  }

  lemma BigSigma1Xors(x: word, m: word)
    ensures Set(BigSigma1(x), m) <==> Set(Xor3(x.RotateRight(6), x.RotateRight(11), x.RotateRight(25)), m)
  {
    hide Set;
  }

  lemma SmallSigma0Bits(x: word, m: word)
    requires OneBit(m)
    ensures Set(SmallSigma0(x), m) <==> Odd(Set(x, Left7(m)), Set(x, Left18(m)), Set(x, Up3(m)))
  {
    hide *;
    SmallSigma0Is(x, m);
    XorSets(Right7(x), Right18(x), Down3(x), m);
    Right7Sets(x, m);
    Right18Sets(x, m);
    Down3Sets(x, m);
  }

  lemma SmallSigma0Is(x: word, m: word)
    ensures Set(SmallSigma0(x), m) <==> Set(Xor3(Right7(x), Right18(x), Down3(x)), m)
  {
    hide Set;
    hide Xor3;
    SmallSigma0Xors(x, m);
    SameXor(x.RotateRight(7), Right7(x), x.RotateRight(18), Right18(x), x >> 3, Down3(x), m);
  }

  lemma SmallSigma0Xors(x: word, m: word)
    ensures Set(SmallSigma0(x), m) <==> Set(Xor3(x.RotateRight(7), x.RotateRight(18), x >> 3), m)
  {
    hide Set;
  }

  lemma SmallSigma1Bits(x: word, m: word)
    requires OneBit(m)
    ensures Set(SmallSigma1(x), m) <==> Odd(Set(x, Left17(m)), Set(x, Left19(m)), Set(x, Up10(m)))
  {
    hide *;
    SmallSigma1Is(x, m);
    XorSets(Right17(x), Right19(x), Down10(x), m);
    Right17Sets(x, m);
    Right19Sets(x, m);
    Down10Sets(x, m);
  }

  lemma SmallSigma1Is(x: word, m: word)
    ensures Set(SmallSigma1(x), m) <==> Set(Xor3(Right17(x), Right19(x), Down10(x)), m)
  {
    hide Set;
    hide Xor3;
    SmallSigma1Xors(x, m);
    SameXor(x.RotateRight(17), Right17(x), x.RotateRight(19), Right19(x), x >> 10, Down10(x), m);
  }

  lemma SmallSigma1Xors(x: word, m: word)
    ensures Set(SmallSigma1(x), m) <==> Set(Xor3(x.RotateRight(17), x.RotateRight(19), x >> 10), m)
  {
    hide Set;
  }
}
