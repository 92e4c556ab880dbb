/** The constants of sections 4.2.2 and 5.3.3 of FIPS 180-4, and what they are: fractional parts of
    roots of the first primes. */
module Sha256Constants {
  import opened PrimeField

  /** The first sixty-four primes, each with the round constant it gives. */
  function RoundRow(t: nat): (nat, nat)
    requires t < 64
  {
    match t
    case 0 => (2, 0x428a2f98)
    case 1 => (3, 0x71374491)
    case 2 => (5, 0xb5c0fbcf)
    case 3 => (7, 0xe9b5dba5)
    case 4 => (11, 0x3956c25b)
    case 5 => (13, 0x59f111f1)
    case 6 => (17, 0x923f82a4)
    case 7 => (19, 0xab1c5ed5)
    case 8 => (23, 0xd807aa98)
    case 9 => (29, 0x12835b01)
    case 10 => (31, 0x243185be)
    case 11 => (37, 0x550c7dc3)
    case 12 => (41, 0x72be5d74)
    case 13 => (43, 0x80deb1fe)
    case 14 => (47, 0x9bdc06a7)
    case 15 => (53, 0xc19bf174)
    case 16 => (59, 0xe49b69c1)
    case 17 => (61, 0xefbe4786)
    case 18 => (67, 0x0fc19dc6)
    case 19 => (71, 0x240ca1cc)
    case 20 => (73, 0x2de92c6f)
    case 21 => (79, 0x4a7484aa)
    case 22 => (83, 0x5cb0a9dc)
    case 23 => (89, 0x76f988da)
    case 24 => (97, 0x983e5152)
    case 25 => (101, 0xa831c66d)
    case 26 => (103, 0xb00327c8)
    case 27 => (107, 0xbf597fc7)
    case 28 => (109, 0xc6e00bf3)
    case 29 => (113, 0xd5a79147)
    case 30 => (127, 0x06ca6351)
    case 31 => (131, 0x14292967)
    case 32 => (137, 0x27b70a85)
    case 33 => (139, 0x2e1b2138)
    case 34 => (149, 0x4d2c6dfc)
    case 35 => (151, 0x53380d13)
    case 36 => (157, 0x650a7354)
    case 37 => (163, 0x766a0abb)
    case 38 => (167, 0x81c2c92e)
    case 39 => (173, 0x92722c85)
    case 40 => (179, 0xa2bfe8a1)
    case 41 => (181, 0xa81a664b)
    case 42 => (191, 0xc24b8b70)
    case 43 => (193, 0xc76c51a3)
    case 44 => (197, 0xd192e819)
    case 45 => (199, 0xd6990624)
    case 46 => (211, 0xf40e3585)
    case 47 => (223, 0x106aa070)
    case 48 => (227, 0x19a4c116)
    case 49 => (229, 0x1e376c08)
    case 50 => (233, 0x2748774c)
    case 51 => (239, 0x34b0bcb5)
    case 52 => (241, 0x391c0cb3)
    case 53 => (251, 0x4ed8aa4a)
    case 54 => (257, 0x5b9cca4f)
    case 55 => (263, 0x682e6ff3)
    case 56 => (269, 0x748f82ee)
    case 57 => (271, 0x78a5636f)
    case 58 => (277, 0x84c87814)
    case 59 => (281, 0x8cc70208)
    case 60 => (283, 0x90befffa)
    case 61 => (293, 0xa4506ceb)
    case 62 => (307, 0xbef9a3f7)
    case _ => (311, 0xc67178f2)
  }

  /** The initial hash values. */
  function InitialValue(t: nat): nat
    requires t < 8
  {
    match t
    case 0 => 0x6a09e667
    case 1 => 0xbb67ae85
    case 2 => 0x3c6ef372
    case 3 => 0xa54ff53a
    case 4 => 0x510e527f
    case 5 => 0x9b05688c
    case 6 => 0x1f83d9ab
    case _ => 0x5be0cd19
  }

  /** `f / 2^32` is the fractional part, cut to 32 bits, of the square root of `n`, whose integer part
      is `i`. */
  predicate SqrtFraction(n: nat, i: nat, f: nat) {
    var r := i * 0x1_0000_0000 + f;
    f < 0x1_0000_0000 && r * r <= n * 0x1_0000_0000_0000_0000 < (r + 1) * (r + 1)
  }

  /** The same for the cube root. */
  predicate CbrtFraction(n: nat, i: nat, f: nat) {
    var r := i * 0x1_0000_0000 + f;
    f < 0x1_0000_0000 && r * r * r <= n * 0x1_0000_0000_0000_0000_0000_0000 < (r + 1) * (r + 1) * (r + 1)
  }

  function Sqrt(n: nat): nat {
    if n < 4 then 1 else if n < 9 then 2 else if n < 16 then 3 else 4
  }

  function Cbrt(n: nat): nat {
    if n < 8 then 1 else if n < 27 then 2 else if n < 64 then 3 else if n < 125 then 4 else if n < 216 then 5 else 6
  }

  lemma SquareRoots()
    ensures SqrtFraction(2, 1, 0x6a09e667) && SqrtFraction(3, 1, 0xbb67ae85)
    ensures SqrtFraction(5, 2, 0x3c6ef372) && SqrtFraction(7, 2, 0xa54ff53a)
    ensures SqrtFraction(11, 3, 0x510e527f) && SqrtFraction(13, 3, 0x9b05688c)
    ensures SqrtFraction(17, 4, 0x1f83d9ab) && SqrtFraction(19, 4, 0x5be0cd19)
  {
  }

  /** The initial values are the fractional parts of the square roots of the first eight primes. */
  lemma InitialValuesAreRoots(t: nat)
    requires t < 8
    ensures var p := RoundRow(t).0; SqrtFraction(p, Sqrt(p), InitialValue(t))
  {
    hide SqrtFraction;
    SquareRoots();
  }

  lemma Roots0()
    ensures CbrtFraction(2, 1, 0x428a2f98) && CbrtFraction(3, 1, 0x71374491)
    ensures CbrtFraction(5, 1, 0xb5c0fbcf) && CbrtFraction(7, 1, 0xe9b5dba5)
    ensures CbrtFraction(11, 2, 0x3956c25b) && CbrtFraction(13, 2, 0x59f111f1)
    ensures CbrtFraction(17, 2, 0x923f82a4) && CbrtFraction(19, 2, 0xab1c5ed5)
  {
  }

  lemma Roots1()
    ensures CbrtFraction(23, 2, 0xd807aa98) && CbrtFraction(29, 3, 0x12835b01)
    ensures CbrtFraction(31, 3, 0x243185be) && CbrtFraction(37, 3, 0x550c7dc3)
    ensures CbrtFraction(41, 3, 0x72be5d74) && CbrtFraction(43, 3, 0x80deb1fe)
    ensures CbrtFraction(47, 3, 0x9bdc06a7) && CbrtFraction(53, 3, 0xc19bf174)
  {
  }

  lemma Roots2()
    ensures CbrtFraction(59, 3, 0xe49b69c1) && CbrtFraction(61, 3, 0xefbe4786)
    ensures CbrtFraction(67, 4, 0x0fc19dc6) && CbrtFraction(71, 4, 0x240ca1cc)
    ensures CbrtFraction(73, 4, 0x2de92c6f) && CbrtFraction(79, 4, 0x4a7484aa)
    ensures CbrtFraction(83, 4, 0x5cb0a9dc) && CbrtFraction(89, 4, 0x76f988da)
  {
  }

  lemma Roots3()
    ensures CbrtFraction(97, 4, 0x983e5152) && CbrtFraction(101, 4, 0xa831c66d)
    ensures CbrtFraction(103, 4, 0xb00327c8) && CbrtFraction(107, 4, 0xbf597fc7)
    ensures CbrtFraction(109, 4, 0xc6e00bf3) && CbrtFraction(113, 4, 0xd5a79147)
    ensures CbrtFraction(127, 5, 0x06ca6351) && CbrtFraction(131, 5, 0x14292967)
  {
  }

  lemma Roots4()
    ensures CbrtFraction(137, 5, 0x27b70a85) && CbrtFraction(139, 5, 0x2e1b2138)
    ensures CbrtFraction(149, 5, 0x4d2c6dfc) && CbrtFraction(151, 5, 0x53380d13)
    ensures CbrtFraction(157, 5, 0x650a7354) && CbrtFraction(163, 5, 0x766a0abb)
    ensures CbrtFraction(167, 5, 0x81c2c92e) && CbrtFraction(173, 5, 0x92722c85)
  {
  }

  lemma Roots5()
    ensures CbrtFraction(179, 5, 0xa2bfe8a1) && CbrtFraction(181, 5, 0xa81a664b)
    ensures CbrtFraction(191, 5, 0xc24b8b70) && CbrtFraction(193, 5, 0xc76c51a3)
    ensures CbrtFraction(197, 5, 0xd192e819) && CbrtFraction(199, 5, 0xd6990624)
    ensures CbrtFraction(211, 5, 0xf40e3585) && CbrtFraction(223, 6, 0x106aa070)
  {
  }

  lemma Roots6()
    ensures CbrtFraction(227, 6, 0x19a4c116) && CbrtFraction(229, 6, 0x1e376c08)
    ensures CbrtFraction(233, 6, 0x2748774c) && CbrtFraction(239, 6, 0x34b0bcb5)
    ensures CbrtFraction(241, 6, 0x391c0cb3) && CbrtFraction(251, 6, 0x4ed8aa4a)
    ensures CbrtFraction(257, 6, 0x5b9cca4f) && CbrtFraction(263, 6, 0x682e6ff3)
  {
  }

  lemma Roots7()
    ensures CbrtFraction(269, 6, 0x748f82ee) && CbrtFraction(271, 6, 0x78a5636f)
    ensures CbrtFraction(277, 6, 0x84c87814) && CbrtFraction(281, 6, 0x8cc70208)
    ensures CbrtFraction(283, 6, 0x90befffa) && CbrtFraction(293, 6, 0xa4506ceb)
    ensures CbrtFraction(307, 6, 0xbef9a3f7) && CbrtFraction(311, 6, 0xc67178f2)
  {
  }

  /** The round constants are the fractional parts of the cube roots of the first sixty-four primes. */
  lemma RoundConstantsAreRoots(t: nat)
    requires t < 64
    ensures var (p, k) := RoundRow(t); CbrtFraction(p, Cbrt(p), k)
  {
    hide CbrtFraction;
    if t < 16 {
      Roots0();
      Roots1();
    } else if t < 32 {
      Roots2();
      Roots3();
    } else if t < 48 {
      Roots4();
      Roots5();
    } else {
      Roots6();
      Roots7();
    }
  }

  // ---- The first sixty-four primes ----

  predicate NotMultiple(n: nat, q: nat)
    requires q > 0
  {
    n == q || n % q != 0
  }

  /** No multiple of a smaller prime up to 17: enough to be prime below 18 squared. */
  predicate SeemsPrime(n: nat) {
    && n >= 2 && NotMultiple(n, 2) && NotMultiple(n, 3) && NotMultiple(n, 5) && NotMultiple(n, 7)
    && NotMultiple(n, 11) && NotMultiple(n, 13) && NotMultiple(n, 17)
  }

  /** Nothing strictly between `lo` and `hi` seems prime. */
  predicate GapClear(lo: nat, hi: nat) {
    hi <= lo + 1 || (!SeemsPrime(hi - 1) && GapClear(lo, hi - 1))
  }

  lemma {:induction false} GapClearIs(lo: nat, hi: nat, n: nat)
    requires GapClear(lo, hi) && lo < n < hi
    ensures !SeemsPrime(n)
  {
    hide SeemsPrime;
    if n < hi - 1 {
      GapClearIs(lo, hi - 1, n);
    }
  }

  lemma ProductTooLarge(a: nat, b: nat)
    requires a >= 18 && b >= 18
    ensures a * b >= 324
  {
  }

  /** A divisor above 17 leaves a cofactor that is not. */
  lemma Cofactor(n: nat, d: nat) returns (e: nat)
    requires 2 <= n < 324 && 1 < d < n && n % d == 0
    ensures 1 < e < n && n % e == 0 && (d <= 17 || e <= 17)
  {
    e := n / d;
    assert n == d * e;
    CofactorDivides(n, d, e);
    if d > 17 && e > 17 {
      ProductTooLarge(d, e);
    }
  }

  lemma CofactorDivides(n: nat, d: nat, e: nat)
    requires n == d * e && 1 < d < n
    ensures 1 < e < n && n % e == 0
  {
    CofactorSize(d, e);
    MultipleHasNoRest(d, e);
  }

  lemma CofactorSize(d: nat, e: nat)
    requires 1 < d < d * e
    ensures 1 < e < d * e
  {
    if e > 1 {
      assert d * e >= 2 * e;
    }
  }

  lemma MultipleHasNoRest(d: nat, e: nat)
    requires e > 0
    ensures d * e % e == 0
  {
    var q, r := d * e / e, d * e % e;
    Rest(d, q, e, r);
  }

  lemma Rest(d: int, q: int, e: int, r: int)
    requires d * e == q * e + r && 0 <= r < e
    ensures r == 0
  {
    MultipleIsFar(d - q, e);
    assert (d - q) * e == r;
  }

  /** A divisor up to 17 has a prime divisor up to 17. */
  lemma SmallDivisor(n: nat, d: nat)
    requires 1 < d <= 17 && d < n && n % d == 0
    ensures !SeemsPrime(n)
  {
    if d % 2 == 0 {
      assert n % 2 == 0 by { Divides(n, d, 2); }
    } else if d % 3 == 0 {
      assert n % 3 == 0 by { Divides(n, d, 3); }
    } else if d % 5 == 0 {
      assert n % 5 == 0 by { Divides(n, d, 5); }
    }
  }

  lemma Divides(n: nat, d: nat, q: nat)
    requires d > 0 && q > 0 && n % d == 0 && d % q == 0
    ensures n % q == 0
  {
    var k, m := n / d, d / q;
    assert n == k * (m * q) == (k * m) * q;
    MultipleHasNoRest(k * m, q);
  }

  lemma SeemsIsPrime(n: nat)
    requires n < 324
    ensures SeemsPrime(n) <==> Prime(n)
  {
    if n >= 2 {
      if d :| 1 < d < n && n % d == 0 {
        var e := Cofactor(n, d);
        SmallDivisor(n, if d <= 17 then d else e);
      } else {
        assert n % 2 != 0 || n <= 2;
        assert n % 3 != 0 || n <= 3;
        assert n % 5 != 0 || n <= 5;
        assert n % 7 != 0 || n <= 7;
        assert n % 11 != 0 || n <= 11;
        assert n % 13 != 0 || n <= 13;
        assert n % 17 != 0 || n <= 17;
      }
    }
  }

  lemma Primes0()
    ensures SeemsPrime(2) && GapClear(2, 3) && SeemsPrime(3) && GapClear(3, 5)
    ensures SeemsPrime(5) && GapClear(5, 7) && SeemsPrime(7) && GapClear(7, 11)
    ensures SeemsPrime(11) && GapClear(11, 13) && SeemsPrime(13) && GapClear(13, 17)
    ensures SeemsPrime(17) && GapClear(17, 19) && SeemsPrime(19) && GapClear(19, 23)
  {
  }

  lemma Primes1()
    ensures SeemsPrime(23) && GapClear(23, 29) && SeemsPrime(29) && GapClear(29, 31)
    ensures SeemsPrime(31) && GapClear(31, 37) && SeemsPrime(37) && GapClear(37, 41)
    ensures SeemsPrime(41) && GapClear(41, 43) && SeemsPrime(43) && GapClear(43, 47)
    ensures SeemsPrime(47) && GapClear(47, 53) && SeemsPrime(53) && GapClear(53, 59)
  {
  }

  lemma Primes2()
    ensures SeemsPrime(59) && GapClear(59, 61) && SeemsPrime(61) && GapClear(61, 67)
    ensures SeemsPrime(67) && GapClear(67, 71) && SeemsPrime(71) && GapClear(71, 73)
    ensures SeemsPrime(73) && GapClear(73, 79) && SeemsPrime(79) && GapClear(79, 83)
    ensures SeemsPrime(83) && GapClear(83, 89) && SeemsPrime(89) && GapClear(89, 97)
  {
  }

  lemma Primes3()
    ensures SeemsPrime(97) && GapClear(97, 101) && SeemsPrime(101) && GapClear(101, 103)
    ensures SeemsPrime(103) && GapClear(103, 107) && SeemsPrime(107) && GapClear(107, 109)
    ensures SeemsPrime(109) && GapClear(109, 113) && SeemsPrime(113) && GapClear(113, 127)
    ensures SeemsPrime(127) && GapClear(127, 131) && SeemsPrime(131) && GapClear(131, 137)
  {
  }

  lemma Primes4()
    ensures SeemsPrime(137) && GapClear(137, 139) && SeemsPrime(139) && GapClear(139, 149)
    ensures SeemsPrime(149) && GapClear(149, 151) && SeemsPrime(151) && GapClear(151, 157)
    ensures SeemsPrime(157) && GapClear(157, 163) && SeemsPrime(163) && GapClear(163, 167)
    ensures SeemsPrime(167) && GapClear(167, 173) && SeemsPrime(173) && GapClear(173, 179)
  {
  }

  lemma Primes5()
    ensures SeemsPrime(179) && GapClear(179, 181) && SeemsPrime(181) && GapClear(181, 191)
    ensures SeemsPrime(191) && GapClear(191, 193) && SeemsPrime(193) && GapClear(193, 197)
    ensures SeemsPrime(197) && GapClear(197, 199) && SeemsPrime(199) && GapClear(199, 211)
    ensures SeemsPrime(211) && GapClear(211, 223) && SeemsPrime(223) && GapClear(223, 227)
  {
  }

  lemma Primes6()
    ensures SeemsPrime(227) && GapClear(227, 229) && SeemsPrime(229) && GapClear(229, 233)
    ensures SeemsPrime(233) && GapClear(233, 239) && SeemsPrime(239) && GapClear(239, 241)
    ensures SeemsPrime(241) && GapClear(241, 251) && SeemsPrime(251) && GapClear(251, 257)
    ensures SeemsPrime(257) && GapClear(257, 263) && SeemsPrime(263) && GapClear(263, 269)
  {
  }

  lemma Primes7()
    ensures SeemsPrime(269) && GapClear(269, 271) && SeemsPrime(271) && GapClear(271, 277)
    ensures SeemsPrime(277) && GapClear(277, 281) && SeemsPrime(281) && GapClear(281, 283)
    ensures SeemsPrime(283) && GapClear(283, 293) && SeemsPrime(293) && GapClear(293, 307)
    ensures SeemsPrime(307) && GapClear(307, 311) && SeemsPrime(311)
  {
  }

  lemma RowSeemsPrime(t: nat)
    requires t < 64
    ensures SeemsPrime(RoundRow(t).0) && (t < 63 ==> GapClear(RoundRow(t).0, RoundRow(t + 1).0))
    ensures RoundRow(t).0 < 324
  {
    hide SeemsPrime;
    hide GapClear;
    if t < 16 {
      Primes0();
      Primes1();
    } else if t < 32 {
      Primes2();
      Primes3();
    } else if t < 48 {
      Primes4();
      Primes5();
    } else {
      Primes6();
      Primes7();
    }
  }

  lemma NoneBetween(lo: nat, hi: nat)
    requires GapClear(lo, hi) && hi < 324
    ensures forall n :: lo < n < hi ==> !Prime(n)
  {
    hide Prime;
    hide SeemsPrime;
    forall n | lo < n < hi ensures !Prime(n) {
      GapClearIs(lo, hi, n);
      SeemsIsPrime(n);
    }
  }

  lemma RowsIncrease(t: nat)
    requires t < 63
    ensures RoundRow(t).0 < RoundRow(t + 1).0
  {
  }

  /** The table lists the first sixty-four primes in order: it starts at 2, every row is prime, and nothing
      between two successive rows is. */
  lemma RowsArePrimes(t: nat)
    requires t < 64
    ensures RoundRow(0).0 == 2 && Prime(RoundRow(t).0)
    ensures t < 63 ==> RoundRow(t).0 < RoundRow(t + 1).0
    ensures t < 63 ==> forall n :: RoundRow(t).0 < n < RoundRow(t + 1).0 ==> !Prime(n)
  {
    assert RoundRow(0).0 == 2;
    hide RoundRow;
    hide Prime;
    hide SeemsPrime;
    hide GapClear;
    RowSeemsPrime(t);
    SeemsIsPrime(RoundRow(t).0);
    if t < 63 {
      RowSeemsPrime(t + 1);
      RowsIncrease(t);
      NoneBetween(RoundRow(t).0, RoundRow(t + 1).0);
    }
  }
}
