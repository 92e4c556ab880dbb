/** SHA-256: the recursive definition of FIPS 180-4, and the in-place implementation against it. */
module Sha256 {
  import opened Bytes
  import opened Sha256Constants

  /** A `u32`: addition wraps. */
  type word = bv32

  // ---- Section 4.1.2 of FIPS 180-4: the functions ----

  /** Addition modulo 2^32. */
  function Plus(x: word, y: word): word { x + y }

  function Sum4(a: word, b: word, c: word, d: word): word { a + b + c + d }

  function Ch(x: word, y: word, z: word): word { (x & y) ^ (!x & z) }

  function Maj(x: word, y: word, z: word): word { (x & y) ^ (x & z) ^ (y & z) }

  function BigSigma0(x: word): word { x.RotateRight(2) ^ x.RotateRight(13) ^ x.RotateRight(22) }

  function BigSigma1(x: word): word { x.RotateRight(6) ^ x.RotateRight(11) ^ x.RotateRight(25) }

  function SmallSigma0(x: word): word { x.RotateRight(7) ^ x.RotateRight(18) ^ (x >> 3) }

  function SmallSigma1(x: word): word { x.RotateRight(17) ^ x.RotateRight(19) ^ (x >> 10) }

  // ---- Section 4.2.2: the round constants ----

  function K(t: nat): word
    requires t < 64
  {
    match t
    case 0 => 0x428a2f98
    case 1 => 0x71374491
    case 2 => 0xb5c0fbcf
    case 3 => 0xe9b5dba5
    case 4 => 0x3956c25b
    case 5 => 0x59f111f1
    case 6 => 0x923f82a4
    case 7 => 0xab1c5ed5
    case 8 => 0xd807aa98
    case 9 => 0x12835b01
    case 10 => 0x243185be
    case 11 => 0x550c7dc3
    case 12 => 0x72be5d74
    case 13 => 0x80deb1fe
    case 14 => 0x9bdc06a7
    case 15 => 0xc19bf174
    case 16 => 0xe49b69c1
    case 17 => 0xefbe4786
    case 18 => 0x0fc19dc6
    case 19 => 0x240ca1cc
    case 20 => 0x2de92c6f
    case 21 => 0x4a7484aa
    case 22 => 0x5cb0a9dc
    case 23 => 0x76f988da
    case 24 => 0x983e5152
    case 25 => 0xa831c66d
    case 26 => 0xb00327c8
    case 27 => 0xbf597fc7
    case 28 => 0xc6e00bf3
    case 29 => 0xd5a79147
    case 30 => 0x06ca6351
    case 31 => 0x14292967
    case 32 => 0x27b70a85
    case 33 => 0x2e1b2138
    case 34 => 0x4d2c6dfc
    case 35 => 0x53380d13
    case 36 => 0x650a7354
    case 37 => 0x766a0abb
    case 38 => 0x81c2c92e
    case 39 => 0x92722c85
    case 40 => 0xa2bfe8a1
    case 41 => 0xa81a664b
    case 42 => 0xc24b8b70
    case 43 => 0xc76c51a3
    case 44 => 0xd192e819
    case 45 => 0xd6990624
    case 46 => 0xf40e3585
    case 47 => 0x106aa070
    case 48 => 0x19a4c116
    case 49 => 0x1e376c08
    case 50 => 0x2748774c
    case 51 => 0x34b0bcb5
    case 52 => 0x391c0cb3
    case 53 => 0x4ed8aa4a
    case 54 => 0x5b9cca4f
    case 55 => 0x682e6ff3
    case 56 => 0x748f82ee
    case 57 => 0x78a5636f
    case 58 => 0x84c87814
    case 59 => 0x8cc70208
    case 60 => 0x90befffa
    case 61 => 0xa4506ceb
    case 62 => 0xbef9a3f7
    case 63 => 0xc67178f2
  }

  lemma ConstantsFrom0(t: nat)
    requires 0 <= t < 8
    ensures K(t) as nat == RoundRow(t).1
  {
    match t
    case 0 =>
    case 1 =>
    case 2 =>
    case 3 =>
    case 4 =>
    case 5 =>
    case 6 =>
    case 7 =>
  }

  lemma ConstantsFrom8(t: nat)
    requires 8 <= t < 16
    ensures K(t) as nat == RoundRow(t).1
  {
    match t
    case 8 =>
    case 9 =>
    case 10 =>
    case 11 =>
    case 12 =>
    case 13 =>
    case 14 =>
    case 15 =>
  }

  lemma ConstantsFrom16(t: nat)
    requires 16 <= t < 24
    ensures K(t) as nat == RoundRow(t).1
  {
    match t
    case 16 =>
    case 17 =>
    case 18 =>
    case 19 =>
    case 20 =>
    case 21 =>
    case 22 =>
    case 23 =>
  }

  lemma ConstantsFrom24(t: nat)
    requires 24 <= t < 32
    ensures K(t) as nat == RoundRow(t).1
  {
    match t
    case 24 =>
    case 25 =>
    case 26 =>
    case 27 =>
    case 28 =>
    case 29 =>
    case 30 =>
    case 31 =>
  }

  lemma ConstantsFrom32(t: nat)
    requires 32 <= t < 40
    ensures K(t) as nat == RoundRow(t).1
  {
    match t
    case 32 =>
    case 33 =>
    case 34 =>
    case 35 =>
    case 36 =>
    case 37 =>
    case 38 =>
    case 39 =>
  }

  lemma ConstantsFrom40(t: nat)
    requires 40 <= t < 48
    ensures K(t) as nat == RoundRow(t).1
  {
    match t
    case 40 =>
    case 41 =>
    case 42 =>
    case 43 =>
    case 44 =>
    case 45 =>
    case 46 =>
    case 47 =>
  }

  lemma ConstantsFrom48(t: nat)
    requires 48 <= t < 56
    ensures K(t) as nat == RoundRow(t).1
  {
    match t
    case 48 =>
    case 49 =>
    case 50 =>
    case 51 =>
    case 52 =>
    case 53 =>
    case 54 =>
    case 55 =>
  }

  lemma ConstantsFrom56(t: nat)
    requires 56 <= t < 64
    ensures K(t) as nat == RoundRow(t).1
  {
    match t
    case 56 =>
    case 57 =>
    case 58 =>
    case 59 =>
    case 60 =>
    case 61 =>
    case 62 =>
    case 63 =>
  }

  /** They are the constants that `RoundConstantsAreRoots` speaks of. */
  lemma ConstantsAreThose(t: nat)
    requires t < 64
    ensures K(t) as nat == RoundRow(t).1
  {
    if t < 8 {
      ConstantsFrom0(t);
    } else if t < 16 {
      ConstantsFrom8(t);
    } else if t < 24 {
      ConstantsFrom16(t);
    } else if t < 32 {
      ConstantsFrom24(t);
    } else if t < 40 {
      ConstantsFrom32(t);
    } else if t < 48 {
      ConstantsFrom40(t);
    } else if t < 56 {
      ConstantsFrom48(t);
    } else {
      ConstantsFrom56(t);
    }
  }

  // ---- Section 5.1.1: padding ----

  lemma Remainder(q: nat, r: nat)
    requires r < 64
    ensures (64 * q + r) % 64 == r
  {
  }

  lemma LeastZeros(len: nat)
    ensures var k := if len % 64 <= 55 then 55 - len % 64 else 119 - len % 64;
            (len + 1 + k) % 64 == 56 && forall n :: len + 1 <= n < len + 1 + k ==> n % 64 != 56
  {
    var q, r := len / 64, len % 64;
    var k := if r <= 55 then 55 - r else 119 - r;
    assert len == 64 * q + r;
    Remainder(if r <= 55 then q else q + 1, 56);
    forall n | len + 1 <= n < len + 1 + k ensures n % 64 != 56 {
      if n < 64 * (q + 1) {
        Remainder(q, n - 64 * q);
      } else {
        Remainder(q + 1, n - 64 * (q + 1));
      }
    }
  }

  /** The least number of zero bytes that brings the padded length to 56 modulo 64. */
  function ZeroCount(len: nat): (k: nat)
    ensures k < 64 && (len + 1 + k) % 64 == 56
    ensures forall n :: len + 1 <= n < len + 1 + k ==> n % 64 != 56
  {
    LeastZeros(len);
    if len % 64 <= 55 then 55 - len % 64 else 119 - len % 64
  }

  function Zeros(k: nat): (s: Str)
    ensures |s| == k
  {
    seq(k, _ => 0 as byte)
  }

  /** The message, the bit 1, zeros, and the length in bits as 64 bits. */
  function Pad(m: Str): (p: Str)
    ensures |p| == |m| + 1 + ZeroCount(|m|) + 8
  {
    m + [0x80] + Zeros(ZeroCount(|m|)) + BigEndian(BitLength(m), 8)
  }

  /** The wrapped `u64` bit length: the true one for every message the standard covers. */
  function BitLength(m: Str): (n: nat)
    ensures n < TWO_64
    ensures 8 * |m| < TWO_64 ==> n == 8 * |m|
  {
    8 * |m| % TWO_64
  }

  /** The padded message is a whole number of blocks. */
  lemma PadIsWholeBlocks(m: Str)
    ensures |Pad(m)| % 64 == 0
  {
    var n := |m| + 1 + ZeroCount(|m|);
    assert |Pad(m)| == n + 8;
  }

  // ---- Section 6.2.2: the hash computation ----

  function OfByte(b: byte): word { b as int as word }

  function FromBytes(a: word, b: word, c: word, d: word): word { (a << 24) | (b << 16) | (c << 8) | d }

  /** The big-endian word at byte `j`. */
  function WordAt(s: Str, j: nat): word
    requires j + 4 <= |s|
  {
    FromBytes(OfByte(s[j]), OfByte(s[j + 1]), OfByte(s[j + 2]), OfByte(s[j + 3]))
  }

  function NextWord(w2: word, w7: word, w15: word, w16: word): word {
    Sum4(SmallSigma1(w2), w7, SmallSigma0(w15), w16)
  }

  /** The message schedule of the block at byte `at`. */
  function W(s: Str, at: nat, t: nat): word
    requires at + 64 <= |s|
  {
    if t < 16 then WordAt(s, at + 4 * t)
    else NextWord(W(s, at, t - 2), W(s, at, t - 7), W(s, at, t - 15), W(s, at, t - 16))
  }

  /** The eight working variables, or a hash value. */
  datatype Regs = Regs(a: word, b: word, c: word, d: word, e: word, f: word, g: word, h: word)

  function Round(r: Regs, k: word, w: word): Regs {
    var t1 := Plus(Plus(Plus(Plus(r.h, BigSigma1(r.e)), Ch(r.e, r.f, r.g)), k), w);
    var t2 := Plus(BigSigma0(r.a), Maj(r.a, r.b, r.c));
    Regs(Plus(t1, t2), r.a, r.b, r.c, Plus(r.d, t1), r.e, r.f, r.g)
  }

  function Rounds(r: Regs, s: Str, at: nat, t: nat): Regs
    requires at + 64 <= |s| && t <= 64
  {
    if t == 0 then r else Round(Rounds(r, s, at, t - 1), K(t - 1), W(s, at, t - 1))
  }

  function Words(r: Regs): (h: seq<word>)
    ensures |h| == 8
  {
    [r.a, r.b, r.c, r.d, r.e, r.f, r.g, r.h]
  }

  function AddRegs(x: Regs, y: Regs): Regs {
    Regs(Plus(x.a, y.a), Plus(x.b, y.b), Plus(x.c, y.c), Plus(x.d, y.d),
         Plus(x.e, y.e), Plus(x.f, y.f), Plus(x.g, y.g), Plus(x.h, y.h))
  }

  /** Section 5.3.3: the initial hash value. */
  const INITIAL: Regs := Regs(0x6a09e667, 0xbb67ae85, 0x3c6ef372, 0xa54ff53a,
                              0x510e527f, 0x9b05688c, 0x1f83d9ab, 0x5be0cd19)

  /** It holds the values that `InitialValuesAreRoots` speaks of. */
  lemma InitialIsThose()
    ensures forall t: nat :: t < 8 ==> Words(INITIAL)[t] as nat == InitialValue(t)
  {
  }

  /** The hash value after `n` blocks. */
  function HashBlocks(s: Str, n: nat): Regs
    requires 64 * n <= |s|
  {
    if n == 0 then INITIAL
    else
      var before := HashBlocks(s, n - 1);
      AddRegs(before, Rounds(before, s, 64 * (n - 1), 64))
  }

  function WordBytes(w: word): Str {
    BigEndian(w as int, 4)
  }

  /** The first `n` words, concatenated. */
  function WordsBytes(h: seq<word>, n: nat): (s: Str)
    requires n <= |h|
    ensures |s| == 4 * n
  {
    if n == 0 then [] else WordsBytes(h, n - 1) + WordBytes(h[n - 1])
  }

  function Digest(m: Str): (d: Str)
    ensures |d| == 32
  {
    WordsBytes(Words(HashBlocks(Pad(m), |Pad(m)| / 64)), 8)
  }

  // ---- The implementation ----

  /** Append 0x80, then zeros until the length is 56 modulo 64, then the wrapped bit length. */
  method PadInPlace(message: Str) returns (padded: Str)
    ensures padded == Pad(message)
  {
    var bitLen := BitLength(message);
    padded := message + [0x80];
    ghost var zeros := 0;
    while |padded| % 64 != 56
      invariant zeros <= ZeroCount(|message|)
      invariant padded == message + [0x80] + Zeros(zeros)
      decreases ZeroCount(|message|) - zeros
    {
      padded := padded + [0];
      zeros := zeros + 1;
      assert Zeros(zeros) == Zeros(zeros - 1) + [0];
    }
    assert zeros == ZeroCount(|message|);
    padded := padded + BigEndian(bitLen, 8);
  }

  /** Fill the schedule array: sixteen words of the block, then the recurrence. */
  method FillSchedule(s: Str, at: nat, w: array<word>)
    requires at + 64 <= |s| && w.Length == 64
    modifies w
    ensures forall t :: 0 <= t < 64 ==> w[t] == W(s, at, t)
  {
    hide SmallSigma0;
    hide SmallSigma1;
    hide WordAt;
    hide Sum4;
    var i := 0;
    while i < 16
      invariant 0 <= i <= 16
      invariant forall t :: 0 <= t < i ==> w[t] == W(s, at, t)
    {
      w[i] := WordAt(s, at + 4 * i);
      i := i + 1;
    }
    while i < 64
      invariant 16 <= i <= 64
      invariant forall t :: 0 <= t < i ==> w[t] == W(s, at, t)
    {
      var s0 := SmallSigma0(w[i - 15]);
      var s1 := SmallSigma1(w[i - 2]);
      SumReorder(w[i - 16], s0, w[i - 7], s1);
      w[i] := Sum4(w[i - 16], s0, w[i - 7], s1);
      i := i + 1;
    }
  }

  /** Four words wrap to the same sum in either order. */
  lemma SumReorder(a: word, b: word, c: word, d: word)
    ensures Sum4(a, b, c, d) == Sum4(d, c, b, a)
  {
  }

  /** The sixty-four rounds on eight local variables. */
  method Compress(r: Regs, s: Str, at: nat, w: array<word>) returns (result: Regs)
    requires at + 64 <= |s| && w.Length == 64
    requires forall t :: 0 <= t < 64 ==> w[t] == W(s, at, t)
    ensures result == Rounds(r, s, at, 64)
  {
    hide BigSigma0;
    hide BigSigma1;
    hide Ch;
    hide Maj;
    hide K;
    hide W;
    hide Plus;
    var a, b, c, d, e, f, g, hh := r.a, r.b, r.c, r.d, r.e, r.f, r.g, r.h;
    var i := 0;
    while i < 64
      invariant 0 <= i <= 64
      invariant Regs(a, b, c, d, e, f, g, hh) == Rounds(r, s, at, i)
    {
      var temp1 := Plus(Plus(Plus(Plus(hh, BigSigma1(e)), Ch(e, f, g)), K(i)), w[i]);
      var temp2 := Plus(BigSigma0(a), Maj(a, b, c));
      hh := g;
      g := f;
      f := e;
      e := Plus(d, temp1);
      d := c;
      c := b;
      b := a;
      a := Plus(temp1, temp2);
      i := i + 1;
    }
    result := Regs(a, b, c, d, e, f, g, hh);
  }

  /** The hash array after one block is the sum of what it held and the compressed registers. */
  method AddInPlace(h: array<word>, ghost before: Regs, x: Regs)
    requires h.Length == 8 && h[..] == Words(before)
    modifies h
    ensures h[..] == Words(AddRegs(before, x))
  {
    hide *;
    HeldAre(h, before);
    h[0] := Plus(h[0], x.a);
    h[1] := Plus(h[1], x.b);
    h[2] := Plus(h[2], x.c);
    h[3] := Plus(h[3], x.d);
    h[4] := Plus(h[4], x.e);
    h[5] := Plus(h[5], x.f);
    h[6] := Plus(h[6], x.g);
    h[7] := Plus(h[7], x.h);
    SumsAre(h, before, x);
  }

  lemma HeldAre(h: array<word>, r: Regs)
    requires h.Length == 8 && h[..] == Words(r)
    ensures h[0] == r.a && h[1] == r.b && h[2] == r.c && h[3] == r.d
    ensures h[4] == r.e && h[5] == r.f && h[6] == r.g && h[7] == r.h
  {
    assert h[..][0] == r.a && h[..][1] == r.b && h[..][2] == r.c && h[..][3] == r.d;
    assert h[..][4] == r.e && h[..][5] == r.f && h[..][6] == r.g && h[..][7] == r.h;
  }

  lemma SumsAre(h: array<word>, r: Regs, x: Regs)
    requires h.Length == 8
    requires h[0] == Plus(r.a, x.a) && h[1] == Plus(r.b, x.b) && h[2] == Plus(r.c, x.c) && h[3] == Plus(r.d, x.d)
    requires h[4] == Plus(r.e, x.e) && h[5] == Plus(r.f, x.f) && h[6] == Plus(r.g, x.g) && h[7] == Plus(r.h, x.h)
    ensures h[..] == Words(AddRegs(r, x))
  {
    hide Plus;
  }

  /** The hasher: pad, then for each 64-byte block fill the schedule, compress and add in place. */
  method Hash(message: Str) returns (digest: Str)
    ensures digest == Digest(message)
  {
    hide INITIAL;
    hide Pad;
    hide W;
    hide Rounds;
    hide AddRegs;
    hide Words;
    hide WordBytes;
    var padded := PadInPlace(message);
    var h := new word[8](i requires 0 <= i < 8 => Words(INITIAL)[i]);
    assert h[..] == Words(INITIAL);
    var n := 0;
    while n < |padded| / 64
      invariant 0 <= n <= |padded| / 64
      invariant h[..] == Words(HashBlocks(padded, n))
    {
      var w := new word[64];
      FillSchedule(padded, 64 * n, w);
      ghost var before := HashBlocks(padded, n);
      var regs := Load(h, before);
      var x := Compress(regs, padded, 64 * n, w);
      AddInPlace(h, before, x);
      n := n + 1;
    }
    digest := [];
    var i := 0;
    while i < 8
      invariant 0 <= i <= 8
      invariant h[..] == Words(HashBlocks(padded, |padded| / 64))
      invariant digest == WordsBytes(h[..], i)
    {
      digest := digest + WordBytes(h[i]);
      i := i + 1;
    }
  }

  /** The eight words of the hash array as working variables. */
  method Load(h: array<word>, ghost held: Regs) returns (r: Regs)
    requires h.Length == 8 && h[..] == Words(held)
    ensures r == held
  {
    HeldAre(h, held);
    r := Regs(h[0], h[1], h[2], h[3], h[4], h[5], h[6], h[7]);
  }

  // ---- Block by block ----

  lemma {:induction false} ScheduleOfBlock(s: Str, at: nat, t: nat)
    requires at + 64 <= |s| && t < 64
    ensures W(s, at, t) == W(s[at..at + 64], 0, t)
  {
    hide WordAt;
    if t < 16 {
      WordOfBlock(s, at, 4 * t);
    } else {
      ScheduleOfBlock(s, at, t - 2);
      ScheduleOfBlock(s, at, t - 7);
      ScheduleOfBlock(s, at, t - 15);
      ScheduleOfBlock(s, at, t - 16);
      hide NextWord;
    }
  }

  lemma WordOfBlock(s: Str, at: nat, j: nat)
    requires at + 64 <= |s| && j + 4 <= 64
    ensures WordAt(s, at + j) == WordAt(s[at..at + 64], j)
  {
    hide FromBytes;
    hide OfByte;
  }

  lemma {:induction false} RoundsOfBlock(r: Regs, s: Str, at: nat, t: nat)
    requires at + 64 <= |s| && t <= 64
    ensures Rounds(r, s, at, t) == Rounds(r, s[at..at + 64], 0, t)
  {
    if t > 0 {
      RoundsOfBlock(r, s, at, t - 1);
      ScheduleOfBlock(s, at, t - 1);
      hide Round;
      hide K;
      hide W;
    }
  }

  /** The hash of `n` blocks is that of the first `n - 1` with the `n`-th block alone run through the rounds from it and
      added. */
  lemma BlockByBlock(s: Str, n: nat)
    requires 0 < n && 64 * n <= |s|
    ensures var before, block := HashBlocks(s, n - 1), s[64 * (n - 1)..64 * n];
            HashBlocks(s, n) == AddRegs(before, Rounds(before, block, 0, 64))
  {
    hide *;
    RoundsOfBlock(HashBlocks(s, n - 1), s, 64 * (n - 1), 64);
    OneMoreBlock(s, n);
  }

  lemma OneMoreBlock(s: Str, n: nat)
    requires 0 < n && 64 * n <= |s|
    ensures HashBlocks(s, n) == AddRegs(HashBlocks(s, n - 1), Rounds(HashBlocks(s, n - 1), s, 64 * (n - 1), 64))
  {
    hide Rounds;
    hide AddRegs;
  }

  // ---- Padding loses nothing ----

  lemma PadParts(m: Str)
    ensures |Pad(m)| >= |m| + 9 && Pad(m)[..|m|] == m
    ensures Pad(m)[|Pad(m)| - 8..] == BigEndian(BitLength(m), 8)
  {
    hide BigEndian;
    var tail := BigEndian(BitLength(m), 8);
    var front := m + [0x80] + Zeros(ZeroCount(|m|));
    assert Pad(m) == front + tail;
    assert front[..|m|] == m;
  }

  /** Two messages short enough for the standard have equal paddings only if they are equal. */
  lemma PadInjective(m: Str, n: Str)
    requires 8 * |m| < TWO_64 && 8 * |n| < TWO_64
    requires Pad(m) == Pad(n)
    ensures m == n
  {
    hide *;
    PadParts(m);
    PadParts(n);
    Pow256Of8();
    BigEndianInjective(BitLength(m), BitLength(n), 8);
  }
}
