/** The published digest of "abc" (FIPS 180-4's example): the whole definition run on one block, a round at a time. */
module Sha256Abc {
  import opened Bytes
  import opened Sha256Constants
  import opened Sha256

  const ABC: Str := [0x61, 0x62, 0x63]

  /** The padded message. */
  ghost predicate IsBlock(s: Str) {
    && |s| == 64 && s[0] == 0x61 && s[1] == 0x62 && s[2] == 0x63 && s[3] == 0x80
    && (forall i :: 4 <= i < 63 ==> s[i] == 0) && s[63] == 0x18
  }

  lemma PaddedAbc()
    ensures IsBlock(Pad(ABC))
  {
    assert ZeroCount(3) == 52;
    assert BitLength(ABC) == 24;
    TwentyFour();
    hide BigEndian;
    assert Pad(ABC) == ABC + [0x80] + Zeros(52) + [0, 0, 0, 0, 0, 0, 0, 0x18];
  }

  lemma TwentyFour()
    ensures BigEndian(24, 8) == [0, 0, 0, 0, 0, 0, 0, 0x18]
  {
    NoBytes(7);
    assert BigEndian(24, 8) == BigEndian(0, 7) + [0x18];
    assert seq(7, _ => 0 as byte) + [0x18] == [0, 0, 0, 0, 0, 0, 0, 0x18];
  }

  lemma {:induction false} NoBytes(n: nat)
    ensures BigEndian(0, n) == seq(n, _ => 0 as byte)
  {
    if n > 0 {
      NoBytes(n - 1);
    }
  }

  // ---- The schedule ----

  /** The schedule of the block. */
  function ListedWord(t: nat): word
    requires t < 64
  {
    match t
    case 0 => 0x61626380
    case 1 => 0x00000000
    case 2 => 0x00000000
    case 3 => 0x00000000
    case 4 => 0x00000000
    case 5 => 0x00000000
    case 6 => 0x00000000
    case 7 => 0x00000000
    case 8 => 0x00000000
    case 9 => 0x00000000
    case 10 => 0x00000000
    case 11 => 0x00000000
    case 12 => 0x00000000
    case 13 => 0x00000000
    case 14 => 0x00000000
    case 15 => 0x00000018
    case 16 => 0x61626380
    case 17 => 0x000f0000
    case 18 => 0x7da86405
    case 19 => 0x600003c6
    case 20 => 0x3e9d7b78
    case 21 => 0x0183fc00
    case 22 => 0x12dcbfdb
    case 23 => 0xe2e2c38e
    case 24 => 0xc8215c1a
    case 25 => 0xb73679a2
    case 26 => 0xe5bc3909
    case 27 => 0x32663c5b
    case 28 => 0x9d209d67
    case 29 => 0xec8726cb
    case 30 => 0x702138a4
    case 31 => 0xd3b7973b
    case 32 => 0x93f5997f
    case 33 => 0x3b68ba73
    case 34 => 0xaff4ffc1
    case 35 => 0xf10a5c62
    case 36 => 0x0a8b3996
    case 37 => 0x72af830a
    case 38 => 0x9409e33e
    case 39 => 0x24641522
    case 40 => 0x9f47bf94
    case 41 => 0xf0a64f5a
    case 42 => 0x3e246a79
    case 43 => 0x27333ba3
    case 44 => 0x0c4763f2
    case 45 => 0x840abf27
    case 46 => 0x7a290d5d
    case 47 => 0x065c43da
    case 48 => 0xfb3e89cb
    case 49 => 0xcc7617db
    case 50 => 0xb9e66c34
    case 51 => 0xa9993667
    case 52 => 0x84badedd
    case 53 => 0xc21462bc
    case 54 => 0x1487472c
    case 55 => 0xb20f7a99
    case 56 => 0xef57b9cd
    case 57 => 0xebe6b238
    case 58 => 0x9fe3095e
    case 59 => 0x78bc8d4b
    case 60 => 0xa43fcf15
    case 61 => 0x668b2ff8
    case 62 => 0xeeaba2cc
    case 63 => 0x12b1edeb
  }

  lemma ByteWords()
    ensures OfByte(0x61) == 0x61 && OfByte(0x62) == 0x62 && OfByte(0x63) == 0x63 && OfByte(0x80) == 0x80
    ensures OfByte(0) == 0 && OfByte(0x18) == 0x18
  {
  }

  lemma FirstWords(s: Str, t: nat)
    requires IsBlock(s) && t < 16
    ensures W(s, 0, t) == ListedWord(t)
  {
    ByteWords();
    hide OfByte;
  }

  ghost predicate WordFollows(t: nat)
    requires 16 <= t < 64
  {
    ListedWord(t) == NextWord(ListedWord(t - 2), ListedWord(t - 7), ListedWord(t - 15), ListedWord(t - 16))
  }

  lemma WordsFrom16(t: nat)
    requires 16 <= t < 24
    ensures WordFollows(t)
  {
    match t
    case 16 =>
    case 17 =>
    case 18 =>
    case 19 =>
    case 20 =>
    case 21 =>
    case 22 =>
    case 23 =>
  }

  lemma WordsFrom24(t: nat)
    requires 24 <= t < 32
    ensures WordFollows(t)
  {
    match t
    case 24 =>
    case 25 =>
    case 26 =>
    case 27 =>
    case 28 =>
    case 29 =>
    case 30 =>
    case 31 =>
  }

  lemma WordsFrom32(t: nat)
    requires 32 <= t < 40
    ensures WordFollows(t)
  {
    match t
    case 32 =>
    case 33 =>
    case 34 =>
    case 35 =>
    case 36 =>
    case 37 =>
    case 38 =>
    case 39 =>
  }

  lemma WordsFrom40(t: nat)
    requires 40 <= t < 48
    ensures WordFollows(t)
  {
    match t
    case 40 =>
    case 41 =>
    case 42 =>
    case 43 =>
    case 44 =>
    case 45 =>
    case 46 =>
    case 47 =>
  }

  lemma WordsFrom48(t: nat)
    requires 48 <= t < 56
    ensures WordFollows(t)
  {
    match t
    case 48 =>
    case 49 =>
    case 50 =>
    case 51 =>
    case 52 =>
    case 53 =>
    case 54 =>
    case 55 =>
  }

  lemma WordsFrom56(t: nat)
    requires 56 <= t < 64
    ensures WordFollows(t)
  {
    match t
    case 56 =>
    case 57 =>
    case 58 =>
    case 59 =>
    case 60 =>
    case 61 =>
    case 62 =>
    case 63 =>
  }

  lemma {:induction false} WordsAreListed(s: Str, t: nat)
    requires IsBlock(s) && t < 64
    ensures W(s, 0, t) == ListedWord(t)
  {
    if t < 16 {
      FirstWords(s, t);
    } else {
      WordsAreListed(s, t - 2);
      WordsAreListed(s, t - 7);
      WordsAreListed(s, t - 15);
      WordsAreListed(s, t - 16);
      if t < 24 {
        WordsFrom16(t);
      } else if t < 32 {
        WordsFrom24(t);
      } else if t < 40 {
        WordsFrom32(t);
      } else if t < 48 {
        WordsFrom40(t);
      } else if t < 56 {
        WordsFrom48(t);
      } else {
        WordsFrom56(t);
      }
      hide NextWord;
      hide ListedWord;
    }
  }

  // ---- The rounds ----

  /** The working variables after `t` rounds. */
  function Listed(t: nat): Regs
    requires t <= 64
  {
    match t
    case 0 => Regs(0x6a09e667, 0xbb67ae85, 0x3c6ef372, 0xa54ff53a, 0x510e527f, 0x9b05688c, 0x1f83d9ab, 0x5be0cd19)
    case 1 => Regs(0x5d6aebcd, 0x6a09e667, 0xbb67ae85, 0x3c6ef372, 0xfa2a4622, 0x510e527f, 0x9b05688c, 0x1f83d9ab)
    case 2 => Regs(0x5a6ad9ad, 0x5d6aebcd, 0x6a09e667, 0xbb67ae85, 0x78ce7989, 0xfa2a4622, 0x510e527f, 0x9b05688c)
    case 3 => Regs(0xc8c347a7, 0x5a6ad9ad, 0x5d6aebcd, 0x6a09e667, 0xf92939eb, 0x78ce7989, 0xfa2a4622, 0x510e527f)
    case 4 => Regs(0xd550f666, 0xc8c347a7, 0x5a6ad9ad, 0x5d6aebcd, 0x24e00850, 0xf92939eb, 0x78ce7989, 0xfa2a4622)
    case 5 => Regs(0x04409a6a, 0xd550f666, 0xc8c347a7, 0x5a6ad9ad, 0x43ada245, 0x24e00850, 0xf92939eb, 0x78ce7989)
    case 6 => Regs(0x2b4209f5, 0x04409a6a, 0xd550f666, 0xc8c347a7, 0x714260ad, 0x43ada245, 0x24e00850, 0xf92939eb)
    case 7 => Regs(0xe5030380, 0x2b4209f5, 0x04409a6a, 0xd550f666, 0x9b27a401, 0x714260ad, 0x43ada245, 0x24e00850)
    case 8 => Regs(0x85a07b5f, 0xe5030380, 0x2b4209f5, 0x04409a6a, 0x0c657a79, 0x9b27a401, 0x714260ad, 0x43ada245)
    case 9 => Regs(0x8e04ecb9, 0x85a07b5f, 0xe5030380, 0x2b4209f5, 0x32ca2d8c, 0x0c657a79, 0x9b27a401, 0x714260ad)
    case 10 => Regs(0x8c87346b, 0x8e04ecb9, 0x85a07b5f, 0xe5030380, 0x1cc92596, 0x32ca2d8c, 0x0c657a79, 0x9b27a401)
    case 11 => Regs(0x4798a3f4, 0x8c87346b, 0x8e04ecb9, 0x85a07b5f, 0x436b23e8, 0x1cc92596, 0x32ca2d8c, 0x0c657a79)
    case 12 => Regs(0xf71fc5a9, 0x4798a3f4, 0x8c87346b, 0x8e04ecb9, 0x816fd6e9, 0x436b23e8, 0x1cc92596, 0x32ca2d8c)
    case 13 => Regs(0x87912990, 0xf71fc5a9, 0x4798a3f4, 0x8c87346b, 0x1e578218, 0x816fd6e9, 0x436b23e8, 0x1cc92596)
    case 14 => Regs(0xd932eb16, 0x87912990, 0xf71fc5a9, 0x4798a3f4, 0x745a48de, 0x1e578218, 0x816fd6e9, 0x436b23e8)
    case 15 => Regs(0xc0645fde, 0xd932eb16, 0x87912990, 0xf71fc5a9, 0x0b92f20c, 0x745a48de, 0x1e578218, 0x816fd6e9)
    case 16 => Regs(0xb0fa238e, 0xc0645fde, 0xd932eb16, 0x87912990, 0x07590dcd, 0x0b92f20c, 0x745a48de, 0x1e578218)
    case 17 => Regs(0x21da9a9b, 0xb0fa238e, 0xc0645fde, 0xd932eb16, 0x8034229c, 0x07590dcd, 0x0b92f20c, 0x745a48de)
    case 18 => Regs(0xc2fbd9d1, 0x21da9a9b, 0xb0fa238e, 0xc0645fde, 0x846ee454, 0x8034229c, 0x07590dcd, 0x0b92f20c)
    case 19 => Regs(0xfe777bbf, 0xc2fbd9d1, 0x21da9a9b, 0xb0fa238e, 0xcc899961, 0x846ee454, 0x8034229c, 0x07590dcd)
    case 20 => Regs(0xe1f20c33, 0xfe777bbf, 0xc2fbd9d1, 0x21da9a9b, 0xb0638179, 0xcc899961, 0x846ee454, 0x8034229c)
    case 21 => Regs(0x9dc68b63, 0xe1f20c33, 0xfe777bbf, 0xc2fbd9d1, 0x8ada8930, 0xb0638179, 0xcc899961, 0x846ee454)
    case 22 => Regs(0xc2606d6d, 0x9dc68b63, 0xe1f20c33, 0xfe777bbf, 0xe1257970, 0x8ada8930, 0xb0638179, 0xcc899961)
    case 23 => Regs(0xa7a3623f, 0xc2606d6d, 0x9dc68b63, 0xe1f20c33, 0x49f5114a, 0xe1257970, 0x8ada8930, 0xb0638179)
    case 24 => Regs(0xc5d53d8d, 0xa7a3623f, 0xc2606d6d, 0x9dc68b63, 0xaa47c347, 0x49f5114a, 0xe1257970, 0x8ada8930)
    case 25 => Regs(0x1c2c2838, 0xc5d53d8d, 0xa7a3623f, 0xc2606d6d, 0x2823ef91, 0xaa47c347, 0x49f5114a, 0xe1257970)
    case 26 => Regs(0xcde8037d, 0x1c2c2838, 0xc5d53d8d, 0xa7a3623f, 0x14383d8e, 0x2823ef91, 0xaa47c347, 0x49f5114a)
    case 27 => Regs(0xb62ec4bc, 0xcde8037d, 0x1c2c2838, 0xc5d53d8d, 0xc74c6516, 0x14383d8e, 0x2823ef91, 0xaa47c347)
    case 28 => Regs(0x77d37528, 0xb62ec4bc, 0xcde8037d, 0x1c2c2838, 0xedffbff8, 0xc74c6516, 0x14383d8e, 0x2823ef91)
    case 29 => Regs(0x363482c9, 0x77d37528, 0xb62ec4bc, 0xcde8037d, 0x6112a3b7, 0xedffbff8, 0xc74c6516, 0x14383d8e)
    case 30 => Regs(0xa0060b30, 0x363482c9, 0x77d37528, 0xb62ec4bc, 0xade79437, 0x6112a3b7, 0xedffbff8, 0xc74c6516)
    case 31 => Regs(0xea992a22, 0xa0060b30, 0x363482c9, 0x77d37528, 0x0109ab3a, 0xade79437, 0x6112a3b7, 0xedffbff8)
    case 32 => Regs(0x73b33bf5, 0xea992a22, 0xa0060b30, 0x363482c9, 0xba591112, 0x0109ab3a, 0xade79437, 0x6112a3b7)
    case 33 => Regs(0x98e12507, 0x73b33bf5, 0xea992a22, 0xa0060b30, 0x9cd9f5f6, 0xba591112, 0x0109ab3a, 0xade79437)
    case 34 => Regs(0xfe604df5, 0x98e12507, 0x73b33bf5, 0xea992a22, 0x59249dd3, 0x9cd9f5f6, 0xba591112, 0x0109ab3a)
    case 35 => Regs(0xa9a7738c, 0xfe604df5, 0x98e12507, 0x73b33bf5, 0x085f3833, 0x59249dd3, 0x9cd9f5f6, 0xba591112)
    case 36 => Regs(0x65a0cfe4, 0xa9a7738c, 0xfe604df5, 0x98e12507, 0xf4b002d6, 0x085f3833, 0x59249dd3, 0x9cd9f5f6)
    case 37 => Regs(0x41a65cb1, 0x65a0cfe4, 0xa9a7738c, 0xfe604df5, 0x0772a26b, 0xf4b002d6, 0x085f3833, 0x59249dd3)
    case 38 => Regs(0x34df1604, 0x41a65cb1, 0x65a0cfe4, 0xa9a7738c, 0xa507a53d, 0x0772a26b, 0xf4b002d6, 0x085f3833)
    case 39 => Regs(0x6dc57a8a, 0x34df1604, 0x41a65cb1, 0x65a0cfe4, 0xf0781bc8, 0xa507a53d, 0x0772a26b, 0xf4b002d6)
    case 40 => Regs(0x79ea687a, 0x6dc57a8a, 0x34df1604, 0x41a65cb1, 0x1efbc0a0, 0xf0781bc8, 0xa507a53d, 0x0772a26b)
    case 41 => Regs(0xd6670766, 0x79ea687a, 0x6dc57a8a, 0x34df1604, 0x26352d63, 0x1efbc0a0, 0xf0781bc8, 0xa507a53d)
    case 42 => Regs(0xdf46652f, 0xd6670766, 0x79ea687a, 0x6dc57a8a, 0x838b2711, 0x26352d63, 0x1efbc0a0, 0xf0781bc8)
    case 43 => Regs(0x17aa0dfe, 0xdf46652f, 0xd6670766, 0x79ea687a, 0xdecd4715, 0x838b2711, 0x26352d63, 0x1efbc0a0)
    case 44 => Regs(0x9d4baf93, 0x17aa0dfe, 0xdf46652f, 0xd6670766, 0xfda24c2e, 0xdecd4715, 0x838b2711, 0x26352d63)
    case 45 => Regs(0x26628815, 0x9d4baf93, 0x17aa0dfe, 0xdf46652f, 0xa80f11f0, 0xfda24c2e, 0xdecd4715, 0x838b2711)
    case 46 => Regs(0x72ab4b91, 0x26628815, 0x9d4baf93, 0x17aa0dfe, 0xb7755da1, 0xa80f11f0, 0xfda24c2e, 0xdecd4715)
    case 47 => Regs(0xa14c14b0, 0x72ab4b91, 0x26628815, 0x9d4baf93, 0xd57b94a9, 0xb7755da1, 0xa80f11f0, 0xfda24c2e)
    case 48 => Regs(0x4172328d, 0xa14c14b0, 0x72ab4b91, 0x26628815, 0xfecf0bc6, 0xd57b94a9, 0xb7755da1, 0xa80f11f0)
    case 49 => Regs(0x05757ceb, 0x4172328d, 0xa14c14b0, 0x72ab4b91, 0xbd714038, 0xfecf0bc6, 0xd57b94a9, 0xb7755da1)
    case 50 => Regs(0xf11bfaa8, 0x05757ceb, 0x4172328d, 0xa14c14b0, 0x6e5c390c, 0xbd714038, 0xfecf0bc6, 0xd57b94a9)
    case 51 => Regs(0x7a0508a1, 0xf11bfaa8, 0x05757ceb, 0x4172328d, 0x52f1ccf7, 0x6e5c390c, 0xbd714038, 0xfecf0bc6)
    case 52 => Regs(0x886e7a22, 0x7a0508a1, 0xf11bfaa8, 0x05757ceb, 0x49231c1e, 0x52f1ccf7, 0x6e5c390c, 0xbd714038)
    case 53 => Regs(0x101fd28f, 0x886e7a22, 0x7a0508a1, 0xf11bfaa8, 0x529e7d00, 0x49231c1e, 0x52f1ccf7, 0x6e5c390c)
    case 54 => Regs(0xf5702fdb, 0x101fd28f, 0x886e7a22, 0x7a0508a1, 0x9f4787c3, 0x529e7d00, 0x49231c1e, 0x52f1ccf7)
    case 55 => Regs(0x3ec45cdb, 0xf5702fdb, 0x101fd28f, 0x886e7a22, 0xe50e1b4f, 0x9f4787c3, 0x529e7d00, 0x49231c1e)
    case 56 => Regs(0x38cc9913, 0x3ec45cdb, 0xf5702fdb, 0x101fd28f, 0x54cb266b, 0xe50e1b4f, 0x9f4787c3, 0x529e7d00)
    case 57 => Regs(0xfcd1887b, 0x38cc9913, 0x3ec45cdb, 0xf5702fdb, 0x9b5e906c, 0x54cb266b, 0xe50e1b4f, 0x9f4787c3)
    case 58 => Regs(0xc062d46f, 0xfcd1887b, 0x38cc9913, 0x3ec45cdb, 0x7e44008e, 0x9b5e906c, 0x54cb266b, 0xe50e1b4f)
    case 59 => Regs(0xffb70472, 0xc062d46f, 0xfcd1887b, 0x38cc9913, 0x6d83bfc6, 0x7e44008e, 0x9b5e906c, 0x54cb266b)
    case 60 => Regs(0xb6ae8fff, 0xffb70472, 0xc062d46f, 0xfcd1887b, 0xb21bad3d, 0x6d83bfc6, 0x7e44008e, 0x9b5e906c)
    case 61 => Regs(0xb85e2ce9, 0xb6ae8fff, 0xffb70472, 0xc062d46f, 0x961f4894, 0xb21bad3d, 0x6d83bfc6, 0x7e44008e)
    case 62 => Regs(0x04d24d6c, 0xb85e2ce9, 0xb6ae8fff, 0xffb70472, 0x948d25b6, 0x961f4894, 0xb21bad3d, 0x6d83bfc6)
    case 63 => Regs(0xd39a2165, 0x04d24d6c, 0xb85e2ce9, 0xb6ae8fff, 0xfb121210, 0x948d25b6, 0x961f4894, 0xb21bad3d)
    case 64 => Regs(0x506e3058, 0xd39a2165, 0x04d24d6c, 0xb85e2ce9, 0x5ef50f24, 0xfb121210, 0x948d25b6, 0x961f4894)
  }

  ghost predicate RoundFollows(t: nat)
    requires t < 64
  {
    Listed(t + 1) == Round(Listed(t), K(t), ListedWord(t))
  }

  lemma RoundsFrom0(t: nat)
    requires 0 <= t < 8
    ensures RoundFollows(t)
  {
    match t
    case 0 =>
    case 1 =>
    case 2 =>
    case 3 =>
    case 4 =>
    case 5 =>
    case 6 =>
    case 7 =>
  }

  lemma RoundsFrom8(t: nat)
    requires 8 <= t < 16
    ensures RoundFollows(t)
  {
    match t
    case 8 =>
    case 9 =>
    case 10 =>
    case 11 =>
    case 12 =>
    case 13 =>
    case 14 =>
    case 15 =>
  }

  lemma RoundsFrom16(t: nat)
    requires 16 <= t < 24
    ensures RoundFollows(t)
  {
    match t
    case 16 =>
    case 17 =>
    case 18 =>
    case 19 =>
    case 20 =>
    case 21 =>
    case 22 =>
    case 23 =>
  }

  lemma RoundsFrom24(t: nat)
    requires 24 <= t < 32
    ensures RoundFollows(t)
  {
    match t
    case 24 =>
    case 25 =>
    case 26 =>
    case 27 =>
    case 28 =>
    case 29 =>
    case 30 =>
    case 31 =>
  }

  lemma RoundsFrom32(t: nat)
    requires 32 <= t < 40
    ensures RoundFollows(t)
  {
    match t
    case 32 =>
    case 33 =>
    case 34 =>
    case 35 =>
    case 36 =>
    case 37 =>
    case 38 =>
    case 39 =>
  }

  lemma RoundsFrom40(t: nat)
    requires 40 <= t < 48
    ensures RoundFollows(t)
  {
    match t
    case 40 =>
    case 41 =>
    case 42 =>
    case 43 =>
    case 44 =>
    case 45 =>
    case 46 =>
    case 47 =>
  }

  lemma RoundsFrom48(t: nat)
    requires 48 <= t < 56
    ensures RoundFollows(t)
  {
    match t
    case 48 =>
    case 49 =>
    case 50 =>
    case 51 =>
    case 52 =>
    case 53 =>
    case 54 =>
    case 55 =>
  }

  lemma RoundsFrom56(t: nat)
    requires 56 <= t < 64
    ensures RoundFollows(t)
  {
    match t
    case 56 =>
    case 57 =>
    case 58 =>
    case 59 =>
    case 60 =>
    case 61 =>
    case 62 =>
    case 63 =>
  }

  lemma EachFollows(t: nat)
    requires t < 64
    ensures RoundFollows(t)
  {
    if t < 8 {
      RoundsFrom0(t);
    } else if t < 16 {
      RoundsFrom8(t);
    } else if t < 24 {
      RoundsFrom16(t);
    } else if t < 32 {
      RoundsFrom24(t);
    } else if t < 40 {
      RoundsFrom32(t);
    } else if t < 48 {
      RoundsFrom40(t);
    } else if t < 56 {
      RoundsFrom48(t);
    } else {
      RoundsFrom56(t);
    }
  }

  lemma {:induction false} RoundsAreListed(s: Str, t: nat)
    requires IsBlock(s) && t <= 64
    ensures Rounds(Listed(0), s, 0, t) == Listed(t)
  {
    if t > 0 {
      RoundsAreListed(s, t - 1);
      WordsAreListed(s, t - 1);
      EachFollows(t - 1);
      hide Round;
      hide Listed;
      hide ListedWord;
      hide W;
      hide K;
    }
  }

  // ---- Main result ----

  lemma LastByte(n: nat, m: nat, x: byte, k: nat)
    requires n == m * 256 + x as nat
    ensures BigEndian(n, k + 1) == BigEndian(m, k) + [x]
  {
    assert n / 256 == m && n % 256 == x as nat;
  }

  lemma FourBytes(n: nat, a: byte, b: byte, c: byte, d: byte)
    requires n == ((a as nat * 256 + b as nat) * 256 + c as nat) * 256 + d as nat
    ensures BigEndian(n, 4) == [a, b, c, d]
  {
    hide BigEndian;
    LastByte(n, (a as nat * 256 + b as nat) * 256 + c as nat, d, 3);
    LastByte((a as nat * 256 + b as nat) * 256 + c as nat, a as nat * 256 + b as nat, c, 2);
    LastByte(a as nat * 256 + b as nat, a as nat, b, 1);
    LastByte(a as nat, 0, a, 0);
    NoBytes(0);
  }

  lemma WordBytesAre(w: word, a: byte, b: byte, c: byte, d: byte)
    requires w as nat == ((a as nat * 256 + b as nat) * 256 + c as nat) * 256 + d as nat
    ensures WordBytes(w) == [a, b, c, d]
  {
    FourBytes(w as nat, a, b, c, d);
    hide BigEndian;
  }

  lemma SumOfAbc()
    ensures AddRegs(Listed(0), Listed(64)) == FINAL
  {
  }

  const FINAL: Regs := Regs(0xba7816bf, 0x8f01cfea, 0x414140de, 0x5dae2223,
                            0xb00361a3, 0x96177a9c, 0xb410ff61, 0xf20015ad)

  lemma HashOfAbc()
    ensures HashBlocks(Pad(ABC), 1) == FINAL
  {
    hide *;
    PaddedAbc();
    RoundsAreListed(Pad(ABC), 64);
    SumOfAbc();
    StartsListed(Pad(ABC));
    OneBlock(Pad(ABC));
  }

  lemma StartsListed(s: Str)
    requires IsBlock(s)
    ensures HashBlocks(s, 0) == Listed(0)
  {
  }

  lemma OneBlock(s: Str)
    requires IsBlock(s)
    ensures HashBlocks(s, 1) == AddRegs(HashBlocks(s, 0), Rounds(HashBlocks(s, 0), s, 0, 64))
  {
    hide AddRegs;
    hide Rounds;
  }

  lemma FinalBytes()
    ensures WordsBytes(Words(FINAL), 8) ==
              [0xba, 0x78, 0x16, 0xbf, 0x8f, 0x01, 0xcf, 0xea, 0x41, 0x41, 0x40, 0xde, 0x5d, 0xae, 0x22, 0x23,
               0xb0, 0x03, 0x61, 0xa3, 0x96, 0x17, 0x7a, 0x9c, 0xb4, 0x10, 0xff, 0x61, 0xf2, 0x00, 0x15, 0xad]
  {
    WordBytesAre(0xba7816bf, 0xba, 0x78, 0x16, 0xbf);
    WordBytesAre(0x8f01cfea, 0x8f, 0x01, 0xcf, 0xea);
    WordBytesAre(0x414140de, 0x41, 0x41, 0x40, 0xde);
    WordBytesAre(0x5dae2223, 0x5d, 0xae, 0x22, 0x23);
    WordBytesAre(0xb00361a3, 0xb0, 0x03, 0x61, 0xa3);
    WordBytesAre(0x96177a9c, 0x96, 0x17, 0x7a, 0x9c);
    WordBytesAre(0xb410ff61, 0xb4, 0x10, 0xff, 0x61);
    WordBytesAre(0xf20015ad, 0xf2, 0x00, 0x15, 0xad);
    hide WordBytes;
    var h := Words(FINAL);
    hide FINAL;
    assert WordsBytes(h, 1) == WordsBytes(h, 0) + WordBytes(h[0]);
    assert WordsBytes(h, 2) == WordsBytes(h, 1) + WordBytes(h[1]);
    assert WordsBytes(h, 3) == WordsBytes(h, 2) + WordBytes(h[2]);
    assert WordsBytes(h, 4) == WordsBytes(h, 3) + WordBytes(h[3]);
    assert WordsBytes(h, 5) == WordsBytes(h, 4) + WordBytes(h[4]);
    assert WordsBytes(h, 6) == WordsBytes(h, 5) + WordBytes(h[5]);
    assert WordsBytes(h, 7) == WordsBytes(h, 6) + WordBytes(h[6]);
    assert WordsBytes(h, 8) == WordsBytes(h, 7) + WordBytes(h[7]);
  }

  /** The digest of "abc" is the published one. */
  lemma DigestOfAbc()
    ensures Digest(ABC) ==
              [0xba, 0x78, 0x16, 0xbf, 0x8f, 0x01, 0xcf, 0xea, 0x41, 0x41, 0x40, 0xde, 0x5d, 0xae, 0x22, 0x23,
               0xb0, 0x03, 0x61, 0xa3, 0x96, 0x17, 0x7a, 0x9c, 0xb4, 0x10, 0xff, 0x61, 0xf2, 0x00, 0x15, 0xad]
  {
    hide *;
    HashOfAbc();
    PaddedAbc();
    FinalBytes();
    DigestIsOneBlock();
  }

  lemma DigestIsOneBlock()
    requires IsBlock(Pad(ABC))
    ensures Digest(ABC) == WordsBytes(Words(HashBlocks(Pad(ABC), 1)), 8)
  {
    hide Pad;
    hide HashBlocks;
    hide Words;
    hide WordsBytes;
  }

}