/** The entropy fingerprint: the hex digest of a nonce followed by the generation it was drawn in. */
module Fingerprint {
  import opened Bytes
  import Sha256

  /** The character of a hex digit. */
  function Digit(n: nat): (c: byte)
    requires n < 16
  {
    if n < 10 then (48 + n) as byte else (87 + n) as byte
  }

  function Hex(s: Str): (h: Str)
    ensures |h| == 2 * |s| && |h| % 2 == 0
  {
    if s == [] then []
    else
      var b := s[|s| - 1] as nat;
      Hex(s[..|s| - 1]) + [Digit(b / 16), Digit(b % 16)]
  }

  /** The value of a hex digit character. */
  function Value(c: byte): (n: nat) {
    if 48 <= c < 58 then (c - 48) as nat else if 97 <= c < 103 then (c - 87) as nat else 0
  }

  /** The byte of two digit values. */
  function Pair(hi: nat, lo: nat): byte { ((16 * hi + lo) % 256) as byte }

  /** Reads pairs of hex digits back. */
  function Unhex(h: Str): (s: Str)
    requires |h| % 2 == 0
    decreases |h|
  {
    if h == [] then []
    else
      var n := |h|;
      Unhex(h[..n - 2]) + [Pair(Value(h[n - 2]), Value(h[n - 1]))]
  }

  lemma DigitValue(n: nat)
    requires n < 16
    ensures Value(Digit(n)) == n
  {
  }

  lemma PairValue(b: nat, hi: nat, lo: nat)
    requires b < 256 && hi == b / 16 && lo == b % 16
    ensures Pair(hi, lo) as nat == b
  {
  }

  lemma {:induction false} UnhexSnoc(h: Str, hi: nat, lo: nat)
    requires |h| % 2 == 0 && hi < 16 && lo < 16
    ensures Unhex(h + [Digit(hi), Digit(lo)]) == Unhex(h) + [Pair(hi, lo)]
  {
    hide Pair;
    var more := h + [Digit(hi), Digit(lo)];
    assert more[..|more| - 2] == h && more[|more| - 2] == Digit(hi) && more[|more| - 1] == Digit(lo);
    DigitValue(hi);
    DigitValue(lo);
    hide Digit;
    hide Value;
  }

  /** The last byte is written as two digits. */
  lemma HexSnoc(s: Str) returns (hi: nat, lo: nat)
    requires s != []
    ensures hi < 16 && lo < 16 && Pair(hi, lo) == s[|s| - 1]
    ensures Hex(s) == Hex(s[..|s| - 1]) + [Digit(hi), Digit(lo)]
  {
    var b := s[|s| - 1] as nat;
    hi, lo := b / 16, b % 16;
    PairValue(b, hi, lo);
    hide Pair;
    hide Digit;
  }

  /** Hex text determines the bytes it was written from. */
  lemma {:induction false} HexRoundTrip(s: Str)
    ensures Unhex(Hex(s)) == s
  {
    if s != [] {
      var front := s[..|s| - 1];
      HexRoundTrip(front);
      var hi, lo := HexSnoc(s);
      UnhexSnoc(Hex(front), hi, lo);
      hide *;
      assert s == front + [s[|s| - 1]];
    }
  }

  /** The text the source pushes character by character. */
  method ToHex(bytes: Str) returns (s: Str)
    ensures s == Hex(bytes)
  {
    s := [];
    for i := 0 to |bytes|
      invariant s == Hex(bytes[..i])
    {
      var b := bytes[i] as nat;
      s := s + [Digit(b / 16)];
      s := s + [Digit(b % 16)];
      assert bytes[..i + 1][..i] == bytes[..i];
    }
    assert bytes[..|bytes|] == bytes;
  }

  /** The hashed bytes: the nonce, then the generation as 8 big-endian bytes. */
  function Input(nonce: Str, generation: nat): Str {
    nonce + BigEndian(generation, 8)
  }

  function Derived(nonce: Str, generation: nat): Str {
    Hex(Sha256.Digest(Input(nonce, generation)))
  }

  method Derive(nonce: Str, generation: nat) returns (s: Str)
    requires generation < TWO_64
    ensures s == Derived(nonce, generation)
  {
    hide Sha256.Digest;
    hide Hex;
    hide BigEndian;
    var input := nonce;
    input := input + BigEndian(generation, 8);
    var digest := Sha256.Hash(input);
    s := ToHex(digest);
  }

  /** Nonces of any two lengths: equal inputs only for the same nonce and the same generation. */
  lemma InputInjective(n: Str, g: nat, n': Str, g': nat)
    requires g < TWO_64 && g' < TWO_64
    requires Input(n, g) == Input(n', g')
    ensures n == n' && g == g'
  {
    var s, t := Input(n, g), Input(n', g');
    assert s[..|s| - 8] == n && t[..|t| - 8] == n';
    assert s[|s| - 8..] == BigEndian(g, 8) && t[|t| - 8..] == BigEndian(g', 8);
    Pow256Of8();
    BigEndianInjective(g, g', 8);
  }

  /** Two different derivations that show one fingerprint are a SHA-256 collision: their inputs are two
      different byte strings with one digest. */
  lemma SharedFingerprintIsCollision(n: Str, g: nat, n': Str, g': nat)
    requires g < TWO_64 && g' < TWO_64
    requires (n, g) != (n', g') && Derived(n, g) == Derived(n', g')
    ensures Input(n, g) != Input(n', g') && Sha256.Digest(Input(n, g)) == Sha256.Digest(Input(n', g'))
  {
    hide Sha256.Digest;
    var x, y := Input(n, g), Input(n', g');
    HexRoundTrip(Sha256.Digest(x));
    HexRoundTrip(Sha256.Digest(y));
    hide Hex;
    hide Unhex;
    if x == y {
      InputInjective(n, g, n', g');
    }
    hide Input;
  }
}
