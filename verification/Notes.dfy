/** The guardian's canonical note form: which texts the sanitizer produces, and that those are exactly
    the texts a guardian will co-sign. */
module Notes {
  import opened Bytes

  const MAX_NOTE_BYTES: nat := 512

  // ---- Characters ----

  /** The C0 and C1 controls. */
  predicate Control(c: char) {
    var n := c as int;
    n < 0x20 || 0x7F <= n < 0xA0
  }

  /** The line and paragraph separators. */
  predicate Separator(c: char) {
    c as int == 0x2028 || c as int == 0x2029
  }

  /** Unicode white space. */
  predicate White(c: char) {
    var n := c as int;
    || 0x09 <= n <= 0x0D || n == 0x20 || n == 0x85 || n == 0xA0 || n == 0x1680
    || 0x2000 <= n <= 0x200A || n == 0x2028 || n == 0x2029 || n == 0x202F || n == 0x205F || n == 0x3000
  }

  function Utf8Len(s: string): nat {
    if s == [] then 0
    else
      var n := s[0] as int;
      (if n < 0x80 then 1 else if n < 0x800 then 2 else if n < 0x1_0000 then 3 else 4) + Utf8Len(s[1..])
  }

  // ---- The pipeline ----

  function Space(c: char): char { if Control(c) || Separator(c) then ' ' else c }

  function Spaced(s: string): (r: string)
    ensures |r| == |s|
  {
    seq(|s|, i requires 0 <= i < |s| => Space(s[i]))
  }

  /** How many characters before the first white one. */
  function WordLen(s: string): (n: nat)
    ensures n <= |s| && (n < |s| ==> White(s[n])) && forall i :: 0 <= i < n ==> !White(s[i])
  {
    if s == [] || White(s[0]) then 0 else 1 + WordLen(s[1..])
  }

  /** The maximal runs of non-white characters. */
  function Words(s: string): seq<string> {
    if s == [] then []
    else if White(s[0]) then Words(s[1..])
    else [s[..WordLen(s)]] + Words(s[WordLen(s)..])
  }

  function Join(words: seq<string>): string {
    if words == [] then [] else if |words| == 1 then words[0] else words[0] + " " + Join(words[1..])
  }

  function Collapsed(s: string): string { Join(Words(Spaced(s))) }

  function SanitizeNote(raw: string): Option<string> {
    var clean := Collapsed(raw);
    if clean == [] || Utf8Len(clean) > MAX_NOTE_BYTES then None else Some(clean)
  }

  predicate ContentIsClean(content: string) {
    SanitizeNote(content) == Some(content)
  }

  // ---- The canonical texts ----

  /** What separates words: the controls, the line and paragraph separators and the white space of Unicode. */
  predicate Gap(c: char) {
    var n := c as int;
    || n <= 0x20 || 0x7F <= n <= 0xA0 || n == 0x1680 || 0x2000 <= n <= 0x200A || 0x2028 <= n <= 0x2029
    || n == 0x202F || n == 0x205F || n == 0x3000
  }

  /** One line with single plain spaces between words and nothing else white or invisible. */
  ghost predicate Tidy(s: string) {
    && (forall c :: c in s && Gap(c) ==> c == ' ')
    && (s != [] ==> s[0] != ' ' && s[|s| - 1] != ' ')
    && (forall i :: 0 <= i < |s| - 1 && s[i] == ' ' ==> s[i + 1] != ' ')
  }

  ghost predicate Word(w: string) {
    w != [] && forall c :: c in w ==> !Gap(c)
  }

  ghost predicate AllWords(words: seq<string>) {
    forall w :: w in words ==> Word(w)
  }

  /** No control or separator survives the mapping. */
  lemma SpacedIsVisible(s: string)
    ensures forall c :: c in Spaced(s) ==> !Control(c) && !Separator(c)
  {
    var r := Spaced(s);
    forall c | c in r ensures !Control(c) && !Separator(c) {
      var i :| 0 <= i < |r| && r[i] == c;
      assert c == Space(s[i]);
    }
  }

  lemma {:induction false} WordsAreWords(s: string)
    requires forall c :: c in s ==> !Control(c) && !Separator(c)
    ensures AllWords(Words(s))
    decreases |s|
  {
    if s != [] {
      if White(s[0]) {
        WordsAreWords(s[1..]);
      } else {
        var n := WordLen(s);
        WordsAreWords(s[n..]);
        forall c | c in s[..n] ensures !Gap(c) {
          var i :| 0 <= i < n && s[..n][i] == c;
          assert c == s[i] && !White(s[i]) && s[i] in s;
        }
        assert Word(s[..n]);
        hide Word;
      }
    }
  }

  /** Joined words are tidy, and start and end with a word's own characters. */
  lemma {:induction false} JoinIsTidy(words: seq<string>)
    requires AllWords(words)
    ensures Tidy(Join(words)) && (words != [] ==> Join(words) != [])
  {
    if words != [] {
      var w, rest := words[0], words[1..];
      assert Word(w) && w[0] in w && w[|w| - 1] in w;
      assert forall x :: x in rest ==> x in words;
      WordIsTidy(w);
      if rest != [] {
        JoinIsTidy(rest);
        hide Join;
        TidyJoins(w, Join(rest));
      }
    }
  }

  lemma WordIsTidy(w: string)
    requires Word(w)
    ensures Tidy(w)
  {
    assert w[0] in w && w[|w| - 1] in w;
    forall i | 0 <= i < |w| ensures w[i] != ' ' {
      assert w[i] in w;
    }
  }

  lemma TidyJoins(w: string, t: string)
    requires Tidy(w) && Tidy(t) && w != [] && t != []
    ensures Tidy(w + " " + t)
  {
    var s := w + " " + t;
    assert forall i :: |w| < i < |s| ==> s[i] == t[i - |w| - 1];
  }

  lemma {:induction false} TidyIsSpaced(s: string)
    requires Tidy(s)
    ensures Spaced(s) == s
  {
    forall i | 0 <= i < |s| ensures Spaced(s)[i] == s[i] {
      assert s[i] in s;
    }
  }

  lemma TidyTail(s: string, n: nat)
    requires Tidy(s) && n < |s| && s[n] == ' '
    ensures n + 1 < |s| && Tidy(s[n + 1..]) && s[n + 1..] != []
  {
    var t := s[n + 1..];
    assert forall i :: 0 <= i < |t| ==> t[i] == s[n + 1 + i];
    assert forall c :: c in t ==> c in s;
  }

  lemma WordsStep(s: string)
    requires s != [] && !White(s[0]) && WordLen(s) < |s|
    ensures Words(s) == [s[..WordLen(s)]] + Words(s[WordLen(s) + 1..])
  {
    var n := WordLen(s);
    assert s[n..][1..] == s[n + 1..];
  }

  lemma JoinStep(w: string, rest: seq<string>)
    requires rest != []
    ensures Join([w] + rest) == w + " " + Join(rest)
  {
    assert ([w] + rest)[1..] == rest;
  }

  lemma OneWord(s: string)
    requires s != [] && !White(s[0]) && WordLen(s) == |s|
    ensures Words(s) == [s] && Join([s]) == s
  {
    assert s[..|s|] == s && s[|s|..] == [];
    assert Words([]) == [];
  }

  lemma Glue(s: string, n: nat)
    requires n < |s| && s[n] == ' '
    ensures s[..n] + " " + s[n + 1..] == s
  {
  }

  /** The first white character of a tidy text is a plain space, and not the first of all. */
  lemma TidyWord(s: string)
    requires Tidy(s) && s != []
    ensures !White(s[0]) && (WordLen(s) < |s| ==> s[WordLen(s)] == ' ')
  {
    assert s[0] in s;
    assert WordLen(s) < |s| ==> s[WordLen(s)] in s;
  }

  /** A tidy text is what its own words join to. */
  lemma {:induction false} TidyJoinsBack(s: string)
    requires Tidy(s)
    ensures Join(Words(s)) == s && (s != [] ==> Words(s) != [])
    decreases |s|
  {
    if s != [] {
      var n := WordLen(s);
      TidyWord(s);
      if n == |s| {
        OneWord(s);
      } else {
        TidyTail(s, n);
        hide *;
        TidyJoinsBack(s[n + 1..]);
        WordsStep(s);
        JoinStep(s[..n], Words(s[n + 1..]));
        Glue(s, n);
      }
    }
  }

  lemma CollapsedIsTidy(raw: string)
    ensures Tidy(Collapsed(raw))
  {
    SpacedIsVisible(raw);
    WordsAreWords(Spaced(raw));
    JoinIsTidy(Words(Spaced(raw)));
  }

  lemma TidyIsFixed(s: string)
    requires Tidy(s)
    ensures Collapsed(s) == s
  {
    TidyIsSpaced(s);
    TidyJoinsBack(s);
  }

  // ---- What is kept ----

  function Visible(s: string): string {
    if s == [] then [] else if Gap(s[0]) then Visible(s[1..]) else [s[0]] + Visible(s[1..])
  }

  lemma {:induction false} VisibleConcat(s: string, t: string)
    ensures Visible(s + t) == Visible(s) + Visible(t)
  {
    if s == [] {
      assert s + t == t;
    } else {
      assert (s + t)[1..] == s[1..] + t;
      VisibleConcat(s[1..], t);
    }
  }

  /** The words of a text broken at a white character are the words of its two parts. */
  lemma {:induction false} WordsBreak(s: string, c: char, t: string)
    requires White(c)
    ensures Words(s + [c] + t) == Words(s) + Words(t)
    decreases |s|
  {
    var all := s + [c] + t;
    if s == [] {
      assert all[1..] == t;
    } else if White(s[0]) {
      assert all[1..] == s[1..] + [c] + t;
      WordsBreak(s[1..], c, t);
    } else {
      var n := WordLen(s);
      assert n > 0;
      hide White;
      WordLenBreak(s, c, t);
      hide WordLen;
      WordsBreak(s[n..], c, t);
      CutBefore(s, c, t, n);
    }
  }

  lemma CutBefore(s: string, c: char, t: string, n: nat)
    requires n <= |s|
    ensures (s + [c] + t)[..n] == s[..n] && (s + [c] + t)[n..] == s[n..] + [c] + t
  {
  }

  lemma {:induction false} WordLenBreak(s: string, c: char, t: string)
    requires White(c)
    ensures WordLen(s + [c] + t) == WordLen(s)
  {
    if s != [] {
      assert (s + [c] + t)[1..] == s[1..] + [c] + t;
      WordLenBreak(s[1..], c, t);
    }
  }

  lemma {:induction false} JoinConcat(v: seq<string>, w: seq<string>)
    ensures Join(v + w) == if v == [] then Join(w) else if w == [] then Join(v) else Join(v) + " " + Join(w)
  {
    if v == [] {
      assert v + w == w;
    } else if w == [] {
      assert v + w == v;
    } else {
      assert (v + w)[1..] == v[1..] + w;
      JoinConcat(v[1..], w);
      if v[1..] != [] {
        assert Join(v + w) == v[0] + " " + (Join(v[1..]) + " " + Join(w));
      }
    }
  }

  lemma SpacedBreaks(s: string, c: char, t: string)
    ensures Spaced(s + [c] + t) == Spaced(s) + [Space(c)] + Spaced(t)
  {
  }

  lemma CollapsedNone(s: string)
    ensures Collapsed(s) == [] <==> Words(Spaced(s)) == []
  {
    SpacedIsVisible(s);
    WordsAreWords(Spaced(s));
    JoinIsTidy(Words(Spaced(s)));
  }

  /** The two laws that fix the sanitizer: a text without gaps is kept as it is; and a text broken at any gap is its
      two parts, each collapsed, with one space between them if neither is empty. */
  lemma VisibleStays(w: string)
    requires forall c :: c in w ==> !Gap(c)
    ensures Collapsed(w) == w
  {
    if w != [] {
      WordIsTidy(w);
    }
    TidyIsFixed(w);
  }

  lemma GapSplits(s: string, c: char, t: string)
    requires Gap(c)
    ensures Collapsed(s + [c] + t) ==
              if Collapsed(s) == [] then Collapsed(t)
              else if Collapsed(t) == [] then Collapsed(s)
              else Collapsed(s) + " " + Collapsed(t)
  {
    SpacedBreaks(s, c, t);
    WordsBreak(Spaced(s), Space(c), Spaced(t));
    JoinConcat(Words(Spaced(s)), Words(Spaced(t)));
    CollapsedNone(s);
    CollapsedNone(t);
  }

  /** So the visible characters are kept, in order, and only plain spaces are added. */
  lemma {:induction false} VisibleKept(raw: string)
    ensures Visible(Collapsed(raw)) == Visible(raw)
    decreases |raw|
  {
    hide Collapsed;
    if k :| 0 <= k < |raw| && Gap(raw[k]) {
      var s, c, t := raw[..k], raw[k], raw[k + 1..];
      assert raw == s + [c] + t;
      GapSplits(s, c, t);
      VisibleKept(s);
      VisibleKept(t);
      VisibleConcat(s + [c], t);
      VisibleConcat(s, [c]);
      VisibleConcat(Collapsed(s) + " ", Collapsed(t));
      VisibleConcat(Collapsed(s), " ");
    } else {
      VisibleStays(raw);
    }
  }

  // ---- Bytes ----

  /** The bytes of a character in UTF-8 (section 3 of RFC 3629). */
  function Utf8(c: char): (b: seq<int>)
    ensures 1 <= |b| <= 4
  {
    var n := c as int;
    if n < 0x80 then [n]
    else if n < 0x800 then [0xC0 + n / 64, 0x80 + n % 64]
    else if n < 0x1_0000 then [0xE0 + n / 4096, 0x80 + n / 64 % 64, 0x80 + n % 64]
    else [0xF0 + n / 262144, 0x80 + n / 4096 % 64, 0x80 + n / 64 % 64, 0x80 + n % 64]
  }

  /** These are the sequences section 4 of RFC 3629 allows, and they carry the code point. */
  lemma Utf8IsWellFormed(c: char)
    ensures var b := Utf8(c);
            && (|b| == 1 ==> 0 <= b[0] <= 0x7F && c as int == b[0])
            && (|b| == 2 ==> 0xC2 <= b[0] <= 0xDF && c as int == (b[0] - 0xC0) * 64 + (b[1] - 0x80))
            && (|b| == 3 ==> 0xE0 <= b[0] <= 0xEF && (b[0] == 0xE0 ==> 0xA0 <= b[1])
                             && c as int == (b[0] - 0xE0) * 4096 + (b[1] - 0x80) * 64 + (b[2] - 0x80))
            && (|b| == 4 ==> 0xF0 <= b[0] <= 0xF4 && (b[0] == 0xF0 ==> 0x90 <= b[1])
                             && c as int == (b[0] - 0xF0) * 262144 + (b[1] - 0x80) * 4096
                                            + (b[2] - 0x80) * 64 + (b[3] - 0x80))
            && (forall i :: 1 <= i < |b| ==> 0x80 <= b[i] <= 0xBF)
  {
    var n := c as int;
    assert n == n / 64 * 64 + n % 64;
    assert n / 64 == n / 4096 * 64 + n / 64 % 64;
    assert n / 4096 == n / 262144 * 64 + n / 4096 % 64;
  }

  function Utf8Bytes(s: string): seq<int> {
    if s == [] then [] else Utf8(s[0]) + Utf8Bytes(s[1..])
  }

  lemma {:induction false} Utf8LenIs(s: string)
    ensures Utf8Len(s) == |Utf8Bytes(s)|
  {
    if s != [] {
      Utf8LenIs(s[1..]);
    }
  }

  // ---- Main results ----

  /** Sanitizing a sanitized note changes nothing. */
  lemma SanitizeIdempotent(raw: string)
    requires SanitizeNote(raw).Some?
    ensures SanitizeNote(SanitizeNote(raw).value) == SanitizeNote(raw)
  {
    CollapsedIsTidy(raw);
    TidyIsFixed(Collapsed(raw));
  }

  /** A guardian co-signs exactly the sanitizer's range, which is exactly the non-empty tidy texts of at
      most 512 bytes. */
  lemma CleanIff(content: string)
    ensures ContentIsClean(content) <==> exists raw :: SanitizeNote(raw) == Some(content)
    ensures ContentIsClean(content) <==> content != [] && Tidy(content) && |Utf8Bytes(content)| <= 512
  {
    Utf8LenIs(content);
    hide Utf8Bytes;
    hide Utf8Len;
    CollapsedIsTidy(content);
    if Tidy(content) {
      TidyIsFixed(content);
    }
    hide Collapsed;
    forall raw | SanitizeNote(raw) == Some(content) ensures ContentIsClean(content) {
      CollapsedIsTidy(raw);
      TidyIsFixed(Collapsed(raw));
    }
  }
}
