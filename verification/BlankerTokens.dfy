/** Where the tokens of the blanker end, in terms of the text alone: nested comments by the balance of their markers,
    strings by the first quote that no backslash escapes, raw strings by their hashes. */
module BlankerTokens {
  import opened Bytes
  import opened Blanker

  // ---- Block comments ----

  /** The scan of a comment from `j`, which takes a marker as one piece and anything else a character at a time,
      comes to `k` having met `opens` openers and `closes` closers. */
  predicate Comes(text: string, j: nat, k: nat, opens: nat, closes: nat)
    decreases k - j
  {
    if k <= j then k == j && opens == 0 && closes == 0
    else if Two(text, j, '/', '*') then opens > 0 && j + 2 <= k && Comes(text, j + 2, k, opens - 1, closes)
    else if Two(text, j, '*', '/') then closes > 0 && j + 2 <= k && Comes(text, j + 2, k, opens, closes - 1)
    else Comes(text, j + 1, k, opens, closes)
  }

  /** The comment open at `depth` is balanced at `k`, and nowhere before. */
  ghost predicate Balanced(text: string, j: nat, depth: nat, k: nat) {
    && (exists o: nat, c: nat :: Comes(text, j, k, o, c) && c == depth + o)
    && OpenUpTo(text, j, depth, k)
  }

  /** At every place before `k` that the scan comes to, some comment is still open. */
  ghost predicate OpenUpTo(text: string, j: nat, depth: nat, k: nat) {
    forall i: nat, o: nat, c: nat :: i < k && Comes(text, j, i, o, c) ==> c < depth + o
  }

  /** From a piece of `width` on. */
  lemma ComesOn(text: string, j: nat, k: nat, o: nat, c: nat)
    requires j < k
    ensures Comes(text, j, k, o, c) <==>
            if Two(text, j, '/', '*') then o > 0 && j + 2 <= k && Comes(text, j + 2, k, o - 1, c)
            else if Two(text, j, '*', '/') then c > 0 && j + 2 <= k && Comes(text, j + 2, k, o, c - 1)
            else Comes(text, j + 1, k, o, c)
  {
  }

  /** A block comment ends just past the closer that balances it, comments nesting, or else at the end of the text. */
  lemma {:induction false} BlockEndBalances(text: string, j: nat, depth: nat)
    requires j <= |text| && depth >= 1
    ensures var e := BlockEnd(text, j, depth);
            Balanced(text, j, depth, e) || (e == |text| && OpenUpTo(text, j, depth, |text| + 1))
    decreases |text| - j
  {
    var e := BlockEnd(text, j, depth);
    if j == |text| {
      StaysAt(text, j);
      forall i: nat, o: nat, c: nat | i < |text| + 1 && Comes(text, j, i, o, c) ensures c < depth + o {
        NeverBack(text, j, i, o, c);
      }
    } else if Two(text, j, '/', '*') {
      BlockEndBalances(text, j + 2, depth + 1);
      PieceBefore(text, j, depth, e, 2, 1, 0);
    } else if Two(text, j, '*', '/') {
      if depth == 1 {
        assert Comes(text, j + 2, j + 2, 0, 0);
        assert Comes(text, j, j + 2, 0, 1);
        forall i: nat, o: nat, c: nat | i < j + 2 && Comes(text, j, i, o, c) ensures c < 1 + o {
          NeverBack(text, j, i, o, c);
        }
      } else {
        BlockEndBalances(text, j + 2, depth - 1);
        PieceBefore(text, j, depth, e, 2, 0, 1);
      }
    } else {
      BlockEndBalances(text, j + 1, depth);
      PieceBefore(text, j, depth, e, 1, 0, 0);
    }
  }

  lemma StaysAt(text: string, j: nat)
    ensures Comes(text, j, j, 0, 0)
  {
  }

  /** The scan never comes back, and stands still only with nothing met. */
  lemma NeverBack(text: string, j: nat, i: nat, o: nat, c: nat)
    requires Comes(text, j, i, o, c)
    ensures j <= i && (i == j ==> o == 0 && c == 0)
  {
  }

  /** What holds from behind the first piece holds from before it. */
  lemma PieceBefore(text: string, j: nat, depth: nat, e: nat, width: nat, opener: nat, closer: nat)
    requires depth >= 1 && depth + opener - closer >= 1 && j + width <= e
    requires if Two(text, j, '/', '*') then width == 2 && opener == 1 && closer == 0
             else if Two(text, j, '*', '/') then width == 2 && opener == 0 && closer == 1
             else width == 1 && opener == 0 && closer == 0
    ensures Balanced(text, j + width, depth + opener - closer, e) ==> Balanced(text, j, depth, e)
    ensures forall k: nat :: OpenUpTo(text, j + width, depth + opener - closer, k) ==> OpenUpTo(text, j, depth, k)
  {
    forall k: nat | OpenUpTo(text, j + width, depth + opener - closer, k) ensures OpenUpTo(text, j, depth, k) {
      forall i: nat, o: nat, c: nat | i < k && Comes(text, j, i, o, c) ensures c < depth + o {
        NeverBack(text, j, i, o, c);
        if i > j {
          ComesOn(text, j, i, o, c);
          assert Comes(text, j + width, i, o - opener, c - closer);
        }
      }
    }
    if Balanced(text, j + width, depth + opener - closer, e) {
      var o: nat, c: nat :| Comes(text, j + width, e, o, c) && c == depth + opener - closer + o;
      ComesOn(text, j, e, o + opener, c + closer);
      assert Comes(text, j, e, o + opener, c + closer);
    }
  }

  // ---- Strings ----

  /** The number of backslashes that end at `k`, from `j` on. */
  function Backslashes(text: string, j: nat, k: nat): nat
    requires k <= |text|
  {
    if j < k && text[k - 1] == '\\' then 1 + Backslashes(text, j, k - 1) else 0
  }

  /** A quote at `k` closes the string whose body starts at `j`: an even number of backslashes stand before it. */
  predicate Closes(text: string, j: nat, k: nat) {
    At(text, k, '"') && Backslashes(text, j, k) % 2 == 0
  }

  /** A string ends just past its first quote that is not escaped; without one it runs to the end of the text, and one
      past it when the last backslash has nothing to escape. */
  lemma StringEndIs(text: string, j: nat)
    requires j <= |text|
    ensures var e := StringEnd(text, j);
            if e <= |text| && e > j && Closes(text, j, e - 1)
            then forall k :: j <= k < e - 1 ==> !Closes(text, j, k)
            else && (forall k :: j <= k < |text| ==> !Closes(text, j, k))
                 && e == |text| + Backslashes(text, j, |text|) % 2
  {
    StringEndFrom(text, j, j);
  }

  lemma {:induction false} StringEndFrom(text: string, j: nat, i: nat)
    requires j <= i <= |text| && Backslashes(text, j, i) % 2 == 0
    requires forall k :: j <= k < i ==> !Closes(text, j, k)
    ensures var e := StringEnd(text, i);
            if e <= |text| && e > j && Closes(text, j, e - 1)
            then forall k :: j <= k < e - 1 ==> !Closes(text, j, k)
            else && (forall k :: j <= k < |text| ==> !Closes(text, j, k))
                 && e == |text| + Backslashes(text, j, |text|) % 2
    decreases |text| - i
  {
    if i == |text| {
    } else if text[i] == '\\' {
      assert Backslashes(text, j, i + 1) == 1 + Backslashes(text, j, i);
      if i + 1 < |text| {
        assert Backslashes(text, j, i + 2) % 2 == 0;
        StringEndFrom(text, j, i + 2);
      }
    } else if text[i] == '"' {
      assert Closes(text, j, i);
    } else {
      StringEndFrom(text, j, i + 1);
    }
  }

  // ---- Raw strings ----

  /** `text` has at `i` an optional `b`, an `r`, `h` hashes and a quote at `q`. */
  predicate RawAt(text: string, i: nat, q: nat) {
    exists r :: i <= r <= i + 1 && (r == i + 1 ==> At(text, i, 'b')) && At(text, r, 'r') && RawHashes(text, r, q)
  }

  predicate RawHashes(text: string, r: nat, q: nat) {
    r < q && At(text, q, '"') && forall k :: r < k < q ==> At(text, k, '#')
  }

  /** A raw string opens exactly there. */
  lemma RawOpenIs(text: string, i: nat, q: nat)
    requires i < |text|
    ensures RawOpen(text, i) == Some(q) <==> RawAt(text, i, q)
  {
    var r := if text[i] == 'b' then i + 1 else i;
    if At(text, r, 'r') {
      var h := Hashes(text, r + 1);
      if RawOpen(text, i) == Some(q) {
        assert RawHashes(text, r, q);
      }
      if RawHashes(text, r, q) {
        assert q <= r + 1 + h;
        assert q >= r + 1 + h;
      }
    }
  }

  /** A quote at `k` closes the raw string whose opening quote is at `q`: as many hashes follow it as stand between the
      `r` at `r` and that quote. */
  predicate ClosesAfter(text: string, r: nat, q: nat, k: nat)
    requires r < q
  {
    At(text, k, '"') && k + (q - r) <= |text| && forall m :: k < m < k + (q - r) ==> text[m] == '#'
  }

  /** A raw string is one token, which ends just past the hashes of the first quote that closes it, or with the text. */
  lemma RawTokenEnds(text: string, i: nat, r: nat, q: nat)
    requires i < |text| && i <= r <= i + 1 && (r == i + 1 ==> At(text, i, 'b')) && At(text, r, 'r')
    requires RawHashes(text, r, q)
    ensures Next(text, i).Some? && Next(text, i).value.kind == Blanked
    ensures var e := Next(text, i).value.end;
            || (e == |text| && forall k :: q < k < |text| ==> !ClosesAfter(text, r, q, k))
            || (exists k :: q < k && e == k + (q - r) && ClosesAfter(text, r, q, k)
                            && forall m :: q < m < k ==> !ClosesAfter(text, r, q, m))
  {
    hide *;
    OpensWith(text, i, r, q);
    NextIsRaw(text, i, q);
    EndsAtFirst(text, r, q);
  }

  lemma NextIsRaw(text: string, i: nat, q: nat)
    requires i < |text| && RawOpen(text, i) == Some(q)
    ensures q < |text| && (text[i] == 'b' ==> i + 2 <= |text|)
    ensures var h := Hashes(text, if text[i] == 'b' then i + 2 else i + 1);
            Next(text, i) == Some(Token(Blanked, RawEnd(text, q + 1, h)))
  {
    hide Hashes;
    hide RawEnd;
    hide LineEnd;
    hide BlockEnd;
  }

  lemma OpensWith(text: string, i: nat, r: nat, q: nat)
    requires i < |text| && i <= r <= i + 1 && (r == i + 1 ==> At(text, i, 'b')) && At(text, r, 'r')
    requires RawHashes(text, r, q)
    ensures RawOpen(text, i) == Some(q) && Hashes(text, r + 1) == q - r - 1
    ensures r == if text[i] == 'b' then i + 1 else i
  {
    assert RawAt(text, i, q);
    RawOpenIs(text, i, q);
    hide RawOpen;
  }

  lemma SameClosers(text: string, r: nat, q: nat, k: nat)
    requires r < q < k
    ensures ClosesAfter(text, r, q, k) <==> k < |text| && ClosesRaw(text, k, q - r - 1)
  {
  }

  lemma EndsAtFirst(text: string, r: nat, q: nat)
    requires r < q < |text|
    ensures var e := RawEnd(text, q + 1, q - r - 1);
            || (e == |text| && forall k :: q < k < |text| ==> !ClosesAfter(text, r, q, k))
            || (exists k :: q < k && e == k + (q - r) && ClosesAfter(text, r, q, k)
                            && forall m :: q < m < k ==> !ClosesAfter(text, r, q, m))
  {
    hide *;
    var h := q - r - 1;
    forall k | q < k ensures ClosesAfter(text, r, q, k) <==> k < |text| && ClosesRaw(text, k, h) {
      SameClosers(text, r, q, k);
    }
    var e := RawEnd(text, q + 1, h);
    if exists k :: q < k < |text| && ClosesRaw(text, k, h) {
      assert ClosesAfter(text, r, q, e - 1 - h);
    }
  }

  // ---- One text of each kind ----

  lemma AtEnd(text: string)
    ensures BlankFrom(text, |text|) == Some("")
  {
  }

  /** The token `t` at `i` shows as `shown`, before the `rest`. */
  lemma Shows(text: string, i: nat, t: Token, shown: string, rest: string)
    requires i < |text| && Next(text, i) == Some(t) && BlankFrom(text, t.end) == Some(rest)
    requires |shown| == t.end - i && forall n :: 0 <= n < |shown| ==> shown[n] == Show(t.kind, text[i + n])
    ensures BlankFrom(text, i) == Some(shown + rest)
  {
    hide Next;
    assert Render(text, t.kind, i, t.end) == shown;
  }

  lemma LineComment()
    ensures Blank("a//b\nc") == Some("a   \nc")
  {
    hide BlankFrom;
    hide Render;
    var text := "a//b\nc";
    AtEnd(text);
    assert Next(text, 5) == Some(Token(Plain, 6));
    Shows(text, 5, Token(Plain, 6), "c", "");
    assert "c" + "" == "c";
    assert Next(text, 4) == Some(Token(Plain, 5));
    Shows(text, 4, Token(Plain, 5), "\n", "c");
    assert "\n" + "c" == "\nc";
    assert Next(text, 1) == Some(Token(Blanked, 4));
    Shows(text, 1, Token(Blanked, 4), "   ", "\nc");
    assert "   " + "\nc" == "   \nc";
    assert Next(text, 0) == Some(Token(Plain, 1));
    Shows(text, 0, Token(Plain, 1), "a", "   \nc");
    assert "a" + "   \nc" == "a   \nc";
  }

  lemma BlockComment()
    ensures Blank("/*\n/**/*/c") == Some("  \n      c")
  {
    hide BlankFrom;
    hide Render;
    var text := "/*\n/**/*/c";
    AtEnd(text);
    assert Next(text, 9) == Some(Token(Plain, 10));
    Shows(text, 9, Token(Plain, 10), "c", "");
    assert "c" + "" == "c";
    assert Next(text, 0) == Some(Token(Blanked, 9));
    Shows(text, 0, Token(Blanked, 9), "  \n      ", "c");
    assert "  \n      " + "c" == "  \n      c";
  }

  lemma ByteString()
    ensures Blank("b\"\\\"\"c") == Some("     c")
  {
    hide BlankFrom;
    hide Render;
    var text := "b\"\\\"\"c";
    assert StringEnd(text, 2) == StringEnd(text, 4) == 5;
    AtEnd(text);
    assert Next(text, 5) == Some(Token(Plain, 6));
    Shows(text, 5, Token(Plain, 6), "c", "");
    assert "c" + "" == "c";
    assert Next(text, 0) == Some(Token(Blanked, 5));
    Shows(text, 0, Token(Blanked, 5), "     ", "c");
    assert "     " + "c" == "     c";
  }

  lemma PlainString()
    ensures Blank("\"\n\"c") == Some(" \n c")
  {
    hide BlankFrom;
    hide Render;
    var text := "\"\n\"c";
    AtEnd(text);
    assert Next(text, 3) == Some(Token(Plain, 4));
    Shows(text, 3, Token(Plain, 4), "c", "");
    assert "c" + "" == "c";
    assert StringEnd(text, 1) == StringEnd(text, 2) == 3;
    assert Next(text, 0) == Some(Token(Blanked, 3));
    Shows(text, 0, Token(Blanked, 3), " \n ", "c");
    assert " \n " + "c" == " \n c";
  }

  lemma RawString()
    ensures Blank("r#\"\"\"#c") == Some("      c")
  {
    hide BlankFrom;
    hide Render;
    var text := "r#\"\"\"#c";
    assert Hashes(text, 2) == 0 && Hashes(text, 1) == 1;
    assert RawOpen(text, 0) == Some(2);
    assert text[4] != '#' && !ClosesRaw(text, 3, 1);
    assert ClosesRaw(text, 4, 1);
    assert RawEnd(text, 3, 1) == RawEnd(text, 4, 1) == 6;
    AtEnd(text);
    assert Next(text, 6) == Some(Token(Plain, 7));
    Shows(text, 6, Token(Plain, 7), "c", "");
    assert "c" + "" == "c";
    assert Next(text, 0) == Some(Token(Blanked, 6));
    Shows(text, 0, Token(Blanked, 6), "      ", "c");
    assert "      " + "c" == "      c";
  }

  lemma ByteRawString()
    ensures Blank("br\"\\\"c") == Some("     c")
  {
    hide BlankFrom;
    hide Render;
    var text := "br\"\\\"c";
    AtEnd(text);
    assert Next(text, 5) == Some(Token(Plain, 6));
    Shows(text, 5, Token(Plain, 6), "c", "");
    assert "c" + "" == "c";
    assert Next(text, 0) == Some(Token(Blanked, 5));
    Shows(text, 0, Token(Blanked, 5), "     ", "c");
    assert "     " + "c" == "     c";
  }

  lemma CharLiterals()
    ensures Blank("'\n''\\n'c") == Some("       c")
  {
    hide BlankFrom;
    hide Render;
    var text := "'\n''\\n'c";
    AtEnd(text);
    assert Next(text, 7) == Some(Token(Plain, 8));
    Shows(text, 7, Token(Plain, 8), "c", "");
    assert "c" + "" == "c";
    assert Next(text, 3) == Some(Token(CharLiteral, 7));
    Shows(text, 3, Token(CharLiteral, 7), "    ", "c");
    assert "    " + "c" == "    c";
    assert Next(text, 0) == Some(Token(CharLiteral, 3));
    Shows(text, 0, Token(CharLiteral, 3), "   ", "    c");
    assert "   " + "    c" == "       c";
  }

  lemma Lifetimes()
    ensures Blank("'ab'c") == Some("'ab'c")
  {
    hide BlankFrom;
    hide Render;
    var text := "'ab'c";
    AtEnd(text);
    assert Next(text, 4) == Some(Token(Plain, 5));
    Shows(text, 4, Token(Plain, 5), "c", "");
    assert "c" + "" == "c";
    assert Next(text, 3) == Some(Token(Plain, 4));
    Shows(text, 3, Token(Plain, 4), "'", "c");
    assert "'" + "c" == "'c";
    assert Next(text, 2) == Some(Token(Plain, 3));
    Shows(text, 2, Token(Plain, 3), "b", "'c");
    assert "b" + "'c" == "b'c";
    assert Next(text, 1) == Some(Token(Plain, 2));
    Shows(text, 1, Token(Plain, 2), "a", "b'c");
    assert "a" + "b'c" == "ab'c";
    assert Next(text, 0) == Some(Token(Plain, 1));
    Shows(text, 0, Token(Plain, 1), "'", "ab'c");
    assert "'" + "ab'c" == "'ab'c";
  }
}
