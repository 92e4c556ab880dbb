/** The lint's source blanker: comments, strings and character literals replaced by blanks, so that
    brace counting and path matching see structure only. */
module Blanker {
  import opened Bytes

  // ---- Tokens ----

  /** How a token is rendered: verbatim, blanked keeping newlines, or blanked altogether. */
  datatype Kind = Plain | Blanked | CharLiteral

  datatype Token = Token(kind: Kind, end: nat)

  predicate At(text: string, i: nat, c: char) {
    i < |text| && text[i] == c
  }

  predicate Two(text: string, i: nat, c: char, d: char) {
    At(text, i, c) && At(text, i + 1, d)
  }

  /** The first newline at or after `j`, or the end. */
  function LineEnd(text: string, j: nat): (e: nat)
    requires j <= |text|
    ensures j <= e <= |text| && (e < |text| ==> text[e] == '\n')
    ensures forall k :: j <= k < e ==> text[k] != '\n'
    decreases |text| - j
  {
    if j == |text| || text[j] == '\n' then j else LineEnd(text, j + 1)
  }

  /** Just past the block comment open at nesting `depth`, or the end. Block comments nest. */
  function BlockEnd(text: string, j: nat, depth: nat): (e: nat)
    requires j <= |text|
    ensures j <= e <= |text|
    decreases |text| - j
  {
    if j == |text| then j
    else if Two(text, j, '/', '*') then BlockEnd(text, j + 2, depth + 1)
    else if Two(text, j, '*', '/') then (if depth <= 1 then j + 2 else BlockEnd(text, j + 2, depth - 1))
    else BlockEnd(text, j + 1, depth)
  }

  /** How many `#` start at `j`. */
  function Hashes(text: string, j: nat): (h: nat)
    requires j <= |text|
    ensures j + h <= |text| && !At(text, j + h, '#')
    ensures forall k :: j <= k < j + h ==> text[k] == '#'
    decreases |text| - j
  {
    if At(text, j, '#') then 1 + Hashes(text, j + 1) else 0
  }

  /** Where a raw or byte-raw string literal at `i` has its opening quote, if one starts there. */
  function RawOpen(text: string, i: nat): (q: Option<nat>)
    requires i < |text|
    ensures q.Some? ==> i < q.value < |text| && text[i] != '/' && text[i] != '\'' && text[i] != '"'
  {
    var r := if text[i] == 'b' then i + 1 else i;
    if At(text, r, 'r') then
      var q := r + 1 + Hashes(text, r + 1);
      if At(text, q, '"') then Some(q) else None
    else None
  }

  /** A quote at `j` followed by `h` hashes. */
  predicate ClosesRaw(text: string, j: nat, h: nat) {
    At(text, j, '"') && j + 1 + h <= |text| && forall k :: j < k <= j + h ==> text[k] == '#'
  }

  /** Just past the first quote that closes a raw string with `h` hashes, or the end. */
  function RawEnd(text: string, j: nat, h: nat): (e: nat)
    requires j <= |text|
    ensures j <= e <= |text|
    ensures (exists k :: j <= k < |text| && ClosesRaw(text, k, h)) ==>
              && j + 1 + h <= e && ClosesRaw(text, e - 1 - h, h)
              && forall k :: j <= k < e - 1 - h ==> !ClosesRaw(text, k, h)
    ensures (forall k :: j <= k < |text| ==> !ClosesRaw(text, k, h)) ==> e == |text|
    decreases |text| - j
  {
    if j == |text| then j else if ClosesRaw(text, j, h) then j + 1 + h else RawEnd(text, j + 1, h)
  }

  /** Just past the closing quote of a string whose body starts at `j`; an escape skips two characters,
      which at the very end of the text overshoots it by one. */
  function StringEnd(text: string, j: nat): (e: nat)
    requires j <= |text|
    ensures j <= e <= |text| + 1
    ensures e == |text| + 1 ==> text != "" && text[|text| - 1] == '\\'
    decreases |text| - j
  {
    if j == |text| then j
    else if text[j] == '\\' then (if j + 1 == |text| then j + 2 else StringEnd(text, j + 2))
    else if text[j] == '"' then j + 1
    else StringEnd(text, j + 1)
  }

  function Quote(text: string, j: nat): (q: Option<nat>)
    requires j <= |text|
    ensures q.Some? ==> j <= q.value < |text| && text[q.value] == '\''
    ensures q.None? ==> forall k :: j <= k < |text| ==> text[k] != '\''
    decreases |text| - j
  {
    if j == |text| then None else if text[j] == '\'' then Some(j) else Quote(text, j + 1)
  }

  /** A quote is a character literal or a lifetime. */
  function QuoteToken(text: string, i: nat): (t: Token)
    requires i < |text|
    ensures i < t.end <= |text|
  {
    if At(text, i + 1, '\\') then
      var q := if i + 2 <= |text| then Quote(text, i + 2) else None;
      if q.Some? then Token(CharLiteral, q.value + 1) else Token(Plain, i + 1)
    else if At(text, i + 2, '\'') then Token(CharLiteral, i + 3)
    else Token(Plain, i + 1)
  }

  /** The token at `i`; none when its scan runs past the end of the text. */
  function Next(text: string, i: nat): (t: Option<Token>)
    requires i < |text|
    ensures t.Some? ==> i < t.value.end <= |text|
    ensures t.Some? && t.value.kind == Plain ==> t.value.end == i + 1
  {
    if Two(text, i, '/', '/') then Some(Token(Blanked, LineEnd(text, i + 2)))
    else if Two(text, i, '/', '*') then Some(Token(Blanked, BlockEnd(text, i + 2, 1)))
    else
      var raw := RawOpen(text, i);
      if raw.Some? then
        var h := Hashes(text, if text[i] == 'b' then i + 2 else i + 1);
        Some(Token(Blanked, RawEnd(text, raw.value + 1, h)))
      else if text[i] == '"' || Two(text, i, 'b', '"') then
        var e := StringEnd(text, if text[i] == '"' then i + 1 else i + 2);
        if e <= |text| then Some(Token(Blanked, e)) else None
      else if text[i] == '\'' then Some(QuoteToken(text, i))
      else Some(Token(Plain, i + 1))
  }

  // ---- Rendering ----

  function Show(k: Kind, c: char): char {
    match k
    case Plain => c
    case Blanked => if c == '\n' then '\n' else ' '
    case CharLiteral => ' '
  }

  function Render(text: string, k: Kind, i: nat, j: nat): (s: string)
    requires i <= j <= |text|
    ensures |s| == j - i
  {
    seq(j - i, n requires 0 <= n < j - i => Show(k, text[i + n]))
  }

  /** The blanked text from `i` on; none when the original raises an index error. */
  function BlankFrom(text: string, i: nat): (r: Option<string>)
    requires i <= |text|
    ensures r.Some? ==> |r.value| == |text| - i
    decreases |text| - i
  {
    if i == |text| then Some("")
    else
      var t := Next(text, i);
      if t.None? then None
      else
        var rest := BlankFrom(text, t.value.end);
        if rest.None? then None else Some(Render(text, t.value.kind, i, t.value.end) + rest.value)
  }

  /** The result keeps the length of the text. */
  function Blank(text: string): (r: Option<string>)
    ensures r.Some? ==> |r.value| == |text|
  {
    BlankFrom(text, 0)
  }

  // ---- The scanner ----

  function Join(out: string, rest: Option<string>): Option<string> {
    if rest.None? then None else Some(out + rest.value)
  }

  /** `out` extended by the rendering of one token. */
  lemma JoinToken(text: string, out: string, i: nat)
    requires i < |text| && Next(text, i).Some?
    ensures var t := Next(text, i).value;
            Join(out, BlankFrom(text, i)) == Join(out + Render(text, t.kind, i, t.end), BlankFrom(text, t.end))
  {
    hide Next;
    hide Render;
    var t := Next(text, i).value;
    if BlankFrom(text, t.end).Some? {
      assert out + (Render(text, t.kind, i, t.end) + BlankFrom(text, t.end).value) ==
             out + Render(text, t.kind, i, t.end) + BlankFrom(text, t.end).value;
    }
  }

  lemma RenderSnoc(text: string, k: Kind, i: nat, j: nat)
    requires i <= j < |text|
    ensures Render(text, k, i, j + 1) == Render(text, k, i, j) + [Show(k, text[j])]
  {
  }

  /** Append the rendering of `text[i..j]`, one character at a time. */
  method AppendRange(text: string, out: string, k: Kind, i: nat, j: nat) returns (r: string)
    requires i <= j <= |text|
    ensures r == out + Render(text, k, i, j)
  {
    r := out;
    var n := i;
    while n < j
      invariant i <= n <= j
      invariant r == out + Render(text, k, i, n)
    {
      RenderSnoc(text, k, i, n);
      r := r + [Show(k, text[n])];
      n := n + 1;
    }
  }

  /** A line comment: blank up to the newline. */
  method ScanLine(text: string, start: nat, out: string) returns (i: nat, r: string)
    requires start <= |text|
    ensures i == LineEnd(text, start)
    ensures r == out + Render(text, Blanked, start, i)
  {
    i, r := start, out;
    while i < |text| && text[i] != '\n'
      invariant start <= i <= |text|
      invariant LineEnd(text, i) == LineEnd(text, start)
      invariant r == out + Render(text, Blanked, start, i)
    {
      RenderSnoc(text, Blanked, start, i);
      r := r + " ";
      i := i + 1;
    }
  }

  /** A block comment, already open at depth one: blank up to the matching close, keeping newlines. */
  method ScanBlock(text: string, start: nat, out: string) returns (i: nat, r: string)
    requires start <= |text|
    ensures i == BlockEnd(text, start, 1)
    ensures r == out + Render(text, Blanked, start, i)
  {
    var depth := 1;
    i, r := start, out;
    while i < |text|
      invariant start <= i <= |text| && depth >= 1
      invariant BlockEnd(text, i, depth) == BlockEnd(text, start, 1)
      invariant r == out + Render(text, Blanked, start, i)
    {
      if Two(text, i, '/', '*') {
        RenderSnoc(text, Blanked, start, i);
        RenderSnoc(text, Blanked, start, i + 1);
        depth := depth + 1;
        r := r + " " + " ";
        i := i + 2;
      } else if Two(text, i, '*', '/') {
        RenderSnoc(text, Blanked, start, i);
        RenderSnoc(text, Blanked, start, i + 1);
        depth := depth - 1;
        r := r + " " + " ";
        i := i + 2;
        if depth == 0 {
          break;
        }
      } else {
        RenderSnoc(text, Blanked, start, i);
        r := r + [if text[i] == '\n' then '\n' else ' '];
        i := i + 1;
      }
    }
  }

  /** The end of a normal string whose body starts at `start`. */
  method ScanString(text: string, start: nat) returns (j: nat)
    requires start <= |text|
    ensures j == StringEnd(text, start)
  {
    j := start;
    while j < |text|
      invariant start <= j <= |text| + 1
      invariant if j <= |text| then StringEnd(text, j) == StringEnd(text, start) else StringEnd(text, start) == j
      decreases |text| + 1 - j
    {
      if text[j] == '\\' {
        j := j + 2;
      } else if text[j] == '"' {
        return j + 1;
      } else {
        j := j + 1;
      }
    }
  }

  /** The end of a raw string with `h` hashes whose body starts at `start`. */
  method FindRawClose(text: string, start: nat, h: nat) returns (j: nat)
    requires start <= |text|
    ensures j == RawEnd(text, start, h)
  {
    j := start;
    while j < |text|
      invariant start <= j <= |text|
      invariant RawEnd(text, j, h) == RawEnd(text, start, h)
    {
      if ClosesRaw(text, j, h) {
        return j + 1 + h;
      }
      j := j + 1;
    }
  }

  /** Consume the token at `i`; not `ok` is the index error of a string that overshoots the text. */
  method ConsumeToken(text: string, i: nat, out: string) returns (ok: bool, end: nat, grown: string)
    requires i < |text|
    ensures ok == Next(text, i).Some?
    ensures ok ==> end == Next(text, i).value.end && grown == out + Render(text, Next(text, i).value.kind, i, end)
  {
    hide LineEnd;
    hide BlockEnd;
    hide RawEnd;
    hide StringEnd;
    hide Hashes;
    hide Render;
    hide QuoteToken;
    ok, end, grown := true, i, out;
    if Two(text, i, '/', '/') {
      grown := AppendRange(text, out, Blanked, i, i + 2);
      end, grown := ScanLine(text, i + 2, grown);
      RenderSplit(text, out, Blanked, i, i + 2, end);
    } else if Two(text, i, '/', '*') {
      grown := AppendRange(text, out, Blanked, i, i + 2);
      end, grown := ScanBlock(text, i + 2, grown);
      RenderSplit(text, out, Blanked, i, i + 2, end);
    } else if RawOpen(text, i).Some? {
      var h := Hashes(text, if text[i] == 'b' then i + 2 else i + 1);
      end := FindRawClose(text, RawOpen(text, i).value + 1, h);
      grown := AppendRange(text, out, Blanked, i, end);
    } else if text[i] == '"' || Two(text, i, 'b', '"') {
      end := ScanString(text, if text[i] == '"' then i + 1 else i + 2);
      if end > |text| {
        ok := false;
      } else {
        grown := AppendRange(text, out, Blanked, i, end);
      }
    } else if text[i] == '\'' {
      end := QuoteToken(text, i).end;
      grown := AppendRange(text, out, QuoteToken(text, i).kind, i, end);
    } else {
      end := i + 1;
      grown := AppendRange(text, out, Plain, i, end);
    }
  }

  /** One pass over the text by index, a token at a time. `None` is the index error that the original
      raises when a string ends in a dangling backslash. */
  method BlankStringsAndComments(text: string) returns (result: Option<string>)
    ensures result == Blank(text)
  {
    hide Next;
    hide Render;
    var out: string := "";
    var i := 0;
    assert Blank(text).Some? ==> "" + Blank(text).value == Blank(text).value;
    while i < |text|
      invariant 0 <= i <= |text|
      invariant Join(out, BlankFrom(text, i)) == Blank(text)
    {
      var ok, end, grown := ConsumeToken(text, i, out);
      if !ok {
        return None;
      }
      JoinToken(text, out, i);
      i, out := end, grown;
    }
    assert out + "" == out;
    return Some(out);
  }

  lemma RenderSplit(text: string, out: string, k: Kind, i: nat, m: nat, j: nat)
    requires i <= m <= j <= |text|
    ensures out + Render(text, k, i, j) == out + Render(text, k, i, m) + Render(text, k, m, j)
  {
    assert Render(text, k, i, j) == Render(text, k, i, m) + Render(text, k, m, j);
  }

  // ---- What the result is ----

  /** The kind of the token that covers position `k`, scanning from `i`. */
  function KindAt(text: string, i: nat, k: nat): Kind
    requires i <= k < |text| && BlankFrom(text, i).Some?
    decreases |text| - i
  {
    var t := Next(text, i).value;
    if k < t.end then t.kind else KindAt(text, t.end, k)
  }

  /** Every output character is the input character as its token shows it: verbatim outside literals and
      comments, a newline or a blank inside strings and comments, a blank inside character literals. */
  lemma {:induction false} EachCharacter(text: string, i: nat, k: nat)
    requires i <= k < |text| && BlankFrom(text, i).Some?
    ensures BlankFrom(text, i).value[k - i] == Show(KindAt(text, i, k), text[k])
    ensures KindAt(text, i, k) == Plain ==> Next(text, k) == Some(Token(Plain, k + 1))
    decreases |text| - i
  {
    hide Next;
    var t := Next(text, i).value;
    if k >= t.end {
      EachCharacter(text, t.end, k);
    }
  }

  /** Newlines survive exactly outside character literals, so line numbers stay true there. */
  lemma NewlinesSurvive(text: string, k: nat)
    requires Blank(text).Some? && k < |text|
    ensures Blank(text).value[k] == '\n' <==> text[k] == '\n' && KindAt(text, 0, k) != CharLiteral
  {
    hide BlankFrom;
    EachCharacter(text, 0, k);
  }

  /** A character that survives and is not blank was scanned as plain text. */
  lemma Survivor(text: string, k: nat)
    requires Blank(text).Some? && k < |text|
    ensures var c := Blank(text).value[k];
            c != ' ' && c != '\n' ==> c == text[k] && Next(text, k) == Some(Token(Plain, k + 1))
  {
    hide Next;
    EachCharacter(text, 0, k);
  }

  /** Nothing in the result can open a string or a comment. */
  lemma NothingOpens(text: string, k: nat)
    requires Blank(text).Some? && k < |text|
    ensures var out := Blank(text).value;
            !At(out, k, '"') && !Two(out, k, '/', '/') && !Two(out, k, '/', '*')
  {
    hide BlankFrom;
    Survivor(text, k);
    if k + 1 < |text| {
      Survivor(text, k + 1);
    }
  }

  /** In the result every token is plain: a quote that survived is still a lifetime. */
  lemma ResultIsPlain(text: string, k: nat)
    requires Blank(text).Some? && k < |text|
    ensures Next(Blank(text).value, k) == Some(Token(Plain, k + 1))
  {
    var out := Blank(text).value;
    hide BlankFrom;
    NothingOpens(text, k);
    NoQuotesLeft(text);
    if out[k] == '\'' {
      LifetimeStays(text, k);
    }
  }

  lemma NoQuotesLeft(text: string)
    requires Blank(text).Some?
    ensures '"' !in Blank(text).value
  {
    hide BlankFrom;
    hide Blank;
    forall k | 0 <= k < |text| ensures Blank(text).value[k] != '"' {
      NothingOpens(text, k);
    }
  }

  lemma LifetimeStays(text: string, k: nat)
    requires Blank(text).Some? && k < |text| && Blank(text).value[k] == '\''
    ensures QuoteToken(Blank(text).value, k) == Token(Plain, k + 1)
  {
    hide BlankFrom;
    var out := Blank(text).value;
    Survivor(text, k);
    assert QuoteToken(text, k) == Token(Plain, k + 1);
    if k + 1 < |text| {
      Survivor(text, k + 1);
    }
    if k + 2 < |text| {
      Survivor(text, k + 2);
    }
    if At(out, k + 1, '\\') && Quote(out, k + 2).Some? {
      Survivor(text, Quote(out, k + 2).value);
    }
  }

  lemma {:induction false} PlainTextStays(out: string, i: nat)
    requires i <= |out| && forall k :: i <= k < |out| ==> Next(out, k) == Some(Token(Plain, k + 1))
    ensures BlankFrom(out, i) == Some(out[i..])
    decreases |out| - i
  {
    hide Next;
    if i < |out| {
      PlainTextStays(out, i + 1);
      RenderSnoc(out, Plain, i, i);
      assert Render(out, Plain, i, i + 1) == [out[i]];
      assert out[i..] == [out[i]] + out[i + 1..];
    }
  }

  /** Blanking twice is blanking once. */
  lemma Idempotent(text: string)
    requires Blank(text).Some?
    ensures Blank(Blank(text).value) == Blank(text)
  {
    hide Next;
    var out := Blank(text).value;
    forall k | 0 <= k < |out| ensures Next(out, k) == Some(Token(Plain, k + 1)) {
      ResultIsPlain(text, k);
    }
    PlainTextStays(out, 0);
  }

  /** The scan from `i` comes to a token start at `k`. */
  predicate StartsToken(text: string, i: nat, k: nat)
    requires i <= |text|
    decreases |text| - i
  {
    i == k || (i < |text| && Next(text, i).Some? && StartsToken(text, Next(text, i).value.end, k))
  }

  /** A normal string opens at `k` and its last escape has nothing to escape. */
  predicate DanglingString(text: string, k: nat) {
    && k < |text| && !Two(text, k, '/', '/') && !Two(text, k, '/', '*') && RawOpen(text, k).None?
    && (text[k] == '"' || Two(text, k, 'b', '"'))
    && StringEnd(text, if text[k] == '"' then k + 1 else k + 2) == |text| + 1
  }

  /** The scan fails exactly when it comes to a string that runs to a dangling backslash. */
  lemma {:induction false} FailsIff(text: string, i: nat)
    requires i <= |text|
    ensures BlankFrom(text, i).None? <==> exists k: nat :: StartsToken(text, i, k) && DanglingString(text, k)
    decreases |text| - i
  {
    hide StringEnd;
    if i < |text| {
      var t := Next(text, i);
      assert t.None? <==> DanglingString(text, i);
      if t.Some? {
        FailsIff(text, t.value.end);
        hide Next;
        hide DanglingString;
        forall k: nat ensures StartsToken(text, i, k) <==> k == i || StartsToken(text, t.value.end, k) {
        }
      } else {
        assert StartsToken(text, i, i);
      }
    }
  }

  /** So a text that does not end in a backslash, one that ends in a newline say, never fails. */
  lemma FailsOnlyDangling(text: string)
    requires Blank(text).None?
    ensures text != "" && text[|text| - 1] == '\\'
  {
    FailsIff(text, 0);
    var k: nat :| StartsToken(text, 0, k) && DanglingString(text, k);
  }
}
