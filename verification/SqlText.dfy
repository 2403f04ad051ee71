/** CREATE statements compared with whitespace collapsed outside quoted text. */
module SqlText {
  import opened Wrappers
  import opened Chars

  const BACKTICK := '`'

  predicate OpensQuote(c: char) {
    c == '\'' || c == '"' || c == BACKTICK || c == '['
  }

  function Closing(c: char): char {
    if c == '[' then ']' else c
  }

  predicate IsPlain(c: char) {
    !IsSpace(c) && !OpensQuote(c)
  }

  // ------------------------------------------------------------ character by character

  /** What is still to be written for a text, inside a quote or out of it. */
  function Collapsed(text: string, quote: Option<char>, space: bool, begun: bool): string {
    if text == "" then ""
    else
      var c, rest := text[0], text[1..];
      if quote.Some? then
        [c] + Collapsed(rest, if c == quote.value then None else quote, space, true)
      else if OpensQuote(c) then [c] + Collapsed(rest, Some(Closing(c)), false, true)
      else if IsSpace(c) then Collapsed(rest, None, true, begun)
      else (if space && begun then " " else "") + [c] + Collapsed(rest, None, false, true)
  }

  function Normalised(text: string): string {
    Collapsed(text, None, false, false)
  }

  lemma NextCollapsed(text: string, i: nat, quote: Option<char>, space: bool, begun: bool)
    requires i < |text|
    ensures var c, rest := text[i], text[i + 1..];
            Collapsed(text[i..], quote, space, begun)
            == if quote.Some? then [c] + Collapsed(rest, if c == quote.value then None else quote, space, true)
               else if OpensQuote(c) then [c] + Collapsed(rest, Some(Closing(c)), false, true)
               else if IsSpace(c) then Collapsed(rest, None, true, begun)
               else (if space && begun then " " else "") + [c] + Collapsed(rest, None, false, true)
  {
    hide IsSpace;
    assert text[i..][0] == text[i] && text[i..][1..] == text[i + 1..];
  }

  method Normalise(text: string) returns (out: string)
    ensures out == Normalised(text)
  {
    hide Collapsed, IsSpace, Closing;
    out := "";
    var quote: Option<char> := None;
    var space := false;
    var i := 0;
    assert text[0..] == text;
    while i < |text|
      invariant 0 <= i <= |text|
      invariant out + Collapsed(text[i..], quote, space, out != "") == Normalised(text)
    {
      var c := text[i];
      NextCollapsed(text, i, quote, space, out != "");
      if quote.Some? {
        out := out + [c];
        if c == quote.value { quote := None; }
      } else if OpensQuote(c) {
        quote := Some(Closing(c));
        out := out + [c];
        space := false;
      } else if IsSpace(c) {
        space := true;
      } else {
        if space && out != "" { out := out + " "; }
        space := false;
        out := out + [c];
      }
      i := i + 1;
    }
    NothingCollapsed(text[i..], quote, space, out != "");
  }

  lemma NothingCollapsed(text: string, quote: Option<char>, space: bool, begun: bool)
    requires text == ""
    ensures Collapsed(text, quote, space, begun) == ""
  {
  }

  // ------------------------------------------------------------ piece by piece

  /** A quoted segment as it stands, its delimiters with it; or a word, and whether blank text
      separated it from what is before it. */
  datatype Piece = Quoted(text: string) | Word(apart: bool, text: string)

  /** How much of a text belongs to the quote that is open in it. */
  function QuoteEnd(text: string, close: char): (n: nat)
    ensures n <= |text|
  {
    if text == "" then 0 else if text[0] == close then 1 else 1 + QuoteEnd(text[1..], close)
  }

  function WordEnd(text: string): (n: nat)
    ensures n <= |text|
  {
    if text == "" || !IsPlain(text[0]) then 0 else 1 + WordEnd(text[1..])
  }

  function PiecesOf(text: string, apart: bool, begun: bool): seq<Piece>
    decreases |text|
  {
    if text == "" then []
    else if IsSpace(text[0]) && !OpensQuote(text[0]) then PiecesOf(text[1..], true, begun)
    else if OpensQuote(text[0]) then
      var n := 1 + QuoteEnd(text[1..], Closing(text[0]));
      [Quoted(text[..n])] + PiecesOf(text[n..], false, true)
    else
      var n := WordEnd(text);
      assert n > 0;
      [Word(apart && begun, text[..n])] + PiecesOf(text[n..], false, true)
  }

  function Pieces(text: string): seq<Piece> {
    PiecesOf(text, false, false)
  }

  function Print(pieces: seq<Piece>): string {
    if pieces == [] then ""
    else
      (match pieces[0]
       case Quoted(text) => text
       case Word(apart, text) => (if apart then " " else "") + text)
      + Print(pieces[1..])
  }

  lemma {:induction false} QuoteIsKept(text: string, close: char)
    ensures var n := QuoteEnd(text, close);
            Collapsed(text, Some(close), false, true) == text[..n] + Collapsed(text[n..], None, false, true)
            || (n == |text| && Collapsed(text, Some(close), false, true) == text)
    decreases |text|
  {
    if text != "" {
      var n := QuoteEnd(text, close);
      if text[0] == close {
        assert text[..1] == [text[0]];
      } else {
        QuoteIsKept(text[1..], close);
        assert text[1..][..n - 1] == text[1..n] && text[1..][n - 1..] == text[n..];
        assert text[..n] == [text[0]] + text[1..n];
      }
    }
  }

  lemma {:induction false} WordIsKept(text: string)
    ensures var n := WordEnd(text);
            Collapsed(text, None, false, true) == text[..n] + Collapsed(text[n..], None, false, true)
    decreases |text|
  {
    hide IsSpace, OpensQuote, Closing;
    if text != "" && IsPlain(text[0]) {
      var n := WordEnd(text);
      WordIsKept(text[1..]);
      hide Collapsed, WordEnd, IsPlain;
      Unfolds(text, false, true);
      assert text[1..][..n - 1] == text[1..n] && text[1..][n - 1..] == text[n..];
      assert text[..n] == [text[0]] + text[1..n];
      Joins("", text[0], text[1..n], Collapsed(text[n..], None, false, true));
    } else {
      assert WordEnd(text) == 0;
    }
  }

  lemma Joins(lead: string, c: char, middle: string, tail: string)
    ensures lead + [c] + (middle + tail) == lead + ([c] + middle) + tail
  {
  }

  lemma Unfolds(text: string, apart: bool, begun: bool)
    requires text != "" && (OpensQuote(text[0]) || IsPlain(text[0]))
    ensures OpensQuote(text[0]) ==>
              Collapsed(text, None, apart, begun)
              == "" + [text[0]] + Collapsed(text[1..], Some(Closing(text[0])), false, true)
    ensures IsPlain(text[0]) ==>
              && Collapsed(text, None, apart, begun)
                 == (if apart && begun then " " else "") + [text[0]] + Collapsed(text[1..], None, false, true)
              && WordEnd(text) == 1 + WordEnd(text[1..])
    ensures Collapsed("", None, false, true) == ""
  {
  }

  /** A quoted segment is written as it stands. */
  lemma QuotePieceIsKept(text: string, apart: bool, begun: bool)
    requires text != "" && OpensQuote(text[0])
    ensures var n := 1 + QuoteEnd(text[1..], Closing(text[0]));
            Collapsed(text, None, apart, begun) == text[..n] + Collapsed(text[n..], None, false, true)
  {
    hide *;
    var rest, close := text[1..], Closing(text[0]);
    var n := 1 + QuoteEnd(rest, close);
    Unfolds(text, apart, begun);
    QuoteIsKept(rest, close);
    assert text[..n] == [text[0]] + text[1..n];
    assert rest[..n - 1] == text[1..n] && rest[n - 1..] == text[n..];
    Joins("", text[0], text[1..n], Collapsed(text[n..], None, false, true));
    if n == |text| {
      assert text[..n] == text && text[n..] == "";
    }
  }

  /** A word is written as it stands, after one blank where it is apart. */
  lemma WordPieceIsKept(text: string, apart: bool, begun: bool)
    requires text != "" && IsPlain(text[0])
    ensures var n := WordEnd(text);
            && 0 < n
            && Collapsed(text, None, apart, begun)
               == (if apart && begun then " " else "") + text[..n] + Collapsed(text[n..], None, false, true)
  {
    hide *;
    var rest, n := text[1..], WordEnd(text);
    Unfolds(text, apart, begun);
    WordIsKept(rest);
    assert text[..n] == [text[0]] + text[1..n];
    assert rest[..n - 1] == text[1..n] && rest[n - 1..] == text[n..];
    Joins(if apart && begun then " " else "", text[0], text[1..n], Collapsed(text[n..], None, false, true));
  }

  /** The character loop writes exactly the pieces. */
  lemma {:induction false} CollapsedIsPrinted(text: string, apart: bool, begun: bool)
    ensures Collapsed(text, None, apart, begun) == Print(PiecesOf(text, apart, begun))
    decreases |text|
  {
    if text == "" {
    } else if OpensQuote(text[0]) {
      hide Collapsed, QuoteEnd;
      QuotePieceIsKept(text, apart, begun);
      var n := 1 + QuoteEnd(text[1..], Closing(text[0]));
      CollapsedIsPrinted(text[n..], false, true);
      PrintsFirst(Quoted(text[..n]), PiecesOf(text[n..], false, true));
    } else if IsSpace(text[0]) {
      CollapsedIsPrinted(text[1..], true, begun);
    } else {
      hide Collapsed, WordEnd;
      WordPieceIsKept(text, apart, begun);
      var n := WordEnd(text);
      CollapsedIsPrinted(text[n..], false, true);
      PrintsFirst(Word(apart && begun, text[..n]), PiecesOf(text[n..], false, true));
    }
  }

  lemma PrintsFirst(piece: Piece, rest: seq<Piece>)
    ensures Print([piece] + rest)
            == (match piece case Quoted(text) => text case Word(apart, text) => (if apart then " " else "") + text)
               + Print(rest)
  {
    assert ([piece] + rest)[1..] == rest;
  }

  // ------------------------------------------------------------ pieces read back

  predicate Holds(text: string, c: char) {
    exists i :: 0 <= i < |text| && text[i] == c
  }

  /** A quoted segment that its closing character ends, and no earlier one. */
  predicate Ended(text: string) {
    && |text| >= 2 && OpensQuote(text[0])
    && text[|text| - 1] == Closing(text[0])
    && !Holds(text[1..|text| - 1], Closing(text[0]))
  }

  /** What a statement's pieces always are: an unended quote is the last piece, words are not empty
      and hold neither blanks nor quotes, two words in a row are apart, the first is not. */
  predicate Canonical(pieces: seq<Piece>, begun: bool, afterWord: bool) {
    pieces == [] ||
    (match pieces[0]
     case Quoted(text) =>
       && text != "" && OpensQuote(text[0])
       && (Ended(text) || (pieces[1..] == [] && !Holds(text[1..], Closing(text[0]))))
       && Canonical(pieces[1..], true, false)
     case Word(apart, text) =>
       && text != "" && (forall i | 0 <= i < |text| :: IsPlain(text[i]))
       && (apart ==> begun) && (afterWord ==> apart)
       && Canonical(pieces[1..], true, true))
  }

  lemma {:induction false} QuoteEndStops(text: string, close: char)
    ensures var n := QuoteEnd(text, close);
            if Holds(text, close)
            then n > 0 && text[n - 1] == close && !Holds(text[..n - 1], close)
            else n == |text|
  {
    if text != "" && text[0] != close {
      var n := QuoteEnd(text, close);
      QuoteEndStops(text[1..], close);
      if Holds(text, close) {
        var i :| 0 <= i < |text| && text[i] == close;
        assert text[1..][i - 1] == close;
        var before := text[..n - 1];
        forall j | 0 <= j < n - 1 ensures before[j] != close {
          if j > 0 { assert text[1..][..n - 2][j - 1] == text[j]; }
        }
      } else {
        forall j | 0 <= j < |text| - 1 ensures text[1..][j] != close {
          assert text[j + 1] != close;
        }
      }
    }
  }

  lemma {:induction false} WordEndStops(text: string)
    ensures var n := WordEnd(text);
            (forall i | 0 <= i < n :: IsPlain(text[i])) && (n < |text| ==> !IsPlain(text[n]))
  {
    if text != "" && IsPlain(text[0]) {
      WordEndStops(text[1..]);
      var n := WordEnd(text);
      forall i | 0 <= i < n ensures IsPlain(text[i]) {
        if i > 0 { assert text[1..][i - 1] == text[i]; }
      }
      if n < |text| { assert text[1..][n - 1] == text[n]; }
    }
  }

  lemma {:induction false} PiecesAreCanonical(text: string, apart: bool, begun: bool, afterWord: bool)
    requires afterWord ==> begun && (apart || text == "" || !IsPlain(text[0]))
    ensures Canonical(PiecesOf(text, apart, begun), begun, afterWord)
    decreases |text|
  {
    if text != "" {
      if OpensQuote(text[0]) {
        var close := Closing(text[0]);
        var n := 1 + QuoteEnd(text[1..], close);
        var first := text[..n];
        QuoteEndStops(text[1..], close);
        PiecesAreCanonical(text[n..], false, true, false);
        if Holds(text[1..], close) {
          assert first[1..|first| - 1] == text[1..][..n - 2];
        } else {
          assert first[1..] == text[1..];
        }
      } else if IsSpace(text[0]) {
        PiecesAreCanonical(text[1..], true, begun, afterWord);
      } else {
        var n := WordEnd(text);
        WordEndStops(text);
        assert n > 0;
        if n < |text| { assert text[n..][0] == text[n]; }
        PiecesAreCanonical(text[n..], false, true, true);
      }
    }
  }

  lemma {:induction false} QuoteReads(inside: string, close: char, rest: string)
    requires !Holds(inside, close)
    ensures QuoteEnd(inside + [close] + rest, close) == |inside| + 1
    ensures QuoteEnd(inside, close) == |inside|
  {
    var text := inside + [close] + rest;
    QuoteEndStops(inside, close);
    if inside == "" {
      assert text[0] == close;
    } else {
      assert inside[0] != close && text[1..] == inside[1..] + [close] + rest;
      forall j | 0 <= j < |inside| - 1 ensures inside[1..][j] != close {
        assert inside[j + 1] != close;
      }
      QuoteReads(inside[1..], close, rest);
    }
  }

  lemma {:induction false} WordReads(word: string, rest: string)
    requires forall i | 0 <= i < |word| :: IsPlain(word[i])
    requires rest == "" || !IsPlain(rest[0])
    ensures WordEnd(word + rest) == |word|
  {
    if word == "" {
      assert word + rest == rest;
    } else {
      assert (word + rest)[1..] == word[1..] + rest;
      forall j | 0 <= j < |word| - 1 ensures IsPlain(word[1..][j]) {
        assert word[1..][j] == word[j + 1];
      }
      WordReads(word[1..], rest);
    }
  }

  lemma QuotedReads(text: string, rest: string, begun: bool)
    requires Ended(text) || (text != "" && OpensQuote(text[0]) && rest == "" && !Holds(text[1..], Closing(text[0])))
    ensures PiecesOf(text + rest, false, begun) == [Quoted(text)] + PiecesOf(rest, false, true)
  {
    var close := Closing(text[0]);
    var whole := text + rest;
    if Ended(text) {
      var inside := text[1..|text| - 1];
      assert whole[1..] == inside + [close] + rest;
      QuoteReads(inside, close, rest);
    } else {
      assert whole == text;
      QuoteReads(text[1..], close, rest);
    }
    assert whole[..|text|] == text && whole[|text|..] == rest;
  }

  lemma WordPieceReads(apart: bool, word: string, rest: string, begun: bool)
    requires word != "" && (forall i | 0 <= i < |word| :: IsPlain(word[i]))
    requires rest == "" || !IsPlain(rest[0])
    requires apart ==> begun
    ensures PiecesOf((if apart then " " else "") + word + rest, false, begun)
            == [Word(apart, word)] + PiecesOf(rest, false, true)
  {
    var text := word + rest;
    WordReads(word, rest);
    assert text[..|word|] == word && text[|word|..] == rest;
    assert IsPlain(text[0]);
    assert PiecesOf(text, apart, begun) == [Word(apart && begun, word)] + PiecesOf(rest, false, true);
    if apart {
      assert (" " + word + rest)[0] == ' ' && (" " + word + rest)[1..] == text;
    } else {
      assert "" + word + rest == text;
    }
  }

  /** Printed pieces read back as themselves. */
  lemma {:induction false} PrintedReads(pieces: seq<Piece>, begun: bool, afterWord: bool)
    requires Canonical(pieces, begun, afterWord)
    ensures PiecesOf(Print(pieces), false, begun) == pieces
    ensures afterWord && pieces != [] ==> !IsPlain(Print(pieces)[0])
    decreases |pieces|
  {
    if pieces != [] {
      var rest := Print(pieces[1..]);
      assert pieces == [pieces[0]] + pieces[1..];
      match pieces[0] {
        case Quoted(text) =>
          PrintedReads(pieces[1..], true, false);
          QuotedReads(text, rest, begun);
        case Word(apart, text) =>
          PrintedReads(pieces[1..], true, true);
          WordPieceReads(apart, text, rest, begun);
      }
    }
  }

  // ------------------------------------------------------------ what the comparison compares

  lemma NormalisedIsPrinted(text: string)
    ensures Normalised(text) == Print(Pieces(text))
    ensures Pieces(Normalised(text)) == Pieces(text)
  {
    CollapsedIsPrinted(text, false, false);
    PiecesAreCanonical(text, false, false, false);
    PrintedReads(Pieces(text), false, false);
  }

  /** Two statements compare equal exactly when they have the same pieces: the same quoted segments
      verbatim, the same words, and blank text between the same words, however much of it. */
  lemma ComparesPieces(a: string, b: string)
    ensures Normalised(a) == Normalised(b) <==> Pieces(a) == Pieces(b)
  {
    NormalisedIsPrinted(a);
    NormalisedIsPrinted(b);
  }

  /** Normalising twice is normalising once. */
  lemma NormalisingIsIdempotent(text: string)
    ensures Normalised(Normalised(text)) == Normalised(text)
  {
    NormalisedIsPrinted(text);
    NormalisedIsPrinted(Normalised(text));
  }

  // ------------------------------------------------------------ what the normal form promises

  /** The closing character a text leaves awaited, read character by character: each of the four openers
      and what closes it. */
  function Awaited(text: string, quote: Option<char>): Option<char> {
    if text == "" then quote
    else
      var c, rest := text[0], text[1..];
      if quote.Some? then Awaited(rest, if c == quote.value then None else quote)
      else if c == '\'' then Awaited(rest, Some('\''))
      else if c == '"' then Awaited(rest, Some('"'))
      else if c == '`' then Awaited(rest, Some('`'))
      else if c == '[' then Awaited(rest, Some(']'))
      else Awaited(rest, None)
  }

  /** The four ways of quoting. */
  predicate Delimits(start: char, close: char) {
    || (start == '\'' && close == '\'') || (start == '"' && close == '"')
    || (start == '`' && close == '`') || (start == '[' && close == ']')
  }

  lemma {:induction false} UpToAQuote(before: string, rest: string, quote: Option<char>, space: bool, begun: bool)
    requires Awaited(before, quote) == None && rest != "" && OpensQuote(rest[0])
    ensures Collapsed(before + rest, quote, space, begun)
            == Collapsed(before, quote, space, begun) + Collapsed(rest, None, false, true)
    decreases |before|
  {
    if before == "" {
      assert before + rest == rest;
    } else {
      var c := before[0];
      assert (before + rest)[0] == c && (before + rest)[1..] == before[1..] + rest;
      hide IsSpace;
      if quote.Some? {
        UpToAQuote(before[1..], rest, if c == quote.value then None else quote, space, true);
      } else if OpensQuote(c) {
        UpToAQuote(before[1..], rest, Some(Closing(c)), false, true);
      } else if IsSpace(c) {
        UpToAQuote(before[1..], rest, None, true, begun);
      } else {
        UpToAQuote(before[1..], rest, None, false, true);
      }
    }
  }

  lemma {:induction false} InsideStays(inside: string, close: char, after: string)
    requires close !in inside
    ensures Collapsed(inside + [close] + after, Some(close), false, true)
            == inside + [close] + Collapsed(after, None, false, true)
    decreases |inside|
  {
    var text := inside + [close] + after;
    if inside == "" {
      assert text[0] == close && text[1..] == after;
    } else {
      assert text[0] == inside[0] && text[1..] == inside[1..] + [close] + after;
      InsideStays(inside[1..], close, after);
      assert [inside[0]] + inside[1..] == inside;
    }
  }

  lemma DelimitersQuote(start: char, close: char)
    requires Delimits(start, close)
    ensures OpensQuote(start) && Closing(start) == close
  {
  }

  /** What is quoted stays verbatim: behind any text that leaves no quote open, in any of the four ways of
      quoting, the normal form holds the whole segment as it stands. */
  lemma QuotedStaysVerbatim(before: string, start: char, inside: string, close: char, after: string)
    requires Awaited(before, None) == None && Delimits(start, close) && close !in inside
    ensures Normalised(before + ([start] + inside + [close]) + after)
            == Normalised(before) + ([start] + inside + [close]) + Collapsed(after, None, false, true)
  {
    DelimitersQuote(start, close);
    var rest := [start] + (inside + [close] + after);
    assert before + ([start] + inside + [close]) + after == before + rest;
    hide Awaited, Delimits, IsSpace;
    UpToAQuote(before, rest, None, false, false);
    assert rest[0] == start && rest[1..] == inside + [close] + after;
    assert Collapsed(rest, None, false, true) == [start] + Collapsed(rest[1..], Some(close), false, true);
    hide Collapsed, OpensQuote;
    InsideStays(inside, close, after);
    var tail := Collapsed(after, None, false, true);
    assert [start] + (inside + [close] + tail) == [start] + inside + [close] + tail;
  }

  /** So two statements that differ only inside a quote never compare equal. */
  lemma QuotedTextIsCompared(before: string, start: char, a: string, b: string, close: char, after: string)
    requires Awaited(before, None) == None && Delimits(start, close) && close !in a && close !in b
    ensures Normalised(before + ([start] + a + [close]) + after) == Normalised(before + ([start] + b + [close]) + after)
            <==> a == b
  {
    QuotedStaysVerbatim(before, start, a, close, after);
    QuotedStaysVerbatim(before, start, b, close, after);
    var head, tail := Normalised(before), Collapsed(after, None, false, true);
    hide Normalised, Collapsed, Awaited, Delimits;
    SameBetween(head + [start], a, b, [close] + tail);
    assert head + ([start] + a + [close]) + tail == head + [start] + a + ([close] + tail);
    assert head + ([start] + b + [close]) + tail == head + [start] + b + ([close] + tail);
  }

  lemma SameBetween(head: string, a: string, b: string, tail: string)
    ensures head + a + tail == head + b + tail <==> a == b
  {
    if head + a + tail == head + b + tail {
      assert |a| == |b|;
      assert a == (head + a + tail)[|head|..|head| + |a|];
      assert b == (head + b + tail)[|head|..|head| + |b|];
    }
  }

  /** Outside quotes it is no matter how much blank text stands in a place, nor which. */
  lemma {:induction false} BlankTextIsAlike(before: string, a: string, b: string, after: string,
                                            quote: Option<char>, space: bool, begun: bool)
    requires Awaited(before, quote) == None && a != "" && b != "" && Blank(a) && Blank(b)
    ensures Collapsed(before + a + after, quote, space, begun) == Collapsed(before + b + after, quote, space, begun)
    decreases |before|
  {
    if before == "" {
      assert before + a + after == a + after && before + b + after == b + after;
      BlankCollapses(a, after, space, begun);
      BlankCollapses(b, after, space, begun);
    } else {
      var c := before[0];
      assert (before + a + after)[0] == c && (before + a + after)[1..] == before[1..] + a + after;
      assert (before + b + after)[0] == c && (before + b + after)[1..] == before[1..] + b + after;
      hide IsSpace, Blank;
      if quote.Some? {
        BlankTextIsAlike(before[1..], a, b, after, if c == quote.value then None else quote, space, true);
      } else if OpensQuote(c) {
        BlankTextIsAlike(before[1..], a, b, after, Some(Closing(c)), false, true);
      } else if IsSpace(c) {
        BlankTextIsAlike(before[1..], a, b, after, None, true, begun);
      } else {
        BlankTextIsAlike(before[1..], a, b, after, None, false, true);
      }
    }
  }

  lemma {:induction false} BlankCollapses(blank: string, after: string, space: bool, begun: bool)
    requires blank != "" && Blank(blank)
    ensures Collapsed(blank + after, None, space, begun) == Collapsed(after, None, true, begun)
    decreases |blank|
  {
    assert (blank + after)[1..] == blank[1..] + after;
    assert !OpensQuote(blank[0]);
    if |blank| == 1 {
      assert blank[1..] + after == after;
    } else {
      BlankCollapses(blank[1..], after, true, begun);
    }
  }

  /** What is left of a text without its blank characters. */
  function Unblanked(text: string): string {
    if text == "" then "" else (if IsSpace(text[0]) then "" else [text[0]]) + Unblanked(text[1..])
  }

  lemma {:induction false} UnblankedBoth(a: string, b: string)
    ensures Unblanked(a + b) == Unblanked(a) + Unblanked(b)
  {
    if a == "" {
      assert a + b == b;
    } else {
      assert (a + b)[1..] == a[1..] + b;
      UnblankedBoth(a[1..], b);
    }
  }

  lemma {:induction false} CollapsingKeepsText(text: string, quote: Option<char>, space: bool, begun: bool)
    ensures Unblanked(Collapsed(text, quote, space, begun)) == Unblanked(text)
    decreases |text|
  {
    if text != "" {
      var c, rest := text[0], text[1..];
      UnblankedOne(c);
      hide IsSpace, Unblanked;
      if quote.Some? {
        CollapsingKeepsText(rest, if c == quote.value then None else quote, space, true);
        UnblankedBoth([c], Collapsed(rest, if c == quote.value then None else quote, space, true));
      } else if OpensQuote(c) {
        CollapsingKeepsText(rest, Some(Closing(c)), false, true);
        UnblankedBoth([c], Collapsed(rest, Some(Closing(c)), false, true));
      } else if IsSpace(c) {
        CollapsingKeepsText(rest, None, true, begun);
      } else {
        CollapsingKeepsText(rest, None, false, true);
        UnblankedBoth([c], Collapsed(rest, None, false, true));
        UnblankedBoth((if space && begun then " " else "") + [c], Collapsed(rest, None, false, true));
        UnblankedBoth(if space && begun then " " else "", [c]);
      }
      UnblankedFirst(text);
    }
  }

  lemma UnblankedOne(c: char)
    ensures Unblanked([c]) == if IsSpace(c) then "" else [c]
    ensures Unblanked(" ") == "" && Unblanked("") == ""
  {
    assert [c][1..] == "" && " "[1..] == "";
  }

  lemma UnblankedFirst(text: string)
    requires text != ""
    ensures Unblanked(text) == Unblanked([text[0]]) + Unblanked(text[1..])
  {
    assert [text[0]][1..] == "";
  }

  /** Of everything that is not blank nothing is lost, added or changed: two statements that differ in it
      never compare equal. */
  lemma TextIsCompared(a: string, b: string)
    ensures Unblanked(Normalised(a)) == Unblanked(a)
    ensures Normalised(a) == Normalised(b) ==> Unblanked(a) == Unblanked(b)
  {
    CollapsingKeepsText(a, None, false, false);
    CollapsingKeepsText(b, None, false, false);
  }

  lemma {:induction false} UpToText(before: string, rest: string, quote: Option<char>, space: bool, begun: bool)
    requires before != "" && !IsSpace(before[|before| - 1]) && Awaited(before, quote) == None && (quote.Some? ==> !space)
    ensures Collapsed(before + rest, quote, space, begun)
            == Collapsed(before, quote, space, begun) + Collapsed(rest, None, false, true)
    decreases |before|
  {
    var c, behind := before[0], before[1..];
    assert (before + rest)[0] == c && (before + rest)[1..] == behind + rest;
    hide IsSpace;
    if behind == "" {
      assert behind + rest == rest;
      assert Awaited(behind, None) == None;
    } else {
      assert behind[|behind| - 1] == before[|before| - 1];
      if quote.Some? {
        UpToText(behind, rest, if c == quote.value then None else quote, space, true);
      } else if OpensQuote(c) {
        UpToText(behind, rest, Some(Closing(c)), false, true);
      } else if IsSpace(c) {
        UpToText(behind, rest, None, true, begun);
      } else {
        UpToText(behind, rest, None, false, true);
      }
    }
  }

  lemma OneBlankMore(c: char, after: string)
    requires IsPlain(c)
    ensures Collapsed(" " + ([c] + after), None, false, true) == " " + Collapsed([c] + after, None, false, true)
  {
    var blank: string := " ";
    assert IsSpace(blank[0]) && !OpensQuote(blank[0]);
    var apart, together := blank + ([c] + after), [c] + after;
    assert apart[0] == ' ' && apart[1..] == together && together[0] == c && together[1..] == after;
    hide IsSpace, OpensQuote;
    assert Collapsed(apart, None, false, true) == Collapsed(together, None, true, true);
    hide Collapsed;
    Unfolds(together, true, true);
    Unfolds(together, false, true);
  }

  /** And outside quotes it does matter whether there is any between two words. */
  lemma ApartIsNotTogether(before: string, c: char, after: string)
    requires before != "" && !IsSpace(before[|before| - 1]) && Awaited(before, None) == None
    requires IsPlain(c)
    ensures Normalised(before + " " + [c] + after) != Normalised(before + [c] + after)
  {
    hide IsSpace, IsPlain, Collapsed, Awaited;
    var apart, together := " " + ([c] + after), [c] + after;
    assert before + " " + [c] + after == before + apart && before + [c] + after == before + together;
    UpToText(before, apart, None, false, false);
    UpToText(before, together, None, false, false);
    OneBlankMore(c, after);
    assert |Collapsed(apart, None, false, true)| == |Collapsed(together, None, false, true)| + 1;
  }
}
