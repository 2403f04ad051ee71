/** The three readings a traced line is taken apart with: the arguments of a call, the string the
    tracer printed for a path, and where the arguments end and the result begins. */
module TraceText {
  import opened Wrappers
  import opened ByteStrings
  import opened Chars

  // ------------------------------------------------------------ splitting the arguments

  datatype Mode = Mode(depth: int, quoted: bool, escaped: bool)

  const OUTSIDE := Mode(0, false, false)

  predicate Splits(mode: Mode, c: char) {
    !mode.quoted && mode.depth == 0 && c == ','
  }

  function Next(mode: Mode, c: char): Mode {
    if mode.quoted then
      if mode.escaped then mode.(escaped := false)
      else if c == '\\' then mode.(escaped := true)
      else if c == '"' then mode.(quoted := false)
      else mode
    else if c == '"' then mode.(quoted := true)
    else if c in "([{<" then mode.(depth := mode.depth + 1)
    else if c in ")]}>" then mode.(depth := mode.depth - 1)
    else mode
  }

  /** The text between top-level commas, as it stands. */
  function Pieces(text: string, mode: Mode, current: string): (pieces: seq<string>)
    ensures pieces != []
  {
    if text == "" then [current]
    else if Splits(mode, text[0]) then [current] + Pieces(text[1..], mode, "")
    else Pieces(text[1..], Next(mode, text[0]), current + [text[0]])
  }

  /** Trimmed, and the empty ones dropped. */
  function Cleaned(pieces: seq<string>): seq<string> {
    if pieces == [] then []
    else (if Strip(pieces[0]) == "" then [] else [Strip(pieces[0])]) + Cleaned(pieces[1..])
  }

  function Arguments(text: string): seq<string> {
    Cleaned(Pieces(text, OUTSIDE, ""))
  }

  lemma {:induction false} CleanedBoth(a: seq<string>, b: seq<string>)
    ensures Cleaned(a + b) == Cleaned(a) + Cleaned(b)
  {
    if a == [] {
      assert a + b == b;
    } else {
      assert (a + b)[1..] == a[1..] + b;
      CleanedBoth(a[1..], b);
    }
  }

  /** One pass over the characters, with a depth, two flags and the piece so far. */
  method SplitArguments(text: string) returns (arguments: seq<string>)
    ensures arguments == Arguments(text)
  {
    var found: seq<string> := [];
    var mode, current, i := OUTSIDE, "", 0;
    while i < |text|
      invariant 0 <= i <= |text|
      invariant found + Pieces(text[i..], mode, current) == Pieces(text, OUTSIDE, "")
    {
      var c := text[i];
      assert text[i..][1..] == text[i + 1..];
      if Splits(mode, c) {
        found := found + [current];
        current := "";
      } else {
        mode := Next(mode, c);
        current := current + [c];
      }
      i := i + 1;
    }
    found := found + [current];
    arguments := [];
    i := 0;
    while i < |found|
      invariant 0 <= i <= |found|
      invariant arguments == Cleaned(found[..i])
    {
      var one := Strip(found[i]);
      assert found[..i + 1] == found[..i] + [found[i]];
      CleanedBoth(found[..i], [found[i]]);
      if one != "" { arguments := arguments + [one]; }
      i := i + 1;
    }
    assert found[..|found|] == found;
  }

  /** Where a scan stands after a text without a top-level comma; None where it met one. */
  function Walk(text: string, mode: Mode): Option<Mode> {
    if text == "" then Some(mode)
    else if Splits(mode, text[0]) then None
    else Walk(text[1..], Next(mode, text[0]))
  }

  /** Balanced and comma-safe: a scan comes out of it as it went in. */
  predicate Balanced(token: string) {
    Walk(token, OUTSIDE) == Some(OUTSIDE)
  }

  /** What the printer puts between its commas. */
  predicate Printable(token: string) {
    token != "" && Trimmed(token) && Balanced(token)
  }

  lemma {:induction false} PiecesWalk(text: string, rest: string, mode: Mode, current: string)
    requires Walk(text, mode).Some?
    ensures Pieces(text + rest, mode, current) == Pieces(rest, Walk(text, mode).value, current + text)
    decreases |text|
  {
    if text == "" {
      assert text + rest == rest && current + text == current;
    } else {
      assert (text + rest)[1..] == text[1..] + rest;
      PiecesWalk(text[1..], rest, Next(mode, text[0]), current + [text[0]]);
      assert current + [text[0]] + text[1..] == current + text;
    }
  }

  lemma {:induction false} WalkBoth(a: string, b: string, mode: Mode)
    requires Walk(a, mode).Some?
    ensures Walk(a + b, mode) == Walk(b, Walk(a, mode).value)
    decreases |a|
  {
    if a == "" {
      assert a + b == b;
    } else {
      assert (a + b)[1..] == a[1..] + b;
      WalkBoth(a[1..], b, Next(mode, a[0]));
    }
  }

  lemma {:induction false} BlankWalks(text: string, mode: Mode)
    requires Blank(text) && !mode.quoted
    ensures Walk(text, mode) == Some(mode)
  {
    if text != "" { BlankWalks(text[1..], mode); }
  }

  /** Tokens with a comma and some blank text between each two. */
  function Joined(tokens: seq<string>, pads: seq<string>): string
    requires |pads| == |tokens|
  {
    if tokens == [] then ""
    else if |tokens| == 1 then tokens[0]
    else tokens[0] + "," + pads[0] + Joined(tokens[1..], pads[1..])
  }

  lemma {:induction false} PiecesOfJoined(tokens: seq<string>, pads: seq<string>, lead: string)
    requires |pads| == |tokens| && tokens != [] && Blank(lead)
    requires forall k | 0 <= k < |tokens| :: Printable(tokens[k]) && Blank(pads[k])
    ensures Cleaned(Pieces(Joined(tokens, pads), OUTSIDE, lead)) == tokens
    decreases |tokens|
  {
    var token := tokens[0];
    StripUnpads(lead, token, "");
    assert lead + token + "" == lead + token;
    if |tokens| == 1 {
      PiecesWalk(token, "", OUTSIDE, lead);
      assert token + "" == token;
      assert Pieces(token, OUTSIDE, lead) == [lead + token];
      assert [lead + token][1..] == [];
    } else {
      var after := Joined(tokens[1..], pads[1..]);
      var rest := "," + pads[0] + after;
      assert Joined(tokens, pads) == token + rest;
      PiecesWalk(token, rest, OUTSIDE, lead);
      assert rest[0] == ',' && rest[1..] == pads[0] + after;
      BlankWalks(pads[0], OUTSIDE);
      PiecesWalk(pads[0], after, OUTSIDE, "");
      assert "" + pads[0] == pads[0];
      PiecesOfJoined(tokens[1..], pads[1..], pads[0]);
      var tail := Pieces(after, OUTSIDE, pads[0]);
      assert Pieces(Joined(tokens, pads), OUTSIDE, lead) == [lead + token] + tail;
      assert ([lead + token] + tail)[1..] == tail;
      assert [token] + tokens[1..] == tokens;
    }
  }

  /** Splitting inverts printing, whatever blank text follows each comma and however the tokens
      nest their quotes, brackets and commas. */
  lemma ArgumentsInvertJoined(tokens: seq<string>, pads: seq<string>)
    requires |pads| == |tokens|
    requires forall k | 0 <= k < |tokens| :: Printable(tokens[k]) && Blank(pads[k])
    ensures Arguments(Joined(tokens, pads)) == tokens
  {
    if tokens == [] {
      assert Pieces("", OUTSIDE, "") == [""];
      assert [""][1..] == [];
    } else {
      PiecesOfJoined(tokens, pads, "");
    }
  }

  // ------------------------------------------------------------ the result

  /** The last character that is not blank closes a bracket. */
  predicate EndsClosed(text: string) {
    RStrip(text) != "" && RStrip(text)[|RStrip(text)| - 1] == ')'
  }

  /** The last equals sign with a closing bracket to its left, blank text aside; what is right of it is
      the result. */
  function ResultBefore(body: string, at: nat): Option<(nat, string)>
    requires at <= |body|
  {
    if at == 0 then None
    else if body[at - 1] == '=' && EndsClosed(body[..at - 1])
    then Some((|RStrip(body[..at - 1])| - 1, Strip(body[at..])))
    else ResultBefore(body, at - 1)
  }

  method FindResult(body: string) returns (found: Option<(nat, string)>)
    ensures found == ResultBefore(body, |body|)
  {
    var at := |body|;
    while at > 0
      invariant 0 <= at <= |body|
      invariant ResultBefore(body, at) == ResultBefore(body, |body|)
    {
      at := at - 1;
      if body[at] == '=' {
        var before := RStrip(body[..at]);
        if before != "" && before[|before| - 1] == ')' {
          return Some((|before| - 1, Strip(body[at + 1..])));
        }
      }
    }
    return None;
  }

  /** No equals sign in it has a closing bracket to its left. */
  predicate Unambiguous(result: string) {
    forall i | 0 <= i < |result| && result[i] == '=' :: !EndsClosed(result[..i])
  }

  /** Only what follows the last blank-free text matters to where a text ends. */
  lemma {:induction false} EndOfBoth(a: string, b: string)
    ensures Blank(b) ==> RStrip(a + b) == RStrip(a)
    ensures !Blank(b) ==> EndsClosed(a + b) == EndsClosed(b) && !Blank(a + b)
    decreases |b|
  {
    if b == "" {
      assert a + b == a;
    } else {
      var last := |b| - 1;
      assert (a + b)[..|a + b| - 1] == a + b[..last];
      assert (a + b)[|a + b| - 1] == b[last];
      assert b == b[..last] + [b[last]];
      EndOfBoth(a, b[..last]);
    }
  }

  lemma {:induction false} NothingLater(front: string, text: string, at: nat)
    requires at <= |text| && !EndsClosed(front)
    requires Unambiguous(text)
    ensures ResultBefore(front + text, |front| + at) == ResultBefore(front + text, |front|)
    decreases at
  {
    if at > 0 {
      var body := front + text;
      assert body[|front| + at - 1] == text[at - 1];
      assert body[..|front| + at - 1] == front + text[..at - 1];
      EndOfBoth(front, text[..at - 1]);
      NothingLater(front, text, at - 1);
    }
  }

  /** Blank text before a result adds no equals sign to it. */
  lemma BlankKeepsUnambiguous(gap: string, result: string)
    requires Blank(gap) && Unambiguous(result)
    ensures Unambiguous(gap + result)
  {
    hide EndsClosed;
    var text := gap + result;
    assert forall i | 0 <= i < |gap| :: text[i] == gap[i] != '=';
    forall i | 0 <= i < |text| && text[i] == '=' ensures !EndsClosed(text[..i]) {
      assert |gap| <= i && text[..i] == gap + result[..i - |gap|];
      BlankEndsOpen(gap);
      EndOfBoth(gap, result[..i - |gap|]);
      BlankEndsOpen(gap + result[..i - |gap|]);
    }
  }

  lemma BlankEndsOpen(text: string)
    ensures Blank(text) ==> !EndsClosed(text)
  {
    if Blank(text) { BlankStrips(text); }
  }

  /** The equals sign the printer put there is the one found. */
  lemma FoundAtOnce(before: string, text: string)
    requires EndsClosed(before)
    ensures ResultBefore(before + "=" + text, |before| + 1) == Some((|RStrip(before)| - 1, Strip(text)))
  {
    hide EndsClosed, Strip, RStrip;
    var body := before + "=" + text;
    assert body[..|before|] == before && body[|before| + 1..] == text;
  }

  lemma ClosedAcross(arguments: string, pad: string)
    requires Blank(pad)
    ensures EndsClosed(arguments + ")" + pad) && |RStrip(arguments + ")" + pad)| == |arguments| + 1
    ensures !EndsClosed(arguments + ")" + pad + "=")
  {
    EndOfBoth(arguments + ")", pad);
    assert RStrip(arguments + ")") == arguments + ")";
    assert RStrip(arguments + ")" + pad + "=") == arguments + ")" + pad + "=";
  }

  /** The result is found again across whatever column the tracer padded it to, and so is the
      bracket that closes the arguments, whatever equals signs the arguments hold. */
  lemma ResultIsFound(arguments: string, pad: string, gap: string, result: string)
    requires Blank(pad) && Blank(gap) && Trimmed(result) && Unambiguous(result)
    ensures var body := arguments + ")" + pad + "=" + gap + result;
            ResultBefore(body, |body|) == Some((|arguments|, result))
  {
    hide *;
    var before := arguments + ")" + pad;
    var text := gap + result;
    assert arguments + ")" + pad + "=" + gap + result == before + "=" + text;
    ClosedAcross(arguments, pad);
    BlankKeepsUnambiguous(gap, result);
    NothingLater(before + "=", text, |text|);
    FoundAtOnce(before, text);
    StripUnpads(gap, result, "");
    assert gap + result + "" == text;
  }

  // ------------------------------------------------------------ strings the tracer escaped

  /** The bytes of one character, as Python encodes it. */
  function Utf8(c: char): Bytes {
    var code := c as int;
    if code < 0x80 then [code]
    else if code < 0x800 then [0xC0 + code / 64, 0x80 + code % 64]
    else if code < 0x10000 then [0xE0 + code / 4096, 0x80 + code / 64 % 64, 0x80 + code % 64]
    else [0xF0 + code / 262144, 0x80 + code / 4096 % 64, 0x80 + code / 64 % 64, 0x80 + code % 64]
  }

  function Encoded(text: string): Bytes {
    if text == "" then [] else Utf8(text[0]) + Encoded(text[1..])
  }

  /** A path read back out of a token; a token that cannot be read; or a reading that raises. */
  datatype Word = Word(bytes: Bytes) | NotAWord | Raises

  predicate IsOctal(c: char) {
    '0' <= c <= '7'
  }

  function HexDigit(c: char): Option<nat> {
    if '0' <= c <= '9' then Some(c as nat - '0' as nat)
    else if 'a' <= c <= 'f' then Some(c as nat - 'a' as nat + 10)
    else if 'A' <= c <= 'F' then Some(c as nat - 'A' as nat + 10)
    else None
  }

  /** What int() makes of two characters in base sixteen and a byte can hold: two digits, or one
      digit beside a sign or a blank. */
  function HexByte(a: char, b: char): Option<byte> {
    if HexDigit(a).Some? && HexDigit(b).Some? then Some(HexDigit(a).value * 16 + HexDigit(b).value)
    else if (a == '+' || IsSpace(a)) && HexDigit(b).Some? then Some(HexDigit(b).value)
    else if a == '-' && b == '0' then Some(0)
    else if HexDigit(a).Some? && IsSpace(b) then Some(HexDigit(a).value)
    else None
  }

  /** The byte a one-letter escape stands for. */
  function Escape(marker: char): Option<byte> {
    match marker
    case 'n' => Some(10) case 't' => Some(9) case 'r' => Some(13) case 'f' => Some(12)
    case 'v' => Some(11) case 'b' => Some(8) case 'a' => Some(7)
    case '\\' => Some(92) case '"' => Some(34)
    case _ => None
  }

  /** How many octal digits, up to a limit, a text starts with. */
  function OctalRun(text: string, limit: nat): (n: nat)
    ensures n <= limit && n <= |text|
  {
    if limit == 0 || text == "" || !IsOctal(text[0]) then 0 else 1 + OctalRun(text[1..], limit - 1)
  }

  predicate AllOctal(digits: string) {
    forall i | 0 <= i < |digits| :: IsOctal(digits[i])
  }

  function OctalValue(digits: string): nat
    requires AllOctal(digits)
  {
    if digits == "" then 0
    else OctalValue(digits[..|digits| - 1]) * 8 + (digits[|digits| - 1] as nat - '0' as nat)
  }

  lemma {:induction false} OctalRunIsOctal(text: string, limit: nat)
    ensures forall i | 0 <= i < OctalRun(text, limit) :: IsOctal(text[i])
    ensures OctalRun(text, limit) < limit && OctalRun(text, limit) < |text| ==>
              !IsOctal(text[OctalRun(text, limit)])
    decreases limit
  {
    if limit != 0 && text != "" && IsOctal(text[0]) { OctalRunIsOctal(text[1..], limit - 1); }
  }

  function Prepend(bytes: Bytes, word: Word): Word {
    match word
    case Word(rest) => Word(bytes + rest)
    case _ => word
  }

  /** One escape: the bytes it stands for and how much text it takes, without the backslash. */
  datatype Unit = Unit(byte: byte, taken: nat) | NoUnit | TooBig

  function Unescaped(text: string): (one: Unit)
    ensures one.Unit? ==> 0 < one.taken <= |text|
  {
    if text == "" then NoUnit
    else if text[0] == 'x' then
      if |text| < 3 then NoUnit
      else match HexByte(text[1], text[2]) case Some(b) => Unit(b, 3) case None => NoUnit
    else if IsOctal(text[0]) then
      var n := OctalRun(text, 3);
      OctalRunIsOctal(text, 3);
      var value := OctalValue(text[..n]);
      if value < 256 then Unit(value, n) else TooBig
    else match Escape(text[0]) case Some(b) => Unit(b, 1) case None => NoUnit
  }

  function Decoded(body: string): Word
    decreases |body|
  {
    if body == "" then Word([])
    else if body[0] != '\\' then Prepend(Utf8(body[0]), Decoded(body[1..]))
    else
      match Unescaped(body[1..])
      case Unit(b, taken) => Prepend([b], Decoded(body[1 + taken..]))
      case NoUnit => NotAWord
      case TooBig => Raises
  }

  function LastQuote(token: string): (at: int)
    ensures -1 <= at < |token| && (at >= 0 ==> token[at] == '"')
    ensures forall i | at < i < |token| :: token[i] != '"'
  {
    if token == "" then -1
    else if token[|token| - 1] == '"' then |token| - 1
    else LastQuote(token[..|token| - 1])
  }

  function StringArgument(token: string): Word {
    if token == "" || token[0] != '"' then NotAWord
    else
      var closing := LastQuote(token);
      if closing <= 0 || !Blank(token[closing + 1..]) then NotAWord
      else Decoded(token[1..closing])
  }

  lemma PrependBoth(a: Bytes, b: Bytes, word: Word)
    ensures Prepend(a, Prepend(b, word)) == Prepend(a + b, word)
  {
    if word.Word? { assert a + (b + word.bytes) == a + b + word.bytes; }
  }

  method ReadString(token: string) returns (word: Word)
    ensures word == StringArgument(token)
  {
    hide Unescaped, Utf8;
    if token == "" || token[0] != '"' { return NotAWord; }
    var closing := LastQuote(token);
    if closing <= 0 || !Blank(token[closing + 1..]) { return NotAWord; }
    var body := token[1..closing];
    var out: Bytes := [];
    var index := 0;
    while index < |body|
      invariant 0 <= index <= |body|
      invariant Prepend(out, Decoded(body[index..])) == Decoded(body)
    {
      var rest := body[index..];
      assert rest[1..] == body[index + 1..];
      if body[index] != '\\' {
        PrependBoth(out, Utf8(body[index]), Decoded(rest[1..]));
        out := out + Utf8(body[index]);
        index := index + 1;
      } else {
        match Unescaped(body[index + 1..]) {
          case Unit(b, taken) =>
            assert rest[1 + taken..] == body[index + 1 + taken..];
            PrependBoth(out, [b], Decoded(body[index + 1 + taken..]));
            out := out + [b];
            index := index + 1 + taken;
          case NoUnit => return NotAWord;
          case TooBig => return Raises;
        }
      }
    }
    return Word(out);
  }

  // ------------------------------------------------------------ and strings it may print

  /** The ways a tracer may print one byte. */
  datatype Spelling = Plain | Letter | Shortest | Octal | Hex

  function OctalChar(n: nat): char
    requires n < 8
  {
    '0' + n as char
  }

  function HexChar(n: nat): char
    requires n < 16
  {
    if n < 10 then '0' + n as char else 'a' + (n - 10) as char
  }

  function LetterOf(b: byte): Option<char> {
    match b
    case 10 => Some('n') case 9 => Some('t') case 13 => Some('r') case 12 => Some('f')
    case 11 => Some('v') case 8 => Some('b') case 7 => Some('a')
    case 92 => Some('\\') case 34 => Some('"')
    case _ => None
  }

  function OctalDigits(b: byte): string {
    [OctalChar(b / 64), OctalChar(b / 8 % 8), OctalChar(b % 8)]
  }

  function ShortestDigits(b: byte): string {
    if b < 8 then [OctalChar(b)]
    else if b < 64 then [OctalChar(b / 8), OctalChar(b % 8)]
    else OctalDigits(b)
  }

  function SpelledByte(b: byte, spelling: Spelling): string {
    match spelling
    case Plain => [b as char]
    case Letter => ['\\', LetterOf(b).GetOr('n')]
    case Shortest => "\\" + ShortestDigits(b)
    case Octal => "\\" + OctalDigits(b)
    case Hex => ['\\', 'x', HexChar(b / 16), HexChar(b % 16)]
  }

  function Spelled(bytes: Bytes, spellings: seq<Spelling>): string
    requires |spellings| == |bytes|
  {
    if bytes == [] then ""
    else SpelledByte(bytes[0], spellings[0]) + Spelled(bytes[1..], spellings[1..])
  }

  /** Printable characters stand for themselves, the two that end a string or start an escape
      excepted; a short octal escape is not followed by a digit that would extend it. */
  predicate Legible(bytes: Bytes, spellings: seq<Spelling>) {
    && |spellings| == |bytes|
    && (bytes != [] ==>
          && Legible(bytes[1..], spellings[1..])
          && (spellings[0].Plain? ==> 32 <= bytes[0] < 127 && bytes[0] != 34 && bytes[0] != 92)
          && (spellings[0].Letter? ==> LetterOf(bytes[0]).Some?)
          && (spellings[0].Shortest? ==>
                var rest := Spelled(bytes[1..], spellings[1..]);
                |ShortestDigits(bytes[0])| == 3 || rest == "" || !IsOctal(rest[0])))
  }

  function Quoted(bytes: Bytes, spellings: seq<Spelling>): string
    requires |spellings| == |bytes|
  {
    "\"" + Spelled(bytes, spellings) + "\""
  }

  lemma {:induction false} OctalRunStops(digits: string, rest: string, limit: nat)
    requires AllOctal(digits)
    requires |digits| <= limit && (|digits| == limit || rest == "" || !IsOctal(rest[0]))
    ensures OctalRun(digits + rest, limit) == |digits|
  {
    if digits == "" {
      assert digits + rest == rest;
    } else {
      assert (digits + rest)[1..] == digits[1..] + rest;
      OctalRunStops(digits[1..], rest, limit - 1);
    }
  }

  lemma OneDigit(a: char)
    requires IsOctal(a)
    ensures OctalValue([a]) == a as int - '0' as int
  {
    assert [a][..0] == "";
  }

  lemma TwoDigits(a: char, b: char)
    requires IsOctal(a) && IsOctal(b)
    ensures OctalValue([a, b]) == (a as int - '0' as int) * 8 + (b as int - '0' as int)
  {
    OneDigit(a);
    assert [a, b][..1] == [a];
  }

  lemma ThreeDigits(a: char, b: char, c: char)
    requires IsOctal(a) && IsOctal(b) && IsOctal(c)
    ensures OctalValue([a, b, c])
            == ((a as int - '0' as int) * 8 + (b as int - '0' as int)) * 8 + (c as int - '0' as int)
  {
    TwoDigits(a, b);
    assert [a, b, c][..2] == [a, b];
  }

  lemma DigitsMean(b: byte)
    ensures AllOctal(OctalDigits(b)) && OctalValue(OctalDigits(b)) == b
    ensures AllOctal(ShortestDigits(b)) && OctalValue(ShortestDigits(b)) == b
    ensures 1 <= |ShortestDigits(b)| <= 3
  {
    OneDigit(OctalChar(b % 8));
    TwoDigits(OctalChar(b / 8 % 8), OctalChar(b % 8));
    ThreeDigits(OctalChar(b / 64), OctalChar(b / 8 % 8), OctalChar(b % 8));
  }

  lemma OctalReads(digits: string, b: byte, rest: string)
    requires AllOctal(digits) && OctalValue(digits) == b && 1 <= |digits| <= 3
    requires |digits| == 3 || rest == "" || !IsOctal(rest[0])
    ensures Decoded("\\" + digits + rest) == Prepend([b], Decoded(rest))
  {
    var text := "\\" + digits + rest;
    assert text[1..] == digits + rest;
    OctalRunStops(digits, rest, 3);
    assert (digits + rest)[..|digits|] == digits;
    assert text[1 + |digits|..] == rest;
  }

  lemma HexReads(b: byte, rest: string)
    ensures Decoded(SpelledByte(b, Hex) + rest) == Prepend([b], Decoded(rest))
  {
    var text := SpelledByte(b, Hex) + rest;
    assert text[1..][0] == 'x' && text[1..][1] == HexChar(b / 16) && text[1..][2] == HexChar(b % 16);
    assert text[4..] == rest;
  }

  lemma LettersStand(b: byte)
    requires LetterOf(b).Some?
    ensures var letter := LetterOf(b).value;
            Escape(letter) == Some(b) && letter != 'x' && !IsOctal(letter)
  {
  }

  lemma LetterReads(b: byte, rest: string)
    requires LetterOf(b).Some?
    ensures Decoded(SpelledByte(b, Letter) + rest) == Prepend([b], Decoded(rest))
  {
    var text := SpelledByte(b, Letter) + rest;
    LettersStand(b);
    hide LetterOf, Escape, IsOctal;
    assert text[1..][0] == LetterOf(b).value;
    assert text[2..] == rest;
  }

  /** Whatever way one byte is printed, it reads back as that byte and nothing more is taken. */
  lemma OneByteReads(b: byte, spelling: Spelling, rest: string)
    requires spelling.Plain? ==> 32 <= b < 127 && b != 34 && b != 92
    requires spelling.Letter? ==> LetterOf(b).Some?
    requires spelling.Shortest? ==> |ShortestDigits(b)| == 3 || rest == "" || !IsOctal(rest[0])
    ensures Decoded(SpelledByte(b, spelling) + rest) == Prepend([b], Decoded(rest))
  {
    DigitsMean(b);
    match spelling
    case Plain => assert ([b as char] + rest)[1..] == rest;
    case Letter => LetterReads(b, rest);
    case Shortest => OctalReads(ShortestDigits(b), b, rest);
    case Octal => OctalReads(OctalDigits(b), b, rest);
    case Hex => HexReads(b, rest);
  }

  lemma {:induction false} SpelledReads(bytes: Bytes, spellings: seq<Spelling>)
    requires Legible(bytes, spellings)
    ensures Decoded(Spelled(bytes, spellings)) == Word(bytes)
  {
    if bytes != [] {
      SpelledReads(bytes[1..], spellings[1..]);
      OneByteReads(bytes[0], spellings[0], Spelled(bytes[1..], spellings[1..]));
      assert [bytes[0]] + bytes[1..] == bytes;
    }
  }

  /** Decoding inverts every way the tracer may print a string. */
  lemma StringsInvert(bytes: Bytes, spellings: seq<Spelling>)
    requires Legible(bytes, spellings)
    ensures StringArgument(Quoted(bytes, spellings)) == Word(bytes)
  {
    var body := Spelled(bytes, spellings);
    var token := Quoted(bytes, spellings);
    SpelledReads(bytes, spellings);
    assert token[|token| - 1] == '"' && token[1..|token| - 1] == body;
    assert token[|token|..] == "";
  }

  /** A string with anything but blank text after its closing quote never reads: the tracer's
      mark for one it cut short is such a text. */
  lemma CutShortNeverReads(body: string, mark: string)
    requires !Blank(mark) && '"' !in mark
    ensures StringArgument("\"" + body + "\"" + mark) == NotAWord
  {
    var token := "\"" + body + "\"" + mark;
    var closing := |body| + 1;
    assert token[closing] == '"';
    assert forall i | closing < i < |token| :: token[i] == mark[i - closing - 1];
    assert token[closing + 1..] == mark;
  }

  function Inside(depth: int): Mode {
    Mode(depth, true, false)
  }

  lemma {:induction false} PlainTextWalks(text: string, depth: int)
    requires '"' !in text && '\\' !in text
    ensures Walk(text, Inside(depth)) == Some(Inside(depth))
  {
    if text != "" { PlainTextWalks(text[1..], depth); }
  }

  lemma SpelledByteWalks(b: byte, spelling: Spelling, depth: int)
    requires spelling.Plain? ==> 32 <= b < 127 && b != 34 && b != 92
    ensures Walk(SpelledByte(b, spelling), Inside(depth)) == Some(Inside(depth))
  {
    var text := SpelledByte(b, spelling);
    if spelling.Plain? {
      assert text[1..] == "";
    } else {
      assert Walk(text, Inside(depth)) == Walk(text[1..], Mode(depth, true, true));
      assert Walk(text[1..], Mode(depth, true, true)) == Walk(text[1..][1..], Inside(depth));
      DigitsMean(b);
      PlainTextWalks(text[1..][1..], depth);
    }
  }

  lemma {:induction false} SpelledWalks(bytes: Bytes, spellings: seq<Spelling>, depth: int)
    requires Legible(bytes, spellings)
    ensures Walk(Spelled(bytes, spellings), Inside(depth)) == Some(Inside(depth))
  {
    if bytes != [] {
      SpelledWalks(bytes[1..], spellings[1..], depth);
      SpelledByteWalks(bytes[0], spellings[0], depth);
      WalkBoth(SpelledByte(bytes[0], spellings[0]), Spelled(bytes[1..], spellings[1..]), Inside(depth));
    }
  }

  /** A printed string is one token to the splitter, whatever its bytes and however deep. */
  lemma QuotedWalks(bytes: Bytes, spellings: seq<Spelling>, depth: int)
    requires Legible(bytes, spellings)
    ensures Walk(Quoted(bytes, spellings), Mode(depth, false, false)) == Some(Mode(depth, false, false))
    ensures Trimmed(Quoted(bytes, spellings))
  {
    var body := Spelled(bytes, spellings);
    var token := Quoted(bytes, spellings);
    SpelledWalks(bytes, spellings, depth);
    assert token[1..] == body + "\"";
    WalkBoth(body, "\"", Inside(depth));
    assert "\""[1..] == "";
  }
}
