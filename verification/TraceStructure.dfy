/** What the splitter of arguments makes one argument, told by the structure of its text; and what the bytes of
    a character are. */
module TraceStructure {
  import opened Wrappers
  import opened ByteStrings
  import opened Chars
  import opened TraceText

  // ------------------------------------------------------------ what one argument may be

  /** An argument's text by its structure: strings, bracketed parts in any of the four brackets, nested to any
      depth, and plain text between them. */
  datatype Shape = Text(bytes: Bytes, spellings: seq<Spelling>)
                 | Simple(text: string)
                 | Bracketed(start: char, inner: Shapes, end: char)

  datatype Shapes = Empty | Chain(first: Shape, rest: Shapes)

  /** Plain text holds no quote and no bracket; a comma only within brackets. */
  predicate SimpleOk(text: string, commas: bool) {
    && (commas || ',' !in text) && '"' !in text
    && '(' !in text && ')' !in text && '[' !in text && ']' !in text
    && '{' !in text && '}' !in text && '<' !in text && '>' !in text
  }

  predicate Brackets(start: char, end: char) {
    || (start == '(' && end == ')') || (start == '[' && end == ']')
    || (start == '{' && end == '}') || (start == '<' && end == '>')
  }

  predicate ShapeOk(shape: Shape, commas: bool) {
    match shape
    case Text(bytes, spellings) => Legible(bytes, spellings)
    case Simple(text) => SimpleOk(text, commas)
    case Bracketed(start, inner, end) => Brackets(start, end) && ShapesOk(inner, true)
  }

  predicate ShapesOk(shapes: Shapes, commas: bool) {
    match shapes
    case Empty => true
    case Chain(first, rest) => ShapeOk(first, commas) && ShapesOk(rest, commas)
  }

  function ShapeText(shape: Shape, commas: bool): string
    requires ShapeOk(shape, commas)
  {
    match shape
    case Text(bytes, spellings) => Quoted(bytes, spellings)
    case Simple(text) => text
    case Bracketed(start, inner, end) => [start] + ShapesText(inner, true) + [end]
  }

  function ShapesText(shapes: Shapes, commas: bool): string
    requires ShapesOk(shapes, commas)
  {
    match shapes
    case Empty => ""
    case Chain(first, rest) => ShapeText(first, commas) + ShapesText(rest, commas)
  }

  lemma {:induction false} SimpleWalks(text: string, commas: bool, depth: nat)
    requires SimpleOk(text, commas) && (commas ==> depth > 0)
    ensures Walk(text, Mode(depth, false, false)) == Some(Mode(depth, false, false))
  {
    if text != "" {
      var c := text[0];
      assert c in text;
      assert Next(Mode(depth, false, false), c) == Mode(depth, false, false);
      SimpleWalks(text[1..], commas, depth);
    }
  }

  lemma BracketsWalk(start: char, inside: string, end: char, depth: nat)
    requires Brackets(start, end)
    requires Walk(inside, Mode(depth + 1, false, false)) == Some(Mode(depth + 1, false, false))
    ensures Walk([start] + inside + [end], Mode(depth, false, false)) == Some(Mode(depth, false, false))
  {
    var outer, deep := Mode(depth, false, false), Mode(depth + 1, false, false);
    var text := [start] + (inside + [end]);
    assert text == [start] + inside + [end] && text[1..] == inside + [end] && [end][1..] == "";
    assert Next(outer, start) == deep && Next(deep, end) == outer && !Splits(outer, start) && !Splits(deep, end);
    WalkBoth(inside, [end], deep);
    assert Walk("", outer) == Some(outer);
    assert Walk([end], deep) == Some(outer);
  }

  lemma {:induction false} ShapeWalks(shape: Shape, commas: bool, depth: nat)
    requires ShapeOk(shape, commas) && (commas ==> depth > 0)
    ensures Walk(ShapeText(shape, commas), Mode(depth, false, false)) == Some(Mode(depth, false, false))
    decreases shape
  {
    hide Walk, SimpleOk, Brackets, Legible, Quoted;
    match shape
    case Text(bytes, spellings) => QuotedWalks(bytes, spellings, depth);
    case Simple(text) => SimpleWalks(text, commas, depth);
    case Bracketed(start, inner, end) =>
      ShapesWalk(inner, true, depth + 1);
      BracketsWalk(start, ShapesText(inner, true), end, depth);
  }

  lemma {:induction false} ShapesWalk(shapes: Shapes, commas: bool, depth: nat)
    requires ShapesOk(shapes, commas) && (commas ==> depth > 0)
    ensures Walk(ShapesText(shapes, commas), Mode(depth, false, false)) == Some(Mode(depth, false, false))
    decreases shapes
  {
    match shapes
    case Empty =>
    case Chain(first, rest) =>
      hide Walk;
      ShapeWalks(first, commas, depth);
      ShapesWalk(rest, commas, depth);
      WalkBoth(ShapeText(first, commas), ShapesText(rest, commas), Mode(depth, false, false));
  }

  /** Of any such structure without a comma outside its brackets the splitter makes one argument: commas in
      strings and in brackets divide nothing, and those between arguments divide everything. */
  lemma StructureIsOneArgument(shapes: seq<Shapes>, pads: seq<string>)
    requires |pads| == |shapes| && forall k | 0 <= k < |pads| :: Blank(pads[k])
    requires forall k | 0 <= k < |shapes| ::
               ShapesOk(shapes[k], false) && ShapesText(shapes[k], false) != "" && Trimmed(ShapesText(shapes[k], false))
    ensures var tokens := seq(|shapes|, k requires 0 <= k < |shapes| => ShapesText(shapes[k], false));
            Arguments(Joined(tokens, pads)) == tokens
  {
    var tokens := seq(|shapes|, k requires 0 <= k < |shapes| => ShapesText(shapes[k], false));
    forall k | 0 <= k < |tokens| ensures Printable(tokens[k]) {
      ShapesWalk(shapes[k], false, 0);
    }
    hide Printable, Walk;
    ArgumentsInvertJoined(tokens, pads);
  }

  // ------------------------------------------------------------ characters as bytes

  /** The six bits a byte carries behind the first. */
  function Six(b: byte): int {
    b as int - 0x80
  }

  /** The code of the one character that so many bytes stand for, as section 3 of RFC 3629 lays them out. */
  function CodeOf(bytes: Bytes): Option<int> {
    if |bytes| == 1 && bytes[0] <= 0x7F then Some(bytes[0])
    else if exists i :: 1 <= i < |bytes| && !(0x80 <= bytes[i] <= 0xBF) then None
    else if |bytes| == 2 && 0xC2 <= bytes[0] <= 0xDF then Some((bytes[0] as int - 0xC0) * 0x40 + Six(bytes[1]))
    else if |bytes| == 3 && 0xE0 <= bytes[0] <= 0xEF then
      var code := (bytes[0] as int - 0xE0) * 0x1000 + Six(bytes[1]) * 0x40 + Six(bytes[2]);
      if code < 0x800 then None else Some(code)
    else if |bytes| == 4 && 0xF0 <= bytes[0] <= 0xF4 then
      var code := (bytes[0] as int - 0xF0) * 0x40000 + Six(bytes[1]) * 0x1000 + Six(bytes[2]) * 0x40 + Six(bytes[3]);
      if code < 0x10000 then None else Some(code)
    else None
  }

  lemma Sixes(code: nat)
    ensures code == code / 64 * 64 + code % 64
    ensures code / 64 == code / 4096 * 64 + code / 64 % 64
    ensures code / 4096 == code / 262144 * 64 + code / 4096 % 64
  {
  }

  /** Whatever the character, the bytes written for it are its own. */
  lemma CharactersRead(c: char)
    ensures CodeOf(Utf8(c)) == Some(c as int)
  {
    var code := c as int;
    Sixes(code);
    if code < 0x80 {
    } else if code < 0x800 {
      TwoRead(code);
    } else if code < 0x10000 {
      ThreeRead(code);
    } else {
      FourRead(code);
    }
  }

  lemma TwoRead(code: int)
    requires 0x80 <= code < 0x800
    ensures CodeOf([0xC0 + code / 64, 0x80 + code % 64]) == Some(code)
  {
    Sixes(code);
    var bytes: Bytes := [0xC0 + code / 64, 0x80 + code % 64];
    assert forall i | 1 <= i < |bytes| :: 0x80 <= bytes[i] <= 0xBF;
  }

  lemma ThreeRead(code: int)
    requires 0x800 <= code < 0x10000
    ensures CodeOf([0xE0 + code / 4096, 0x80 + code / 64 % 64, 0x80 + code % 64]) == Some(code)
  {
    Sixes(code);
    var bytes: Bytes := [0xE0 + code / 4096, 0x80 + code / 64 % 64, 0x80 + code % 64];
    assert forall i | 1 <= i < |bytes| :: 0x80 <= bytes[i] <= 0xBF;
  }

  lemma FourRead(code: int)
    requires 0x10000 <= code < 0x110000
    ensures CodeOf([0xF0 + code / 262144, 0x80 + code / 4096 % 64, 0x80 + code / 64 % 64, 0x80 + code % 64])
            == Some(code)
  {
    Sixes(code);
    var bytes: Bytes := [0xF0 + code / 262144, 0x80 + code / 4096 % 64, 0x80 + code / 64 % 64, 0x80 + code % 64];
    assert forall i | 1 <= i < |bytes| :: 0x80 <= bytes[i] <= 0xBF;
  }
}
