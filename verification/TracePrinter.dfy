/** Traces as a tracer prints them, from the calls themselves: what the reader is the inverse of. */
module TracePrinter {
  import opened Wrappers
  import opened ByteStrings
  import opened Chars
  import opened Decimal
  import opened TraceText
  import opened TraceReader

  // ------------------------------------------------------------ calls

  type Text = (Bytes, seq<Spelling>)

  /** A word of a list: a string, a string cut short at the tracer's limit, or anything else, the
      mark of an abbreviated list among them. */
  datatype ListWord = Named(text: Text) | Clipped(text: Text) | Odd(token: string)

  /** An argument: a path or other string, one cut short, a descriptor with the path the kernel
      resolved it to, a list, or anything else in the tracer's own notation. */
  datatype Arg = Str(text: Text) | Clip(text: Text) | Fd(shown: string, path: string)
               | List(words: seq<ListWord>) | Other(shown: string)

  /** One call as it happened, and the blank text the tracer happens to put around its parts. */
  datatype Call = Call(name: string, args: seq<Arg>, result: string,
                       pads: seq<string>, column: string, gap: string)

  predicate LegibleText(text: Text) {
    Legible(text.0, text.1)
  }

  function Quote(text: Text): string
    requires LegibleText(text)
  {
    Quoted(text.0, text.1)
  }

  const ELLIPSIS := "..."

  /** A token of its own, inside a list as outside one. */
  predicate WithinList(token: string) {
    Printable(token) && Walk(token, Mode(1, false, false)) == Some(Mode(1, false, false))
  }

  predicate WordOk(word: ListWord) {
    match word
    case Named(text) => LegibleText(text)
    case Clipped(text) => LegibleText(text)
    case Odd(token) => WithinList(token) && token[0] != '"'
  }

  predicate WordsOk(words: seq<ListWord>) {
    forall k | 0 <= k < |words| :: WordOk(words[k])
  }

  function WordToken(word: ListWord): string
    requires WordOk(word)
  {
    match word
    case Named(text) => Quote(text)
    case Clipped(text) => Quote(text) + ELLIPSIS
    case Odd(token) => token
  }

  function WordTokens(words: seq<ListWord>): (tokens: seq<string>)
    requires WordsOk(words)
    ensures |tokens| == |words| && forall k | 0 <= k < |words| :: tokens[k] == WordToken(words[k])
  {
    seq(|words|, k requires 0 <= k < |words| => WordToken(words[k]))
  }

  function Spaces(n: nat): (pads: seq<string>)
    ensures |pads| == n && forall k | 0 <= k < n :: pads[k] == " "
  {
    seq(n, _ => " ")
  }

  /** A list's text is its words' tokens with a comma and a blank between each two. */
  function Listed(words: seq<ListWord>): string
    requires WordsOk(words)
  {
    Joined(WordTokens(words), Spaces(|words|))
  }

  /** Neither a string nor a list nor a descriptor. */
  predicate Unlike(token: string)
    requires token != ""
  {
    var last := token[|token| - 1];
    token[0] != '"' && !(token[0] == '[' && last == ']') && !('<' in token && last == '>')
  }

  predicate ArgOk(arg: Arg) {
    match arg
    case Str(text) => LegibleText(text)
    case Clip(text) => LegibleText(text)
    case Fd(shown, path) =>
      '<' !in shown && (shown == "" || shown[0] != '"') && Printable(shown + "<" + path + ">")
    case List(words) => WordsOk(words)
    case Other(shown) => Printable(shown) && Unlike(shown)
  }

  function Token(arg: Arg): string
    requires ArgOk(arg)
  {
    match arg
    case Str(text) => Quote(text)
    case Clip(text) => Quote(text) + ELLIPSIS
    case Fd(shown, path) => shown + "<" + path + ">"
    case List(words) => "[" + Listed(words) + "]"
    case Other(shown) => shown
  }

  predicate CallOk(call: Call) {
    && call.name in TRACED_CALLS
    && (forall k | 0 <= k < |call.args| :: ArgOk(call.args[k]))
    && |call.pads| == |call.args| && (forall k | 0 <= k < |call.pads| :: Blank(call.pads[k]))
    && Blank(call.column) && Blank(call.gap)
    && call.result != "" && Trimmed(call.result) && Unambiguous(call.result)
    && !EndsWith(call.result, UNFINISHED)
  }

  function Tokens(args: seq<Arg>): (tokens: seq<string>)
    requires forall k | 0 <= k < |args| :: ArgOk(args[k])
    ensures |tokens| == |args| && forall k | 0 <= k < |args| :: tokens[k] == Token(args[k])
  {
    seq(|args|, k requires 0 <= k < |args| => Token(args[k]))
  }

  /** A call's text: its name, the text between its brackets, the column the tracer aligned its
      result to. */
  function BodyOf(name: string, inner: string, column: string, gap: string, result: string): string {
    name + "(" + inner + ")" + column + "=" + gap + result
  }

  // ------------------------------------------------------------ what a call says

  /** The path an argument stands for, from the argument and not from its text. */
  function PathOf(args: seq<Arg>, at: Position, cwd: Option<Bytes>): Word {
    if at.path >= |args| then NotAWord
    else
      match args[at.path]
      case Str(text) =>
        var directory := if at.directory.Some? && at.directory.value < |args|
                         then Directory(args[at.directory.value]) else None;
        Against(if directory.Some? then directory else cwd, text.0)
      case Fd(_, path) => if Undeleted(path) == "" then NotAWord else Word(Encoded(Undeleted(path)))
      case _ => NotAWord
  }

  /** The path the kernel resolved a descriptor to; nothing where the tracer put none. */
  function Directory(arg: Arg): Option<Bytes> {
    match arg
    case Fd(_, path) => if Undeleted(path) == "" then None else Some(Encoded(Undeleted(path)))
    case _ => None
  }

  /** A list says its words only where every one of them is whole. */
  function ArgvSaid(words: seq<ListWord>): Argv {
    if forall k | 0 <= k < |words| :: words[k].Named? then Argv(WordsOf(words)) else NoArgv
  }

  function WordsOf(words: seq<ListWord>): seq<Bytes>
    requires forall k | 0 <= k < |words| :: words[k].Named?
  {
    if words == [] then [] else [words[0].text.0] + WordsOf(words[1..])
  }

  function ArgvOfCall(args: seq<Arg>, position: nat): Argv {
    if position < |args| && args[position].List? then ArgvSaid(args[position].words) else NoArgv
  }

  function SaidBy(call: Call, cwd: Option<Bytes>): Said
    requires CallOk(call)
  {
    var positions := TRACED_CALLS[call.name].positions;
    var flags := FlagsPosition(call.name);
    Said(seq(|positions|, i requires 0 <= i < |positions| => PathOf(call.args, positions[i], cwd)),
         ArgvOfCall(call.args, ArgvPosition(call.name)),
         if flags < |call.args| then Some(Token(call.args[flags])) else None)
  }

  /** What the trace has to say once this call is complete. */
  function Told(state: State, number: nat, pid: nat, call: Call): Option<State>
    requires CallOk(call)
  {
    Taken(state, number, pid, call.name, SaidBy(call, state.cwd), call.result)
  }

  // ------------------------------------------------------------ tokens read back

  lemma FdReads(shown: string, path: string)
    requires ArgOk(Fd(shown, path))
    ensures var token := shown + "<" + path + ">";
            StringArgument(token) == NotAWord && ResolvedDescriptor(token) == Directory(Fd(shown, path))
  {
    var token := shown + "<" + path + ">";
    assert token[|shown|] == '<';
    assert forall i | 0 <= i < |shown| :: token[i] == shown[i];
    if shown == "" { assert token[0] == '<'; }
    assert Find(token, '<') == |shown|;
    assert token[|shown| + 1..|token| - 1] == path;
  }

  /** A string cut short names nothing. */
  lemma ClipReads(text: Text)
    requires LegibleText(text)
    ensures StringArgument(Quote(text) + ELLIPSIS) == NotAWord
    ensures ResolvedDescriptor(Quote(text) + ELLIPSIS) == None
  {
    assert ELLIPSIS[0] == '.' && !Blank(ELLIPSIS) && '"' !in ELLIPSIS;
    CutShortNeverReads(Spelled(text.0, text.1), ELLIPSIS);
    var token := Quote(text) + ELLIPSIS;
    assert token[|token| - 1] == '.';
  }

  lemma QuoteReads(text: Text)
    requires LegibleText(text)
    ensures StringArgument(Quote(text)) == Word(text.0) && ResolvedDescriptor(Quote(text)) == None
  {
    StringsInvert(text.0, text.1);
    var token := Quote(text);
    assert token[|token| - 1] == '"';
  }

  lemma UnlikeReads(token: string)
    requires token != "" && Unlike(token)
    ensures StringArgument(token) == NotAWord && ResolvedDescriptor(token) == None
  {
  }

  lemma ListEnds(words: seq<ListWord>)
    requires WordsOk(words)
    ensures var token := Token(List(words));
            && token[0] == '[' && token[|token| - 1] == ']' && |token| >= 2 && token[1..|token| - 1] == Listed(words)
            && StringArgument(token) == NotAWord && ResolvedDescriptor(token) == None
  {
    hide Listed;
  }

  /** Every token read as a descriptor is what its argument resolves to. */
  lemma DirectoryReads(arg: Arg)
    requires ArgOk(arg)
    ensures ResolvedDescriptor(Token(arg)) == Directory(arg)
  {
    hide StringArgument, ResolvedDescriptor, LegibleText, Listed, Quote, Trimmed, Balanced, Unlike, Undeleted;
    match arg
    case Str(text) => QuoteReads(text);
    case Clip(text) => ClipReads(text);
    case Fd(shown, path) => FdReads(shown, path);
    case List(words) => ListEnds(words);
    case Other(shown) => UnlikeReads(shown);
  }

  /** And read as a string, what it names if it is a whole one. */
  lemma StringReads(arg: Arg)
    requires ArgOk(arg)
    ensures StringArgument(Token(arg)) == if arg.Str? then Word(arg.text.0) else NotAWord
  {
    hide StringArgument, ResolvedDescriptor, LegibleText, Listed, Quote, Trimmed, Balanced, Unlike;
    match arg
    case Str(text) => QuoteReads(text);
    case Clip(text) => ClipReads(text);
    case Fd(shown, path) => FdReads(shown, path);
    case List(words) => ListEnds(words);
    case Other(shown) => UnlikeReads(shown);
  }

  lemma WordReads(word: ListWord)
    requires WordOk(word)
    ensures StringArgument(WordToken(word)) == if word.Named? then Word(word.text.0) else NotAWord
  {
    hide StringArgument, ResolvedDescriptor, LegibleText, Quote, Trimmed, Balanced;
    match word
    case Named(text) => QuoteReads(text);
    case Clipped(text) => ClipReads(text);
    case Odd(token) => OddReads(token);
  }

  lemma OddReads(token: string)
    requires token != "" && token[0] != '"'
    ensures StringArgument(token) == NotAWord
  {
  }

  lemma {:induction false} ListWordsRead(words: seq<ListWord>)
    requires WordsOk(words)
    ensures ArgvWords(WordTokens(words)) == ArgvSaid(words)
  {
    hide StringArgument, WordOk, WordToken;
    if words != [] {
      WordReads(words[0]);
      assert WordTokens(words)[0] == WordToken(words[0]);
      assert WordTokens(words)[1..] == WordTokens(words[1..]);
      ListWordsRead(words[1..]);
      assert words[0].Named? && ArgvSaid(words[1..]).Argv? ==> ArgvSaid(words).Argv? by {
        assert forall k | 1 <= k < |words| :: words[k] == words[1..][k - 1];
      }
      assert forall k | 0 <= k < |words| - 1 :: words[1..][k] == words[k + 1];
    }
  }

  // ------------------------------------------------------------ every argument is one token

  lemma DotsWalk(mode: Mode)
    requires !mode.quoted
    ensures Walk(ELLIPSIS, mode) == Some(mode)
  {
    assert ELLIPSIS[1..] == ".." && ".."[1..] == "." && "."[1..] == "";
    assert Walk("", mode) == Some(mode);
    assert Walk(".", mode) == Walk("", mode) && Walk("..", mode) == Walk(".", mode);
  }

  lemma ClipWalks(text: Text, depth: int)
    requires LegibleText(text)
    ensures var token := Quote(text) + ELLIPSIS;
            Walk(token, Mode(depth, false, false)) == Some(Mode(depth, false, false)) && Trimmed(token) && token != ""
  {
    var mode := Mode(depth, false, false);
    QuotedWalks(text.0, text.1, depth);
    DotsWalk(mode);
    hide Legible;
    WalkBoth(Quote(text), ELLIPSIS, mode);
    var token := Quote(text) + ELLIPSIS;
    assert token[0] == '"' && token[|token| - 1] == '.';
  }

  lemma WordWalks(word: ListWord)
    requires WordOk(word)
    ensures WithinList(WordToken(word))
  {
    match word
    case Named(text) => QuotedWalks(text.0, text.1, 0); QuotedWalks(text.0, text.1, 1);
    case Clipped(text) => ClipWalks(text, 0); ClipWalks(text, 1);
    case Odd(token) =>
  }

  lemma ListReads(words: seq<ListWord>)
    requires WordsOk(words)
    ensures Arguments(Listed(words)) == WordTokens(words)
    ensures ArgvWords(Arguments(Listed(words))) == ArgvSaid(words)
  {
    var tokens := WordTokens(words);
    hide WordOk, WordToken, ArgvSaid, ArgvWords;
    forall k | 0 <= k < |tokens| ensures Printable(tokens[k]) {
      WordWalks(words[k]);
    }
    hide Printable;
    ArgumentsInvertJoined(tokens, Spaces(|words|));
    ListWordsRead(words);
  }

  lemma ArgvReads(args: seq<Arg>, position: nat)
    requires forall k | 0 <= k < |args| :: ArgOk(args[k])
    ensures ArgvOf(Tokens(args), position) == ArgvOfCall(args, position)
  {
    if position < |args| {
      hide Listed, ArgvWords, Arguments, ArgvSaid, WordsOk, Quote, LegibleText, Tokens;
      var arg := args[position];
      assert Tokens(args)[position] == Token(arg);
      match arg
      case List(words) =>
        ListReads(words);
        ListEnds(words);
      case Str(text) => assert Token(arg)[0] == '"' by { StartsQuoted(text); }
      case Clip(text) => assert Token(arg)[0] == '"' by { StartsQuoted(text); }
      case Fd(shown, path) => assert Token(arg)[|Token(arg)| - 1] == '>';
      case Other(shown) =>
    }
  }

  lemma StartsQuoted(text: Text)
    requires LegibleText(text)
    ensures Quote(text) != "" && Quote(text)[0] == '"'
  {
  }

  lemma {:induction false} ListWalks(words: seq<ListWord>)
    requires WordsOk(words)
    ensures Walk(Listed(words), Mode(1, false, false)) == Some(Mode(1, false, false))
  {
    if words != [] {
      WordWalks(words[0]);
      if |words| > 1 {
        ListWalks(words[1..]);
        ListOpens(words);
        hide Listed, WordToken, WordOk;
        CommaWalks(WordToken(words[0]), Listed(words[1..]));
      }
    }
  }

  lemma ListOpens(words: seq<ListWord>)
    requires WordsOk(words) && |words| > 1
    ensures Listed(words) == WordToken(words[0]) + (", " + Listed(words[1..]))
  {
    hide WordToken, WordOk;
    assert WordTokens(words)[1..] == WordTokens(words[1..]);
    assert Spaces(|words|)[1..] == Spaces(|words| - 1);
  }

  lemma CommaWalks(first: string, rest: string)
    requires Walk(first, Mode(1, false, false)) == Some(Mode(1, false, false))
    requires Walk(rest, Mode(1, false, false)) == Some(Mode(1, false, false))
    ensures Walk(first + (", " + rest), Mode(1, false, false)) == Some(Mode(1, false, false))
  {
    var deep := Mode(1, false, false);
    assert (", " + rest)[1..] == " " + rest && (" " + rest)[1..] == rest;
    assert Walk(", " + rest, deep) == Walk(" " + rest, deep) == Walk(rest, deep);
    WalkBoth(first, ", " + rest, deep);
  }

  lemma BracketsWalk(inside: string)
    requires Walk(inside, Mode(1, false, false)) == Some(Mode(1, false, false))
    ensures Printable("[" + inside + "]")
  {
    var token, deep := "[" + inside + "]", Mode(1, false, false);
    assert token[1..] == inside + "]" && "]"[1..] == "";
    assert Walk("]", deep) == Walk("", OUTSIDE) == Some(OUTSIDE);
    WalkBoth(inside, "]", deep);
    assert Walk(token, OUTSIDE) == Walk(inside + "]", deep);
    assert token[0] == '[' && token[|token| - 1] == ']';
  }

  lemma ListIsPrintable(words: seq<ListWord>)
    requires WordsOk(words)
    ensures Printable(Token(List(words)))
  {
    hide Listed, WordsOk, Walk, Printable;
    ListWalks(words);
    BracketsWalk(Listed(words));
  }

  lemma TokenIsPrintable(arg: Arg)
    requires ArgOk(arg)
    ensures Printable(Token(arg))
  {
    match arg
    case Str(text) => QuotedWalks(text.0, text.1, 0);
    case Clip(text) => ClipWalks(text, 0);
    case List(words) => ListIsPrintable(words);
    case _ =>
  }

  // ------------------------------------------------------------ one call read back

  lemma PathReads(args: seq<Arg>, at: Position, cwd: Option<Bytes>)
    requires forall k | 0 <= k < |args| :: ArgOk(args[k])
    ensures PathArgument(Tokens(args), at, cwd) == PathOf(args, at, cwd)
  {
    hide ArgOk, Token, StringArgument, ResolvedDescriptor, Against, Undeleted;
    if at.path < |args| {
      StringReads(args[at.path]);
      DirectoryReads(args[at.path]);
      if at.directory.Some? && at.directory.value < |args| { DirectoryReads(args[at.directory.value]); }
    }
  }

  /** What the reader hears in the printed tokens is what the call says. */
  lemma HeardIsSaid(call: Call, cwd: Option<Bytes>)
    requires CallOk(call)
    ensures Heard(call.name, Tokens(call.args), cwd) == SaidBy(call, cwd)
  {
    var row := TRACED_CALLS[call.name];
    var heard := Heard(call.name, Tokens(call.args), cwd);
    var said := SaidBy(call, cwd);
    hide ArgOk, Token, PathArgument, PathOf, ArgvOf, ArgvOfCall, Unambiguous, Trimmed, EndsWith, TRACED_CALLS;
    forall i | 0 <= i < |row.positions| ensures heard.paths[i] == said.paths[i] {
      PathReads(call.args, row.positions[i], cwd);
    }
    assert heard.paths == said.paths;
    ArgvReads(call.args, ArgvPosition(call.name));
  }
}
