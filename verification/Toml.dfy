/** The registrations this command writes into a TOML file, and a reader of that much of TOML. */
module Toml {
  import opened Wrappers

  // ------------------------------------------------------------ writing

  function HexChar(n: nat): char
    requires n < 16
  {
    if n < 10 then '0' + n as char else 'A' + (n - 10) as char
  }

  /** Four upper-case hexadecimal digits. */
  function Hex4(code: nat): string
    requires code < 0x10000
  {
    [HexChar(code / 4096), HexChar(code / 256 % 16), HexChar(code / 16 % 16), HexChar(code % 16)]
  }

  /** The letter of a short escape. */
  function ShortEscape(c: char): Option<char> {
    var code := c as int;
    if code == 0x08 then Some('b') else if code == 0x09 then Some('t') else if code == 0x0A then Some('n')
    else if code == 0x0C then Some('f') else if code == 0x0D then Some('r')
    else if c == '"' then Some('"') else if c == '\\' then Some('\\') else None
  }

  predicate IsControl(c: char) {
    c as int < 0x20 || c as int == 0x7F
  }

  function Escaped(c: char): string {
    if ShortEscape(c).Some? then ['\\', ShortEscape(c).value]
    else if IsControl(c) then "\\u" + Hex4(c as int)
    else [c]
  }

  function EscapedAll(value: string): string {
    if value == "" then "" else Escaped(value[0]) + EscapedAll(value[1..])
  }

  /** A basic string. */
  function Quote(value: string): string {
    "\"" + EscapedAll(value) + "\""
  }

  lemma {:induction false} EscapedBoth(a: string, b: string)
    ensures EscapedAll(a + b) == EscapedAll(a) + EscapedAll(b)
  {
    if a == "" {
      assert a + b == b;
    } else {
      assert (a + b)[1..] == a[1..] + b;
      EscapedBoth(a[1..], b);
    }
  }

  method WriteQuoted(value: string) returns (out: string)
    ensures out == Quote(value)
  {
    hide Escaped;
    out := "\"";
    for i := 0 to |value|
      invariant out == "\"" + EscapedAll(value[..i])
    {
      assert value[..i + 1] == value[..i] + [value[i]];
      EscapedBoth(value[..i], [value[i]]);
      out := out + Escaped(value[i]);
    }
    assert value[..|value|] == value;
    out := out + "\"";
  }

  predicate IsBare(c: char) {
    'A' <= c <= 'Z' || 'a' <= c <= 'z' || '0' <= c <= '9' || c == '_' || c == '-'
  }

  predicate BareKey(name: string) {
    name != "" && forall i | 0 <= i < |name| :: IsBare(name[i])
  }

  function Key(name: string): string {
    if BareKey(name) then name else Quote(name)
  }

  function QuotedList(args: seq<string>): string {
    if args == [] then ""
    else if |args| == 1 then Quote(args[0])
    else Quote(args[0]) + ", " + QuotedList(args[1..])
  }

  const HEADER := "[mcp_servers."
  const COMMAND := "command = "
  const ARGS := "args = ["

  function Render(name: string, command: string, args: seq<string>): string {
    HEADER + Key(name) + "]\n" + COMMAND + Quote(command)
    + (if args == [] then "" else "\n" + ARGS + QuotedList(args) + "]") + "\n"
  }

  // ------------------------------------------------------------ reading

  function HexValue(c: char): Option<nat> {
    if '0' <= c <= '9' then Some(c as nat - '0' as nat)
    else if 'A' <= c <= 'F' then Some(c as nat - 'A' as nat + 10)
    else if 'a' <= c <= 'f' then Some(c as nat - 'a' as nat + 10)
    else None
  }

  /** A scalar value of four hexadecimal digits, as section "String" of TOML v1.0.0 asks. */
  function Unhex4(text: string): Option<char> {
    if |text| < 4 || exists i :: 0 <= i < 4 && HexValue(text[i]) == None then None
    else
      var code := ((HexValue(text[0]).value * 16 + HexValue(text[1]).value) * 16 + HexValue(text[2]).value) * 16
                  + HexValue(text[3]).value;
      if 0xD800 <= code < 0xE000 then None else Some(code as char)
  }

  function Unescape(letter: char): Option<char> {
    if letter == 'b' then Some(0x08 as char) else if letter == 't' then Some(0x09 as char)
    else if letter == 'n' then Some(0x0A as char) else if letter == 'f' then Some(0x0C as char)
    else if letter == 'r' then Some(0x0D as char)
    else if letter == '"' then Some('"') else if letter == '\\' then Some('\\') else None
  }

  function Prepend(c: char, read: Option<(string, string)>): Option<(string, string)> {
    match read
    case Some((value, rest)) => Some(([c] + value, rest))
    case None => None
  }

  /** What may not stand in a basic string unescaped: a control character other than a tab. */
  predicate MustBeEscaped(c: char) {
    var code := c as int;
    code <= 0x08 || 0x0A <= code <= 0x1F || code == 0x7F
  }

  /** The inside of a basic string up to its closing quote. */
  function ReadInside(text: string): Option<(string, string)>
    ensures ReadInside(text).Some? ==> |ReadInside(text).value.1| < |text|
    decreases |text|
  {
    if text == "" then None
    else if text[0] == '"' then Some(("", text[1..]))
    else if text[0] == '\\' then
      if |text| < 2 then None
      else if text[1] == 'u' then
        match Unhex4(text[2..])
        case Some(c) => Prepend(c, ReadInside(text[6..]))
        case None => None
      else
        match Unescape(text[1])
        case Some(c) => Prepend(c, ReadInside(text[2..]))
        case None => None
    else if MustBeEscaped(text[0]) then None
    else Prepend(text[0], ReadInside(text[1..]))
  }

  function ReadString(text: string): Option<(string, string)>
    ensures ReadString(text).Some? ==> |ReadString(text).value.1| < |text|
  {
    if text == "" || text[0] != '"' then None else ReadInside(text[1..])
  }

  /** A letter, a digit, an underscore or a dash of ASCII, by its code. */
  predicate MayBeBare(c: char) {
    var code := c as int;
    0x41 <= code <= 0x5A || 0x61 <= code <= 0x7A || 0x30 <= code <= 0x39 || code == 0x5F || code == 0x2D
  }

  function BareEnd(text: string): (n: nat)
    ensures n <= |text|
  {
    if text == "" || !MayBeBare(text[0]) then 0 else 1 + BareEnd(text[1..])
  }

  /** A bare or a quoted key. */
  function ReadKey(text: string): Option<(string, string)>
    ensures ReadKey(text).Some? ==> |ReadKey(text).value.1| < |text|
  {
    if text != "" && text[0] == '"' then ReadString(text)
    else
      var n := BareEnd(text);
      if n == 0 then None else Some((text[..n], text[n..]))
  }

  function Drop(text: string, prefix: string): Option<string>
    ensures Drop(text, prefix).Some? ==> text == prefix + Drop(text, prefix).value
  {
    if |prefix| <= |text| && text[..|prefix|] == prefix then Some(text[|prefix|..]) else None
  }

  /** An array of strings after its opening bracket. */
  function ReadList(text: string): Option<(seq<string>, string)>
    ensures ReadList(text).Some? ==> |ReadList(text).value.1| < |text|
    decreases |text|
  {
    match ReadString(text)
    case None => None
    case Some((first, rest)) =>
      if Drop(rest, "]").Some? then Some(([first], Drop(rest, "]").value))
      else if Drop(rest, ", ").Some? then
        match ReadList(Drop(rest, ", ").value)
        case None => None
        case Some((others, after)) => Some(([first] + others, after))
      else None
  }

  datatype Server = Server(command: string, args: seq<string>)

  /** One registration: a table header, a command, and a list of arguments where there are any. */
  function ReadServer(text: string): Option<(string, Server, string)>
    ensures ReadServer(text).Some? ==> |ReadServer(text).value.2| < |text|
  {
    var named := Drop(text, "[mcp_servers.");
    if named == None then None
    else
      match ReadKey(named.value)
      case None => None
      case Some((name, afterName)) =>
        var body := Drop(afterName, "]\ncommand = ");
        if body == None then None
        else
          match ReadString(body.value)
          case None => None
          case Some((command, afterCommand)) =>
            if Drop(afterCommand, "\nargs = [").Some? then
              match ReadList(Drop(afterCommand, "\nargs = [").value)
              case None => None
              case Some((args, afterArgs)) =>
                if Drop(afterArgs, "\n").Some? then Some((name, Server(command, args), Drop(afterArgs, "\n").value))
                else None
            else if Drop(afterCommand, "\n").Some? then
              Some((name, Server(command, []), Drop(afterCommand, "\n").value))
            else None
  }

  /** A file of such registrations with empty lines between them; a table may not be defined twice. */
  function ReadServers(text: string, seen: map<string, Server>): Option<map<string, Server>>
    decreases |text|
  {
    if text == "" then Some(seen)
    else if text[0] == '\n' then ReadServers(text[1..], seen)
    else
      match ReadServer(text)
      case None => None
      case Some((name, server, rest)) =>
        if name in seen then None else ReadServers(rest, seen[name := server])
  }

  // ------------------------------------------------------------ what is written reads back

  lemma HexReads(code: nat, rest: string)
    requires code < 0x80
    ensures Unhex4(Hex4(code) + rest) == Some(code as char)
  {
    var text := Hex4(code) + rest;
    assert HexValue(text[0]) == Some(0) && HexValue(text[1]) == Some(0);
    assert HexValue(text[2]) == Some(code / 16) && HexValue(text[3]) == Some(code % 16);
  }

  lemma EscapesUndo(c: char)
    requires ShortEscape(c).Some?
    ensures Unescape(ShortEscape(c).value) == Some(c) && ShortEscape(c).value != 'u'
  {
  }

  lemma ShortReads(c: char, rest: string)
    requires ShortEscape(c).Some?
    ensures ReadInside(Escaped(c) + rest) == Prepend(c, ReadInside(rest))
  {
    EscapesUndo(c);
    hide ShortEscape, Unescape, Unhex4;
    var text := Escaped(c) + rest;
    assert text[0] == '\\' && text[1] == ShortEscape(c).value && text[2..] == rest;
  }

  lemma ControlReads(c: char, rest: string)
    requires ShortEscape(c) == None && IsControl(c)
    ensures ReadInside(Escaped(c) + rest) == Prepend(c, ReadInside(rest))
  {
    var code := c as int;
    var text := Escaped(c) + rest;
    HexReads(code, rest);
    hide Unhex4, Hex4, ShortEscape, Unescape;
    assert text[0] == '\\' && text[1] == 'u' && text[2..] == Hex4(code) + rest && text[6..] == rest;
  }

  lemma CharReads(c: char, rest: string)
    ensures ReadInside(Escaped(c) + rest) == Prepend(c, ReadInside(rest))
  {
    if ShortEscape(c).Some? {
      ShortReads(c, rest);
    } else if IsControl(c) {
      ControlReads(c, rest);
    } else {
      assert (Escaped(c) + rest)[1..] == rest;
    }
  }

  lemma {:induction false} InsideReads(value: string, rest: string)
    ensures ReadInside(EscapedAll(value) + "\"" + rest) == Some((value, rest))
  {
    if value == "" {
      assert ("" + "\"" + rest)[1..] == rest;
    } else {
      var tail := EscapedAll(value[1..]) + "\"" + rest;
      assert EscapedAll(value) + "\"" + rest == Escaped(value[0]) + tail;
      CharReads(value[0], tail);
      InsideReads(value[1..], rest);
      hide Escaped;
      assert [value[0]] + value[1..] == value;
    }
  }

  /** A written string reads back as itself, whatever is in it and whatever follows it. */
  lemma StringReads(value: string, rest: string)
    ensures ReadString(Quote(value) + rest) == Some((value, rest))
  {
    assert (Quote(value) + rest)[1..] == EscapedAll(value) + "\"" + rest;
    InsideReads(value, rest);
  }

  lemma {:induction false} BareReads(name: string, rest: string)
    requires (forall i | 0 <= i < |name| :: IsBare(name[i])) && (rest == "" || !MayBeBare(rest[0]))
    ensures BareEnd(name + rest) == |name|
  {
    if name == "" {
      assert name + rest == rest;
    } else {
      assert (name + rest)[1..] == name[1..] + rest;
      BareReads(name[1..], rest);
    }
  }

  /** A written name reads back as itself: one with a dot in it stays one name. */
  lemma KeyReads(name: string, rest: string)
    requires rest == "" || !MayBeBare(rest[0])
    ensures ReadKey(Key(name) + rest) == Some((name, rest))
  {
    var text := Key(name) + rest;
    if BareKey(name) {
      BareReads(name, rest);
      assert text[0] == name[0] && IsBare(name[0]);
      assert text[..|name|] == name && text[|name|..] == rest;
    } else {
      StringReads(name, rest);
    }
  }

  lemma Drops(prefix: string, rest: string)
    ensures Drop(prefix + rest, prefix) == Some(rest)
  {
  }

  lemma {:induction false} ListReads(args: seq<string>, rest: string)
    requires args != []
    ensures ReadList(QuotedList(args) + "]" + rest) == Some((args, rest))
  {
    var text := QuotedList(args) + "]" + rest;
    if |args| == 1 {
      ListEnds(args[0], rest);
      assert args == [args[0]];
    } else {
      var tail := QuotedList(args[1..]) + "]" + rest;
      assert text == Quote(args[0]) + (", " + tail);
      ListReads(args[1..], rest);
      ListGoesOn(args[0], args[1..], tail, rest);
      assert [args[0]] + args[1..] == args;
    }
  }

  lemma ListEnds(arg: string, rest: string)
    ensures ReadList(Quote(arg) + "]" + rest) == Some(([arg], rest))
  {
    hide Quote, ReadString, Drop;
    assert Quote(arg) + "]" + rest == Quote(arg) + ("]" + rest);
    StringReads(arg, "]" + rest);
    Drops("]", rest);
  }

  lemma ListGoesOn(arg: string, others: seq<string>, tail: string, rest: string)
    requires ReadList(tail) == Some((others, rest))
    ensures ReadList(Quote(arg) + (", " + tail)) == Some(([arg] + others, rest))
  {
    hide Quote, ReadString, Drop;
    StringReads(arg, ", " + tail);
    Drops(", ", tail);
    DropAt(", " + tail, "]", 0);
  }

  /** What may follow one registration in such a file: its end, an empty line, the next table. */
  predicate StartsAnew(rest: string) {
    rest == "" || rest[0] == '\n' || rest[0] == '['
  }

  lemma DropAt(text: string, prefix: string, i: nat)
    requires i < |prefix|
    ensures Drop(text, prefix).Some? ==> i < |text| && text[i] == prefix[i]
  {
    if Drop(text, prefix).Some? { assert text[..|prefix|][i] == text[i]; }
  }

  lemma ArgsLineIsNot(rest: string)
    requires StartsAnew(rest)
    ensures Drop("\n" + rest, "\nargs = [") == None
  {
    if rest != "" {
      assert ("\n" + rest)[1] == rest[0];
      assert "\nargs = ["[1] == 'a';
      DropAt("\n" + rest, "\nargs = [", 1);
    }
  }

  /** The reader's words are the writer's. */
  lemma MarksRead(rest: string)
    ensures Drop(HEADER + rest, "[mcp_servers.") == Some(rest)
    ensures Drop("]\n" + COMMAND + rest, "]\ncommand = ") == Some(rest)
    ensures Drop("\n" + ARGS + rest, "\nargs = [") == Some(rest)
  {
    hide Drop;
    Drops("[mcp_servers.", rest);
    Drops("]\ncommand = ", rest);
    Drops("\nargs = [", rest);
    assert "]\n" + COMMAND == "]\ncommand = " && "\n" + ARGS == "\nargs = [";
  }

  lemma ServerOf(text: string, named: string, name: string, afterName: string, body: string, command: string,
                 afterCommand: string, args: seq<string>, rest: string)
    requires Drop(text, "[mcp_servers.") == Some(named) && ReadKey(named) == Some((name, afterName))
    requires Drop(afterName, "]\ncommand = ") == Some(body) && ReadString(body) == Some((command, afterCommand))
    requires if args == [] then Drop(afterCommand, "\nargs = [") == None && Drop(afterCommand, "\n") == Some(rest)
             else && Drop(afterCommand, "\nargs = [").Some?
                  && ReadList(Drop(afterCommand, "\nargs = [").value) == Some((args, "\n" + rest))
    ensures ReadServer(text) == Some((name, Server(command, args), rest))
  {
    Drops("\n", rest);
    hide Drop, ReadKey, ReadString, ReadList;
  }

  function Body(command: string, args: seq<string>, rest: string): string {
    Quote(command) + (if args == [] then "\n" + rest else "\n" + ARGS + (QuotedList(args) + "]" + ("\n" + rest)))
  }

  lemma RenderOpens(name: string, command: string, args: seq<string>, rest: string)
    ensures Render(name, command, args) + rest
            == HEADER + (Key(name) + ("]\n" + COMMAND + Body(command, args, rest)))
  {
    hide Quote, Key, QuotedList;
  }

  /** A written registration reads back as exactly that registration. */
  lemma ServerReads(name: string, command: string, args: seq<string>, rest: string)
    requires StartsAnew(rest)
    ensures ReadServer(Render(name, command, args) + rest) == Some((name, Server(command, args), rest))
  {
    hide *;
    var body := Body(command, args, rest);
    var named, afterName := Key(name) + ("]\n" + COMMAND + body), "]\n" + COMMAND + body;
    RenderOpens(name, command, args, rest);
    MarksRead(named);
    MarksRead(body);
    assert afterName[0] == ']';
    BracketIsNotBare();
    KeyReads(name, afterName);
    if args == [] {
      BodyAlone(command, rest);
      StringReads(command, "\n" + rest);
      ArgsLineIsNot(rest);
      Drops("\n", rest);
      ServerOf(Render(name, command, args) + rest, named, name, afterName, body, command, "\n" + rest, args, rest);
    } else {
      var list := QuotedList(args) + "]" + ("\n" + rest);
      BodyListed(command, args, rest);
      StringReads(command, "\n" + ARGS + list);
      MarksRead(list);
      ListReads(args, "\n" + rest);
      ServerOf(Render(name, command, args) + rest, named, name, afterName, body, command, "\n" + ARGS + list, args, rest);
    }
  }

  lemma BracketIsNotBare()
    ensures !MayBeBare(']')
  {
  }

  lemma BodyAlone(command: string, rest: string)
    ensures Body(command, [], rest) == Quote(command) + ("\n" + rest)
  {
    hide Quote;
  }

  lemma BodyListed(command: string, args: seq<string>, rest: string)
    requires args != []
    ensures Body(command, args, rest) == Quote(command) + ("\n" + ARGS + (QuotedList(args) + "]" + ("\n" + rest)))
  {
    hide Quote, QuotedList;
  }

  // ------------------------------------------------------------ registering

  /** A registration as a reader of the whole file projects it; a field may be missing. */
  datatype Entry = Entry(command: Option<string>, args: Option<seq<string>>)

  /** What a reader makes of a text: every registration, or nothing where it cannot be read. */
  type View = Option<map<string, Entry>>

  datatype Outcome = Linked | Created | Conflict | Unreadable

  predicate Says(entry: Entry, command: string, args: seq<string>) {
    entry.command == Some(command) && entry.args.GetOr([]) == args
  }

  predicate EndsWith(text: string, suffix: string) {
    |suffix| <= |text| && text[|text| - |suffix|..] == suffix
  }

  function Separator(text: string): string {
    if text == "" || EndsWith(text, "\n\n") then "" else if EndsWith(text, "\n") then "\n" else "\n\n"
  }

  function Proposal(text: string, name: string, command: string, args: seq<string>): string {
    text + Separator(text) + Render(name, command, args)
  }

  /** The proposal is read back: it has to carry the registration and leave every other one alone. */
  predicate ReadsBack(before: map<string, Entry>, after: View, name: string, command: string, args: seq<string>) {
    && after.Some?
    && name in after.value && Says(after.value[name], command, args)
    && forall other | other in before :: other in after.value && after.value[other] == before[other]
  }

  function Register(scan: string -> View, text: string, name: string, command: string, args: seq<string>):
    (string, Outcome)
  {
    var view := scan(text);
    if view == None then (text, Unreadable)
    else if name in view.value then
      if Says(view.value[name], command, args) then (text, Linked) else (text, Conflict)
    else
      var proposal := Proposal(text, name, command, args);
      if ReadsBack(view.value, scan(proposal), name, command, args) then (proposal, Created)
      else (text, Conflict)
  }

  /** Whatever the reader, which answer a request gets: unread exactly where the text cannot be read; linked
      where the name is there and says just this, arguments left out where there are none; created where the
      name is new and the reader finds the appended table saying this and every other as it was; a conflict in
      every other case. Only a created registration changes the text, and by that table. */
  lemma AnswersExactly(scan: string -> View, text: string, name: string, command: string, args: seq<string>)
    ensures var (after, outcome) := Register(scan, text, name, command, args);
            var appended := text + Separator(text) + Render(name, command, args);
            && (outcome == Unreadable <==> scan(text) == None)
            && (outcome == Linked <==>
                  && scan(text).Some? && name in scan(text).value
                  && scan(text).value[name].command == Some(command)
                  && (scan(text).value[name].args == Some(args)
                      || (scan(text).value[name].args == None && args == [])))
            && (outcome == Created <==>
                  && scan(text).Some? && name !in scan(text).value
                  && scan(appended).Some? && name in scan(appended).value
                  && scan(appended).value[name].command == Some(command)
                  && (scan(appended).value[name].args == Some(args)
                      || (scan(appended).value[name].args == None && args == []))
                  && forall other | other in scan(text).value ::
                       other in scan(appended).value && scan(appended).value[other] == scan(text).value[other])
            && after == if outcome == Created then appended else text
  {
    hide Render, Separator;
  }

  /** A table is appended behind an empty line, or at the start of an empty file, with no more line ends than
      that takes. */
  lemma SeparatorIsLeast(text: string, fewer: string)
    ensures var apart := text + Separator(text);
            && (apart == "" || (|apart| >= 2 && apart[|apart| - 1] == '\n' && apart[|apart| - 2] == '\n'))
            && forall c | c in Separator(text) :: c == '\n'
    ensures |fewer| < |Separator(text)| ==>
              var short := text + fewer;
              short != "" && !(|short| >= 2 && short[|short| - 1] == '\n' && short[|short| - 2] == '\n')
  {
    var apart, short := text + Separator(text), text + fewer;
    assert EndsWith(text, "\n\n") <==> |text| >= 2 && text[|text| - 1] == '\n' && text[|text| - 2] == '\n' by {
      if |text| >= 2 { assert text[|text| - 2..] == [text[|text| - 2], text[|text| - 1]]; }
    }
    assert EndsWith(text, "\n") <==> |text| >= 1 && text[|text| - 1] == '\n' by {
      if |text| >= 1 { assert text[|text| - 1..] == [text[|text| - 1]]; }
    }
  }

  datatype Request = Request(name: string, command: string, args: seq<string>)

  function RegisterAll(scan: string -> View, text: string, requests: seq<Request>): string
    decreases |requests|
  {
    if requests == [] then text
    else RegisterAll(scan, Register(scan, text, requests[0].name, requests[0].command, requests[0].args).0,
                     requests[1..])
  }

  /** Whatever the reader, and over any requests: the old text stays where it was, and every
      registration read before is read the same after. */
  lemma {:induction false} OnlyAppends(scan: string -> View, text: string, requests: seq<Request>)
    ensures text <= RegisterAll(scan, text, requests)
    ensures scan(text).Some? ==>
              var after := scan(RegisterAll(scan, text, requests));
              && after.Some?
              && forall name | name in scan(text).value ::
                   name in after.value && after.value[name] == scan(text).value[name]
    ensures scan(text) == None ==> RegisterAll(scan, text, requests) == text
    decreases |requests|
  {
    if requests != [] {
      var next := Register(scan, text, requests[0].name, requests[0].command, requests[0].args).0;
      OnlyAppends(scan, next, requests[1..]);
    }
  }

  /** A registration once created is linked ever after, whatever else was registered in between. */
  lemma CreatedIsLinked(scan: string -> View, text: string, request: Request, others: seq<Request>)
    requires Register(scan, text, request.name, request.command, request.args).1 == Created
    ensures var later := RegisterAll(scan, Register(scan, text, request.name, request.command, request.args).0, others);
            Register(scan, later, request.name, request.command, request.args) == (later, Linked)
  {
    var created := Register(scan, text, request.name, request.command, request.args).0;
    OnlyAppends(scan, created, others);
  }

  /** Nothing is written unless the answer says so, and then the old text is a proper prefix. */
  lemma WritesOnlyWhenCreated(scan: string -> View, text: string, request: Request)
    ensures var (after, outcome) := Register(scan, text, request.name, request.command, request.args);
            (outcome == Created <==> after != text) && text <= after
  {
    RenderEnds(request.name, request.command, request.args, "");
    hide Render, Separator, ReadsBack, Says;
  }

  // ------------------------------------------------------------ with a reader of its own

  function Projected(server: Server): Entry {
    Entry(Some(server.command), if server.args == [] then None else Some(server.args))
  }

  function ProjectedAll(servers: map<string, Server>): map<string, Entry> {
    map name | name in servers :: Projected(servers[name])
  }

  /** This module's reader, in the projection registering compares. */
  function Scan(text: string): View {
    match ReadServers(text, map[])
    case None => None
    case Some(servers) => Some(ProjectedAll(servers))
  }

  /** A file built by registrations: tables with an empty line between them. */
  ghost predicate Built(text: string, servers: map<string, Server>) {
    && (text == "" || (EndsWith(text, "\n") && !EndsWith(text, "\n\n")))
    && forall rest :: StartsAnew(rest) ==> ReadServers(text + rest, map[]) == ReadServers(rest, servers)
  }

  lemma RenderEnds(name: string, command: string, args: seq<string>, before: string)
    ensures var text := before + Render(name, command, args);
            EndsWith(text, "\n") && !EndsWith(text, "\n\n") && Render(name, command, args)[0] == '['
  {
    var render := Render(name, command, args);
    var text := before + render;
    hide Key, QuotedList, EscapedAll;
    assert render[0] == '[';
    assert |render| >= 2 && render[|render| - 1] == '\n' && render[|render| - 2] != '\n';
    assert text[|text| - 1..] == "\n";
    assert text[|text| - 2..][0] == render[|render| - 2];
  }

  lemma SkipsNewline(rest: string, servers: map<string, Server>)
    ensures ReadServers("\n" + rest, servers) == ReadServers(rest, servers)
  {
    assert ("\n" + rest)[1..] == rest;
  }

  lemma ReadsOneMore(name: string, command: string, args: seq<string>, rest: string, servers: map<string, Server>)
    requires StartsAnew(rest) && name !in servers
    ensures ReadServers(Render(name, command, args) + rest, servers)
            == ReadServers(rest, servers[name := Server(command, args)])
  {
    ServerReads(name, command, args, rest);
    RenderEnds(name, command, args, "");
    hide Render, ReadServer;
    assert (Render(name, command, args) + rest)[0] == '[';
  }

  lemma SeparatorOfBuilt(text: string, servers: map<string, Server>)
    requires Built(text, servers)
    ensures Separator(text) == "" || Separator(text) == "\n"
  {
  }

  lemma BuiltReads(text: string, servers: map<string, Server>, rest: string)
    requires Built(text, servers) && StartsAnew(rest)
    ensures ReadServers(text + rest, map[]) == ReadServers(rest, servers)
  {
  }

  lemma TableStartsAnew(name: string, command: string, args: seq<string>, rest: string)
    ensures StartsAnew(Render(name, command, args) + rest)
    ensures StartsAnew("\n" + (Render(name, command, args) + rest))
  {
    RenderEnds(name, command, args, "");
    hide Render;
    assert (Render(name, command, args) + rest)[0] == '[';
  }

  lemma ProposalOpens(text: string, name: string, command: string, args: seq<string>, rest: string)
    ensures Proposal(text, name, command, args) + rest
            == text + (Separator(text) + (Render(name, command, args) + rest))
  {
    hide Render, Separator;
  }

  lemma ProposalReads(text: string, servers: map<string, Server>, name: string, command: string,
                      args: seq<string>, rest: string)
    requires Built(text, servers) && name !in servers && StartsAnew(rest)
    ensures ReadServers(Proposal(text, name, command, args) + rest, map[])
            == ReadServers(rest, servers[name := Server(command, args)])
  {
    hide *;
    var table := Render(name, command, args) + rest;
    SeparatorOfBuilt(text, servers);
    TableStartsAnew(name, command, args, rest);
    ProposalOpens(text, name, command, args, rest);
    assert "" + table == table;
    BuiltReads(text, servers, Separator(text) + table);
    SkipsNewline(table, servers);
    ReadsOneMore(name, command, args, rest, servers);
  }

  /** One more registration is one more table read, in front of nothing that was there. */
  lemma BuiltExtends(text: string, servers: map<string, Server>, name: string, command: string, args: seq<string>)
    requires Built(text, servers) && name !in servers
    ensures Built(Proposal(text, name, command, args), servers[name := Server(command, args)])
  {
    RenderEnds(name, command, args, text + Separator(text));
    hide Render, ReadServers, Separator;
    forall rest | StartsAnew(rest)
      ensures ReadServers(Proposal(text, name, command, args) + rest, map[])
              == ReadServers(rest, servers[name := Server(command, args)])
    {
      ProposalReads(text, servers, name, command, args, rest);
    }
  }

  lemma BuiltScans(text: string, servers: map<string, Server>)
    requires Built(text, servers)
    ensures Scan(text) == Some(ProjectedAll(servers))
  {
    assert StartsAnew("");
    assert text + "" == text;
    assert ReadServers(text, map[]) == ReadServers("", servers);
  }

  /** A reader that sees exactly these registrations answers each request by them. */
  lemma AnswersByView(scan: string -> View, text: string, servers: map<string, Server>,
                      name: string, command: string, args: seq<string>)
    requires scan(text) == Some(ProjectedAll(servers))
    requires name !in servers ==>
               scan(Proposal(text, name, command, args))
               == Some(ProjectedAll(servers[name := Server(command, args)]))
    ensures Register(scan, text, name, command, args)
            == if name !in servers then (Proposal(text, name, command, args), Created)
               else if servers[name] == Server(command, args) then (text, Linked) else (text, Conflict)
  {
    hide Proposal;
  }

  /** On a file registrations built, each answer is exactly the one its request deserves. */
  lemma RegistersExactly(text: string, servers: map<string, Server>, name: string, command: string, args: seq<string>)
    requires Built(text, servers)
    ensures Register(Scan, text, name, command, args)
            == if name !in servers then (Proposal(text, name, command, args), Created)
               else if servers[name] == Server(command, args) then (text, Linked) else (text, Conflict)
  {
    hide *;
    BuiltScans(text, servers);
    if name !in servers {
      BuiltExtends(text, servers, name, command, args);
      BuiltScans(Proposal(text, name, command, args), servers[name := Server(command, args)]);
    }
    AnswersByView(Scan, text, servers, name, command, args);
  }

  /** The first request for each name. */
  function Firsts(requests: seq<Request>): map<string, Server> {
    if requests == [] then map[]
    else
      var before := Firsts(requests[..|requests| - 1]);
      var last := requests[|requests| - 1];
      if last.name in before then before else before[last.name := Server(last.command, last.args)]
  }

  lemma {:induction false} RegisterAllButLast(scan: string -> View, text: string, requests: seq<Request>)
    requires requests != []
    ensures var last := requests[|requests| - 1];
            RegisterAll(scan, text, requests)
            == Register(scan, RegisterAll(scan, text, requests[..|requests| - 1]), last.name, last.command, last.args).0
    decreases |requests|
  {
    var last := |requests| - 1;
    if last > 0 {
      var next := Register(scan, text, requests[0].name, requests[0].command, requests[0].args).0;
      RegisterAllButLast(scan, next, requests[1..]);
      assert requests[1..][..last - 1] == requests[..last][1..];
    } else {
      assert requests[1..] == [] && requests[..0] == [];
    }
  }

  /** From an empty file, any requests leave the first registration of each name and nothing else, and
      it reads back exactly, whatever the strings hold. */
  lemma {:induction false} FromAnEmptyFile(requests: seq<Request>)
    ensures Built(RegisterAll(Scan, "", requests), Firsts(requests))
    ensures Scan(RegisterAll(Scan, "", requests))
            == Some(ProjectedAll(Firsts(requests)))
    decreases |requests|
  {
    if requests == [] {
      forall rest | StartsAnew(rest) ensures ReadServers("" + rest, map[]) == ReadServers(rest, map[]) {
        assert "" + rest == rest;
      }
      BuiltScans("", map[]);
    } else {
      var last := |requests| - 1;
      var before := RegisterAll(Scan, "", requests[..last]);
      var one := requests[last];
      FromAnEmptyFile(requests[..last]);
      RegisterAllButLast(Scan, "", requests);
      RegistersExactly(before, Firsts(requests[..last]), one.name, one.command, one.args);
      if one.name !in Firsts(requests[..last]) {
        BuiltExtends(before, Firsts(requests[..last]), one.name, one.command, one.args);
      }
      hide Built, Scan, Register, Proposal, RegisterAll;
      BuiltScans(RegisterAll(Scan, "", requests), Firsts(requests));
    }
  }
}
