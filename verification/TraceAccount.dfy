/** What every call of a trace changes and starts, told from the printed call alone; and that a trace is
    read as exactly that account. */
module TraceAccount {
  import opened Wrappers
  import opened ByteStrings
  import opened TraceText
  import opened TraceReader
  import opened TracePrinter
  import opened TraceRoundTrip
  import Witness = TraceWitness

  // ------------------------------------------------------------ what a call's parts say

  /** Somewhere in the text stands the part. */
  ghost predicate Has(text: string, part: string) {
    exists before, after :: text == before + part + after
  }

  /** The flags of an open that can change the file it opens. */
  ghost predicate CanWrite(flags: string) {
    || Has(flags, "O_WRONLY") || Has(flags, "O_RDWR") || Has(flags, "O_CREAT")
    || Has(flags, "O_TRUNC") || Has(flags, "O_APPEND") || Has(flags, "O_TMPFILE")
  }

  /** The call happened: it neither failed nor is to be restarted. */
  predicate Ran(result: string) {
    !(|result| >= 1 && result[0] == '?') && !(|result| >= 2 && result[0] == '-' && result[1] == '1')
  }

  /** A descriptor's path without the mark of a file that is gone. */
  function Unmarked(path: string): string {
    if |path| >= 10 && path[|path| - 10..] == " (deleted)" then path[..|path| - 10] else path
  }

  /** The token ends in a path between angle brackets, the first of which opens it. */
  predicate Shows(token: string, shown: string, path: string) {
    '<' !in shown && token == shown + "<" + path + ">" && Unmarked(path) != ""
  }

  /** The path the tracer put on a result. */
  ghost function PathShown(token: string): Option<Bytes> {
    if shown, path :| Shows(token, shown, path) then Some(Encoded(Unmarked(path))) else None
  }

  /** The path a descriptor was resolved to. */
  function Descriptor(arg: Arg): Option<Bytes> {
    if arg.Fd? && Unmarked(arg.path) != "" then Some(Encoded(Unmarked(arg.path))) else None
  }

  /** A name below a directory, with one slash (47) between them. */
  function Below(directory: Bytes, name: Bytes): Bytes
    requires directory != []
  {
    if directory[|directory| - 1] == 47 then directory + name else directory + [47] + name
  }

  /** The path an argument names: the one it gives, below a directory unless it begins with a slash, or the
      one its descriptor was resolved to. */
  function Named(args: seq<Arg>, position: nat, directory: Option<Bytes>): Option<Bytes> {
    if position >= |args| then None
    else if args[position].Fd? then Descriptor(args[position])
    else if !args[position].Str? then None
    else
      var name := args[position].text.0;
      if name != [] && name[0] == 47 then Some(name)
      else if directory.Some? && directory.value != [] then Some(Below(directory.value, name)) else None
  }

  /** The same, below the directory that the argument before it is a descriptor of. */
  function NamedIn(args: seq<Arg>, position: nat, cwd: Option<Bytes>): Option<Bytes>
    requires position > 0
  {
    var directory := if position - 1 < |args| then Descriptor(args[position - 1]) else None;
    Named(args, position, if directory.Some? then directory else cwd)
  }

  /** An argument's text. */
  function Text(args: seq<Arg>, position: nat): Option<string>
    requires forall k | 0 <= k < |args| :: ArgOk(args[k])
  {
    if position < |args| then Some(Token(args[position])) else None
  }

  /** The words of an argument list, where all of them are whole. */
  function Words(args: seq<Arg>, position: nat): Option<seq<Bytes>> {
    if position < |args| && args[position].List?
       && forall k | 0 <= k < |args[position].words| :: args[position].words[k].Named?
    then
      var words := args[position].words;
      Some(seq(|words|, k requires 0 <= k < |words| => words[k].text.0))
    else None
  }

  // ------------------------------------------------------------ what a call does

  predicate IsOpen(name: string) {
    name == "open" || name == "openat" || name == "openat2"
  }

  predicate IsRename(name: string) {
    name == "rename" || name == "renameat" || name == "renameat2"
  }

  predicate IsStart(name: string) {
    name == "execve" || name == "execveat"
  }

  predicate IsMove(name: string) {
    name == "chdir" || name == "fchdir"
  }

  /** The flags of an open. */
  function Flags(call: Call): Option<string>
    requires CallOk(call)
  {
    Text(call.args, if call.name == "open" then 1 else 2)
  }

  /** Every path a call that ran can have changed, as its arguments name them. */
  function Touches(call: Call, cwd: Option<Bytes>): seq<Option<Bytes>> {
    match call.name
    case "open" => [Named(call.args, 0, cwd)]
    case "openat" => [NamedIn(call.args, 1, cwd)]
    case "openat2" => [NamedIn(call.args, 1, cwd)]
    case "creat" => [Named(call.args, 0, cwd)]
    case "truncate" => [Named(call.args, 0, cwd)]
    case "ftruncate" => [Named(call.args, 0, cwd)]
    case "mkdir" => [Named(call.args, 0, cwd)]
    case "mkdirat" => [NamedIn(call.args, 1, cwd)]
    case "rmdir" => [Named(call.args, 0, cwd)]
    case "unlink" => [Named(call.args, 0, cwd)]
    case "unlinkat" => [NamedIn(call.args, 1, cwd)]
    case "rename" => [Named(call.args, 0, cwd), Named(call.args, 1, cwd)]
    case "renameat" => [NamedIn(call.args, 1, cwd), NamedIn(call.args, 3, cwd)]
    case "renameat2" => [NamedIn(call.args, 1, cwd), NamedIn(call.args, 3, cwd)]
    case "link" => [Named(call.args, 1, cwd)]
    case "linkat" => [NamedIn(call.args, 3, cwd)]
    case "symlink" => [Named(call.args, 1, cwd)]
    case "symlinkat" => [NamedIn(call.args, 2, cwd)]
    case "mknod" => [Named(call.args, 0, cwd)]
    case "mknodat" => [NamedIn(call.args, 1, cwd)]
    case _ => []
  }

  /** The names of the calls a trace may hold. */
  predicate Traces(name: string) {
    || IsOpen(name) || IsRename(name) || IsStart(name) || IsMove(name)
    || name in {"creat", "truncate", "ftruncate", "mkdir", "mkdirat", "rmdir", "unlink", "unlinkat",
                "link", "linkat", "symlink", "symlinkat", "mknod", "mknodat"}
  }

  /** An open and a truncation reach through the name; everything else changes the name itself. */
  function Reaching(name: string): Reach {
    if IsOpen(name) || name in {"creat", "truncate", "ftruncate"} then Through else Entry
  }

  /** Whether the file was changed by it. */
  ghost function Certainty(call: Call): Did
    requires CallOk(call)
  {
    if IsRename(call.name) then MayHaveChanged
    else if !IsOpen(call.name) then Changed
    else
      var flags := Flags(call).GetOr("");
      if Has(flags, "O_TRUNC") || Has(flags, "O_TMPFILE") || (Has(flags, "O_CREAT") && Has(flags, "O_EXCL"))
      then Changed
      else if Has(flags, "O_CREAT") then MayHaveChanged else OnlyAbleToChange
  }

  /** The paths a call changed: none if it did not run; of an open none unless it can write, and then the one
      the result shows it reached. */
  ghost function ChangedPaths(call: Call, cwd: Option<Bytes>): seq<Option<Bytes>>
    requires CallOk(call)
  {
    if !Ran(call.result) then []
    else if !IsOpen(call.name) then Touches(call, cwd)
    else if !CanWrite(Flags(call).GetOr("")) then []
    else if PathShown(call.result).Some? then [PathShown(call.result)]
    else Touches(call, cwd)
  }

  ghost function Account(number: nat, pid: nat, call: Call, cwd: Option<Bytes>): seq<Written>
    requires CallOk(call)
  {
    var paths := ChangedPaths(call, cwd);
    seq(|paths|, k requires 0 <= k < |paths| =>
      Written(number, pid, call.name, paths[k].GetOr([]), Reaching(call.name), Certainty(call)))
  }

  /** The program a call started, and with which words. */
  function Program(call: Call, cwd: Option<Bytes>): Option<(Bytes, seq<Bytes>)> {
    var (path, words) := if call.name == "execve" then (Named(call.args, 0, cwd), Words(call.args, 1))
                         else (NamedIn(call.args, 1, cwd), Words(call.args, 2));
    if path.Some? && words.Some? then Some((path.value, words.value)) else None
  }

  function Launches(number: nat, pid: nat, call: Call, cwd: Option<Bytes>): seq<Execution> {
    if Ran(call.result) && IsStart(call.name) && Program(call, cwd).Some?
    then [Execution(number, pid, Program(call, cwd).value.0, Program(call, cwd).value.1)] else []
  }

  /** A call that ran names all it has to: a start its program and every word, an open its path and symbolic
      flags, any other every path it changes. */
  ghost predicate Complete(call: Call, cwd: Option<Bytes>)
    requires CallOk(call)
  {
    Ran(call.result) ==>
      if IsStart(call.name) then Program(call, cwd).Some?
      else
        && (forall k | 0 <= k < |Touches(call, cwd)| :: Touches(call, cwd)[k].Some?)
        && (IsOpen(call.name) ==> Flags(call).Some? && Has(Flags(call).value, "O_"))
  }

  function Whereabouts(cwd: Option<Bytes>, call: Call): Option<Bytes> {
    if Ran(call.result) && IsMove(call.name) then None else cwd
  }

  // ------------------------------------------------------------ the reader's words for it

  lemma {:induction false} ContainsIsHas(text: string, part: string)
    ensures Contains(text, part) <==> Has(text, part)
    decreases |text|
  {
    if |part| <= |text| && text[..|part|] == part {
      assert text == "" + part + text[|part|..];
    } else if |part| <= |text| && text != "" {
      ContainsIsHas(text[1..], part);
      if Has(text[1..], part) {
        var before, after :| text[1..] == before + part + after;
        assert text == ([text[0]] + before) + part + after;
      }
      if Has(text, part) {
        var before, after :| text == before + part + after;
        Begins(before, part, after);
        assert text[1..] == before[1..] + part + after;
      }
    } else {
      assert Has(text, part) ==> |part| <= |text|;
    }
  }

  lemma Begins(before: string, part: string, after: string)
    ensures before == "" ==> (before + part + after)[..|part|] == part
  {
  }

  /** What the reader takes for the flags of a write are the six. */
  lemma WritesAreTheSix(flags: string)
    ensures CouldWrite(flags) <==> CanWrite(flags)
  {
    hide Contains, Has;
    ContainsIsHas(flags, "O_WRONLY");
    ContainsIsHas(flags, "O_RDWR");
    ContainsIsHas(flags, "O_CREAT");
    ContainsIsHas(flags, "O_TRUNC");
    ContainsIsHas(flags, "O_APPEND");
    ContainsIsHas(flags, "O_TMPFILE");
    assert WRITE_FLAGS[0] == "O_WRONLY" && WRITE_FLAGS[1] == "O_RDWR" && WRITE_FLAGS[2] == "O_CREAT"
           && WRITE_FLAGS[3] == "O_TRUNC" && WRITE_FLAGS[4] == "O_APPEND" && WRITE_FLAGS[5] == "O_TMPFILE";
  }

  lemma RanIsSucceeded(result: string)
    ensures Succeeded(result) <==> Ran(result)
  {
    assert |"?"| == 1 && |"-1"| == 2;
    if |result| >= 1 { assert result[..1] == [result[0]]; }
    if |result| >= 2 { assert result[..2] == [result[0], result[1]]; }
  }

  lemma UndeletedIsUnmarked(path: string)
    ensures Undeleted(path) == Unmarked(path)
  {
  }

  lemma ShownResolves(token: string, shown: string, path: string)
    requires '<' !in shown && token == shown + "<" + path + ">"
    ensures ResolvedDescriptor(token) == if Unmarked(path) == "" then None else Some(Encoded(Unmarked(path)))
  {
    hide Undeleted, Unmarked, Encoded;
    UndeletedIsUnmarked(path);
    assert token[|shown|] == '<';
    assert forall i | 0 <= i < |shown| :: token[i] == shown[i];
    assert Find(token, '<') == |shown|;
    assert token[|shown| + 1..|token| - 1] == path;
  }

  lemma ResolvedIsShown(token: string)
    ensures ResolvedDescriptor(token) == PathShown(token)
  {
    hide Unmarked, Undeleted, Encoded, Shows;
    if shown, path :| Shows(token, shown, path) && PathShown(token) == Some(Encoded(Unmarked(path))) {
      ShowsParts(token, shown, path);
      ShownResolves(token, shown, path);
    } else {
      NothingShown(token);
    }
  }

  lemma ShowsParts(token: string, shown: string, path: string)
    requires Shows(token, shown, path)
    ensures '<' !in shown && token == shown + "<" + path + ">" && Unmarked(path) != ""
  {
  }

  lemma NothingShown(token: string)
    requires !exists shown, path :: Shows(token, shown, path)
    ensures ResolvedDescriptor(token) == None
  {
    hide Undeleted, Unmarked, Encoded;
    var at := Find(token, '<');
    if at >= 0 && token[|token| - 1] == '>' {
      var shown, path := token[..at], token[at + 1..|token| - 1];
      assert token == shown + "<" + path + ">";
      assert '<' !in shown;
      assert !Shows(token, shown, path);
      ShownResolves(token, shown, path);
    }
  }

  lemma DirectoryIsDescriptor(arg: Arg)
    ensures Directory(arg) == Descriptor(arg)
  {
    if arg.Fd? { UndeletedIsUnmarked(arg.path); }
    hide Undeleted, Unmarked;
  }

  /** A word read is a path, anything else none. */
  function Read(word: Word): Option<Bytes> {
    if word.Word? then Some(word.bytes) else None
  }

  lemma NamedAlone(args: seq<Arg>, position: nat, cwd: Option<Bytes>)
    ensures var word := PathOf(args, At(position, None), cwd);
            !word.Raises? && Read(word) == Named(args, position, cwd)
  {
    if position < |args| && args[position].Fd? { DirectoryIsDescriptor(args[position]); }
    hide Undeleted, Unmarked;
  }

  lemma NamedBelow(args: seq<Arg>, position: nat, cwd: Option<Bytes>)
    requires position > 0
    ensures var word := PathOf(args, At(position, Some(position - 1)), cwd);
            !word.Raises? && Read(word) == NamedIn(args, position, cwd)
  {
    if position < |args| && args[position].Fd? { DirectoryIsDescriptor(args[position]); }
    if position - 1 < |args| { DirectoryIsDescriptor(args[position - 1]); }
    hide Undeleted, Unmarked;
  }

  // ------------------------------------------------------------ the table

  /** The table knows exactly the calls named here. */
  lemma TableNames(name: string)
    ensures name in TRACED_CALLS <==> Traces(name)
  {
  }

  /** And says of each what is said of it here. */
  lemma TableRows(name: string)
    requires name in TRACED_CALLS
    ensures var row := TRACED_CALLS[name];
            && (row.kind.Opens? <==> IsOpen(name)) && (row.kind.Starts? <==> IsStart(name))
            && (row.kind.Moves? <==> IsMove(name))
            && (!IsMove(name) && !IsStart(name) ==> Witness.ReachOf(name) == Reaching(name))
  {
  }

  lemma StartsArePlaced(name: string)
    requires name in TRACED_CALLS
    ensures name == "execve" ==> TRACED_CALLS[name].positions == [At(0, None)]
    ensures name == "execveat" ==> TRACED_CALLS[name].positions == [At(1, Some(0))]
  {
  }

  /** The calls that change the one path they are given first, alone or behind its directory. */
  predicate First(name: string) {
    name in {"open", "creat", "truncate", "ftruncate", "mkdir", "rmdir", "unlink", "mknod"}
  }

  predicate FirstBelow(name: string) {
    name in {"openat", "openat2", "mkdirat", "unlinkat", "mknodat"}
  }

  lemma FirstArePlaced(name: string)
    requires name in TRACED_CALLS
    ensures First(name) ==> TRACED_CALLS[name].positions == [At(0, None)]
    ensures FirstBelow(name) ==> TRACED_CALLS[name].positions == [At(1, Some(0))]
  {
  }

  lemma RestArePlaced(name: string)
    requires name in TRACED_CALLS
    ensures name == "rename" ==> TRACED_CALLS[name].positions == [At(0, None), At(1, None)]
    ensures name == "renameat" || name == "renameat2" ==>
              TRACED_CALLS[name].positions == [At(1, Some(0)), At(3, Some(2))]
    ensures name == "link" || name == "symlink" ==> TRACED_CALLS[name].positions == [At(1, None)]
    ensures name == "linkat" ==> TRACED_CALLS[name].positions == [At(3, Some(2))]
    ensures name == "symlinkat" ==> TRACED_CALLS[name].positions == [At(2, Some(1))]
  {
  }

  lemma FirstTouch(call: Call, cwd: Option<Bytes>)
    ensures First(call.name) ==> Touches(call, cwd) == [Named(call.args, 0, cwd)]
    ensures FirstBelow(call.name) ==> Touches(call, cwd) == [NamedIn(call.args, 1, cwd)]
    ensures IsStart(call.name) || IsMove(call.name) ==> Touches(call, cwd) == []
  {
    hide Named, NamedIn;
  }

  lemma EachIsPlaced(name: string)
    requires Traces(name)
    ensures || First(name) || FirstBelow(name) || IsStart(name) || IsMove(name)
            || name in {"rename", "renameat", "renameat2", "link", "linkat", "symlink", "symlinkat"}
  {
  }

  // ------------------------------------------------------------ one call

  lemma SaidPaths(call: Call, cwd: Option<Bytes>)
    requires CallOk(call)
    ensures var positions, paths := TRACED_CALLS[call.name].positions, SaidBy(call, cwd).paths;
            |paths| == |positions| && forall k | 0 <= k < |paths| :: paths[k] == PathOf(call.args, positions[k], cwd)
    ensures SaidBy(call, cwd).argv == ArgvOfCall(call.args, if call.name == "execve" then 1 else 2)
    ensures IsOpen(call.name) ==> SaidBy(call, cwd).flags == Flags(call)
  {
    hide TRACED_CALLS, PathOf, ArgvOfCall, Token;
  }

  /** The paths read are those the account names. */
  ghost predicate Agree(paths: seq<Word>, named: seq<Option<Bytes>>) {
    |paths| == |named| && forall k | 0 <= k < |paths| :: !paths[k].Raises? && Read(paths[k]) == named[k]
  }

  lemma FirstAgree(call: Call, cwd: Option<Bytes>)
    requires CallOk(call) && (First(call.name) || FirstBelow(call.name))
    ensures Agree(SaidBy(call, cwd).paths, Touches(call, cwd))
  {
    hide CallOk, Touches, SaidBy, PathOf, Named, NamedIn, TRACED_CALLS, First, FirstBelow;
    SaidPaths(call, cwd);
    InTable(call);
    FirstArePlaced(call.name);
    FirstTouch(call, cwd);
    NamedAlone(call.args, 0, cwd);
    NamedBelow(call.args, 1, cwd);
  }

  lemma InTable(call: Call)
    requires CallOk(call)
    ensures call.name in TRACED_CALLS
  {
  }

  lemma RestAgree(call: Call, cwd: Option<Bytes>)
    requires CallOk(call)
    requires call.name in {"rename", "renameat", "renameat2", "link", "linkat", "symlink", "symlinkat"}
    ensures Agree(SaidBy(call, cwd).paths, Touches(call, cwd))
  {
    hide CallOk, SaidBy, PathOf, Named, NamedIn, TRACED_CALLS;
    SaidPaths(call, cwd);
    InTable(call);
    RestArePlaced(call.name);
    NamedAlone(call.args, 0, cwd);
    NamedAlone(call.args, 1, cwd);
    NamedBelow(call.args, 1, cwd);
    NamedBelow(call.args, 2, cwd);
    NamedBelow(call.args, 3, cwd);
  }

  lemma {:induction false} WordsInOrder(words: seq<ListWord>)
    requires forall k | 0 <= k < |words| :: words[k].Named?
    ensures WordsOf(words) == seq(|words|, k requires 0 <= k < |words| => words[k].text.0)
  {
    if words != [] { WordsInOrder(words[1..]); }
  }

  lemma WordsAreSaid(args: seq<Arg>, position: nat)
    ensures var argv := ArgvOfCall(args, position);
            && !argv.ArgvRaises?
            && (if argv.Argv? then Words(args, position) == Some(argv.words) else Words(args, position) == None)
  {
    if Words(args, position).Some? { WordsInOrder(args[position].words); }
  }

  /** What has to be shown of every call. */
  ghost predicate Accounted(number: nat, pid: nat, call: Call, cwd: Option<Bytes>)
    requires CallOk(call)
  {
    var said := SaidBy(call, cwd);
    && Witness.SaidOf(call.name, said)
    && (Witness.Suffices(call.name, said, call.result) <==> Complete(call, cwd))
    && (Complete(call, cwd) ==>
          && Witness.WritesBy(number, pid, call.name, said, call.result) == Account(number, pid, call, cwd)
          && Witness.StartsBy(number, pid, call.name, said, call.result) == Launches(number, pid, call, cwd))
    && Witness.CwdAfter(cwd, call.name, call.result) == Whereabouts(cwd, call)
  }

  lemma NothingIsAccounted(number: nat, pid: nat, call: Call, cwd: Option<Bytes>)
    requires CallOk(call) && (!Ran(call.result) || IsMove(call.name))
    ensures Accounted(number, pid, call, cwd)
  {
    Witness.SaidByIsSaid(call, cwd);
    InTable(call);
    TableRows(call.name);
    RanIsSucceeded(call.result);
    FirstTouch(call, cwd);
    hide CallOk, SaidBy, TRACED_CALLS, Witness.SaidOf, Succeeded, Ran, Program, Touches, Certainty, Flags,
         Witness.DidOf, Witness.ReachOf, Reaching;
  }

  lemma StartSays(call: Call, cwd: Option<Bytes>)
    requires CallOk(call) && IsStart(call.name)
    ensures var said := SaidBy(call, cwd);
            && |said.paths| == 1 && !said.argv.ArgvRaises?
            && (Program(call, cwd).Some? <==> said.paths[0].Word? && said.argv.Argv?)
            && (Program(call, cwd).Some? ==> Program(call, cwd).value == (said.paths[0].bytes, said.argv.words))
  {
    InTable(call);
    SaidPaths(call, cwd);
    StartsArePlaced(call.name);
    NamedAlone(call.args, 0, cwd);
    NamedBelow(call.args, 1, cwd);
    WordsAreSaid(call.args, 1);
    WordsAreSaid(call.args, 2);
    hide CallOk, SaidBy, TRACED_CALLS, Words, ArgvOfCall, Named, NamedIn, PathOf;
  }

  lemma StartIsAccounted(number: nat, pid: nat, call: Call, cwd: Option<Bytes>)
    requires CallOk(call) && Ran(call.result) && IsStart(call.name)
    ensures Accounted(number, pid, call, cwd)
  {
    Witness.SaidByIsSaid(call, cwd);
    InTable(call);
    TableRows(call.name);
    RanIsSucceeded(call.result);
    FirstTouch(call, cwd);
    StartSays(call, cwd);
    hide CallOk, SaidBy, TRACED_CALLS, Witness.SaidOf, Succeeded, Ran, Touches, Certainty, Flags,
         Witness.DidOf, Witness.ReachOf, Reaching, Program;
  }

  lemma AgreeOnWords(paths: seq<Word>, named: seq<Option<Bytes>>)
    requires Agree(paths, named)
    ensures Witness.AllWords(paths) <==> forall k | 0 <= k < |named| :: named[k].Some?
  {
    forall k | 0 <= k < |named| ensures paths[k].Word? <==> named[k].Some? {
      assert Read(paths[k]) == named[k];
    }
  }

  lemma AgreeOnEntries(number: nat, pid: nat, name: string, reach: Reach, did: Did, paths: seq<Word>,
                       named: seq<Option<Bytes>>)
    requires Agree(paths, named)
    ensures Witness.Entries(number, pid, name, reach, did, paths)
            == seq(|named|, k requires 0 <= k < |named| => Written(number, pid, name, named[k].GetOr([]), reach, did))
  {
    forall k | 0 <= k < |named|
      ensures (if paths[k].Word? then paths[k].bytes else []) == named[k].GetOr([])
    {
      assert Read(paths[k]) == named[k];
    }
  }

  lemma TouchesAgree(call: Call, cwd: Option<Bytes>)
    requires CallOk(call) && !IsStart(call.name) && !IsMove(call.name)
    ensures Agree(SaidBy(call, cwd).paths, Touches(call, cwd))
  {
    InTable(call);
    TableNames(call.name);
    EachIsPlaced(call.name);
    hide CallOk, SaidBy, Touches, TRACED_CALLS, Agree, Traces, IsOpen, IsRename, IsStart, IsMove;
    if First(call.name) || FirstBelow(call.name) {
      FirstAgree(call, cwd);
    } else {
      RestAgree(call, cwd);
    }
  }

  lemma ChangeIsAccounted(number: nat, pid: nat, call: Call, cwd: Option<Bytes>)
    requires CallOk(call) && Ran(call.result) && !IsStart(call.name) && !IsMove(call.name) && !IsOpen(call.name)
    ensures Accounted(number, pid, call, cwd)
  {
    Witness.SaidByIsSaid(call, cwd);
    InTable(call);
    TableRows(call.name);
    RanIsSucceeded(call.result);
    TouchesAgree(call, cwd);
    var said := SaidBy(call, cwd);
    AgreeOnWords(said.paths, Touches(call, cwd));
    AgreeOnEntries(number, pid, call.name, Reaching(call.name), Certainty(call), said.paths, Touches(call, cwd));
    RenamesAreRenames(call);
    hide CallOk, SaidBy, TRACED_CALLS, Witness.SaidOf, Succeeded, Ran, Touches, Certainty, Flags,
         Witness.ReachOf, Reaching, Program, WhatAPathCallDid, Agree, Witness.AllWords, Witness.Entries;
  }

  lemma RenamesAreRenames(call: Call)
    requires CallOk(call)
    ensures !IsOpen(call.name) ==> WhatAPathCallDid(call.name) == Certainty(call)
  {
    hide CallOk;
  }

  lemma CertaintyIsRead(call: Call)
    requires CallOk(call) && IsOpen(call.name)
    ensures WhatAnOpenDid(Flags(call).GetOr("")) == Certainty(call)
  {
    hide CallOk, Flags, Contains, Has;
    var flags := Flags(call).GetOr("");
    ContainsIsHas(flags, "O_TRUNC");
    ContainsIsHas(flags, "O_TMPFILE");
    ContainsIsHas(flags, "O_CREAT");
    ContainsIsHas(flags, "O_EXCL");
  }

  lemma OpenSays(call: Call, cwd: Option<Bytes>)
    requires CallOk(call) && IsOpen(call.name)
    ensures var said := SaidBy(call, cwd);
            && |said.paths| == 1 && |Touches(call, cwd)| == 1 && Read(said.paths[0]) == Touches(call, cwd)[0]
            && said.flags == Flags(call)
  {
    InTable(call);
    TableNames(call.name);
    TouchesAgree(call, cwd);
    SaidPaths(call, cwd);
    OpensTouchOne(call, cwd);
    hide CallOk, SaidBy, TRACED_CALLS, Touches, Flags;
  }

  lemma OpenFlags(flags: string, result: string)
    ensures CouldWrite(flags) <==> CanWrite(flags)
    ensures Contains(flags, "O_") <==> Has(flags, "O_")
    ensures ResolvedDescriptor(result) == PathShown(result) && (Succeeded(result) <==> Ran(result))
  {
    hide *;
    WritesAreTheSix(flags);
    ContainsIsHas(flags, "O_");
    ResolvedIsShown(result);
    RanIsSucceeded(result);
  }

  lemma OpenSuffices(call: Call, cwd: Option<Bytes>)
    requires CallOk(call) && Ran(call.result) && IsOpen(call.name) && Witness.SaidOf(call.name, SaidBy(call, cwd))
    ensures Witness.Suffices(call.name, SaidBy(call, cwd), call.result) <==> Complete(call, cwd)
  {
    InTable(call);
    TableRows(call.name);
    OpenSays(call, cwd);
    OpenFlags(Flags(call).GetOr(""), call.result);
    hide CallOk, SaidBy, TRACED_CALLS, Succeeded, Ran, Touches, Flags, Witness.ReachOf, Reaching, Program,
         Contains, Has;
  }

  lemma CompleteOpen(call: Call, cwd: Option<Bytes>)
    requires CallOk(call) && Ran(call.result) && IsOpen(call.name) && Complete(call, cwd)
    ensures |Touches(call, cwd)| == 1 && Touches(call, cwd)[0].Some? && Flags(call).Some?
  {
    OpensTouchOne(call, cwd);
    hide CallOk, Ran, Touches, Flags, Has;
  }

  lemma ReadOfOpen(name: string, said: Said, result: string)
    requires Witness.SaidOf(name, said) && TRACED_CALLS[name].kind.Opens? && Succeeded(result)
    requires said.paths[0].Word? && said.flags.Some?
    ensures Witness.Changed(name, said, result)
            == if !CouldWrite(said.flags.value) then []
               else if ResolvedDescriptor(result).Some? then [Word(ResolvedDescriptor(result).value)]
               else [said.paths[0]]
  {
    hide TRACED_CALLS, Succeeded, ResolvedDescriptor, CouldWrite;
  }

  lemma OpenChanges(number: nat, pid: nat, call: Call, cwd: Option<Bytes>)
    requires CallOk(call) && Ran(call.result) && IsOpen(call.name) && Complete(call, cwd)
    requires Witness.SaidOf(call.name, SaidBy(call, cwd))
    ensures Agree(Witness.Changed(call.name, SaidBy(call, cwd), call.result), ChangedPaths(call, cwd))
  {
    hide *;
    OpenDid(call, cwd);
    OpenSays(call, cwd);
    OpenFlags(Flags(call).GetOr(""), call.result);
    CompleteOpen(call, cwd);
    var said := SaidBy(call, cwd);
    SomeIsIt(Flags(call));
    ReadIsWord(said.paths[0]);
    ReadOfOpen(call.name, said, call.result);
    AccountOfOpen(call, cwd);
    if CanWrite(said.flags.value) {
      var shown := PathShown(call.result);
      if shown.Some? {
        ReadIsWord(Word(shown.value));
        OneAgrees(Word(shown.value), shown);
      } else {
        OneAgrees(said.paths[0], Touches(call, cwd)[0]);
      }
    } else {
      NoneAgrees();
    }
  }

  lemma AccountOfOpen(call: Call, cwd: Option<Bytes>)
    requires CallOk(call) && Ran(call.result) && IsOpen(call.name) && |Touches(call, cwd)| == 1
    ensures ChangedPaths(call, cwd)
            == if !CanWrite(Flags(call).GetOr("")) then []
               else if PathShown(call.result).Some? then [PathShown(call.result)] else [Touches(call, cwd)[0]]
  {
    hide CallOk, Ran, Touches, Flags, PathShown, CanWrite, IsOpen;
  }

  lemma SomeIsIt(flags: Option<string>)
    ensures flags.Some? ==> flags.GetOr("") == flags.value
  {
  }

  lemma ReadIsWord(word: Word)
    ensures Read(word).Some? <==> word.Word?
    ensures word.Word? ==> Read(word) == Some(word.bytes)
  {
  }

  lemma OneAgrees(word: Word, named: Option<Bytes>)
    requires word.Word? && Read(word) == named
    ensures Agree([word], [named])
  {
  }

  lemma NoneAgrees()
    ensures Agree([], [])
  {
  }

  lemma OpenDid(call: Call, cwd: Option<Bytes>)
    requires CallOk(call) && IsOpen(call.name)
    ensures call.name in TRACED_CALLS && Witness.DidOf(call.name, SaidBy(call, cwd)) == Certainty(call)
    ensures Witness.ReachOf(call.name) == Reaching(call.name) && TRACED_CALLS[call.name].kind.Opens?
  {
    InTable(call);
    TableRows(call.name);
    OpenSays(call, cwd);
    CertaintyIsRead(call);
    hide CallOk, SaidBy, TRACED_CALLS, Touches, Flags, Witness.ReachOf, Reaching, WhatAnOpenDid, Certainty;
  }

  lemma OpenIsAccounted(number: nat, pid: nat, call: Call, cwd: Option<Bytes>)
    requires CallOk(call) && Ran(call.result) && IsOpen(call.name)
    ensures Accounted(number, pid, call, cwd)
  {
    Witness.SaidByIsSaid(call, cwd);
    OpenSuffices(call, cwd);
    OpenDid(call, cwd);
    hide CallOk, SaidBy, TRACED_CALLS, Witness.SaidOf, Witness.Suffices, Complete, Succeeded, Ran, Certainty,
         Witness.DidOf, Witness.ReachOf, Reaching, Program, Witness.Changed, ChangedPaths, Witness.Entries;
    if Complete(call, cwd) {
      var changed := Witness.Changed(call.name, SaidBy(call, cwd), call.result);
      OpenChanges(number, pid, call, cwd);
      AgreeOnEntries(number, pid, call.name, Reaching(call.name), Certainty(call), changed, ChangedPaths(call, cwd));
    }
  }

  lemma OpensTouchOne(call: Call, cwd: Option<Bytes>)
    requires IsOpen(call.name)
    ensures |Touches(call, cwd)| == 1
  {
  }

  /** One call is read as the account of it, whatever it is. */
  lemma CallIsAccounted(number: nat, pid: nat, call: Call, cwd: Option<Bytes>)
    requires CallOk(call)
    ensures Accounted(number, pid, call, cwd)
  {
    hide *;
    if !Ran(call.result) || IsMove(call.name) {
      NothingIsAccounted(number, pid, call, cwd);
    } else if IsStart(call.name) {
      StartIsAccounted(number, pid, call, cwd);
    } else if IsOpen(call.name) {
      OpenIsAccounted(number, pid, call, cwd);
    } else {
      ChangeIsAccounted(number, pid, call, cwd);
    }
  }

  // ------------------------------------------------------------ the counts

  /** Nothing but the entries and what could not be read differs. */
  predicate SameCounts(state: State, next: State) {
    && next.failedAttempts == state.failedAttempts && next.restarted == state.restarted
    && next.lines == state.lines && next.writeCalls == state.writeCalls && next.rootPid == state.rootPid
  }

  lemma {:induction false} EntriesAreNotCounted(state: State, number: nat, pid: nat, name: string, reach: Reach,
                                                paths: seq<Word>)
    requires forall k | 0 <= k < |paths| :: !paths[k].Raises?
    ensures var next := WroteEach(state, number, pid, name, reach, paths);
            next.Some? && SameCounts(state, next.value)
    decreases |paths|
  {
    if paths != [] {
      var first := if paths[0].NotAWord? then Unread(state, number, UnreadPath)
                   else state.(writes := state.writes
                                 + [Written(number, pid, name, paths[0].bytes, reach, WhatAPathCallDid(name))]);
      EntriesAreNotCounted(first, number, pid, name, reach, paths[1..]);
    }
  }

  /** A call to be restarted counts as that, one that failed as an attempt, one that ran and could write as a
      call that writes, however many paths it names; the first call of a trace says which process is its root. */
  lemma CallIsCounted(state: State, number: nat, pid: nat, call: Call)
    requires CallOk(call)
    ensures var next := Told(state, number, pid, call);
            && next.Some?
            && next.value.restarted == state.restarted + (if call.result[0] == '?' then 1 else 0)
            && next.value.failedAttempts
               == state.failedAttempts + (if |call.result| >= 2 && call.result[..2] == "-1" then 1 else 0)
            && next.value.rootPid == (if state.rootPid == None then Some(pid) else state.rootPid)
            && next.value.lines == state.lines
            && (Complete(call, state.cwd) ==>
                  next.value.writeCalls
                  == state.writeCalls
                     + if Ran(call.result) && !IsStart(call.name) && !IsMove(call.name)
                          && (IsOpen(call.name) ==> CanWrite(Flags(call).GetOr(""))) then 1 else 0)
  {
    CallIsAccounted(number, pid, call, state.cwd);
    InTable(call);
    TableRows(call.name);
    ResultsAre(call.result);
    var said := SaidBy(call, state.cwd);
    var rooted := Witness.Rooted(state, pid);
    Witness.TakenAdds(state, number, pid, call.name, said, call.result);
    ToldIsTaken(state, number, pid, call);
    hide *;
    TakenCounts(state, number, pid, call.name, said, call.result);
    if IsOpen(call.name) && Ran(call.result) && Complete(call, state.cwd) {
      CompleteOpen(call, state.cwd);
      OpenSays(call, state.cwd);
      OpenFlags(Flags(call).GetOr(""), call.result);
      SomeIsIt(Flags(call));
      HasFlags(call, state.cwd);
      ReadIsWord(said.paths[0]);
    }
    ResultIsSomething(call);
  }

  lemma ResultIsSomething(call: Call)
    requires CallOk(call)
    ensures call.result != ""
  {
    hide ArgOk;
  }

  lemma HasFlags(call: Call, cwd: Option<Bytes>)
    requires CallOk(call) && Ran(call.result) && IsOpen(call.name) && Complete(call, cwd)
    ensures Has(Flags(call).GetOr(""), "O_")
  {
    hide CallOk, Ran, Flags, Has, Touches;
  }

  lemma ResultsAre(result: string)
    ensures StartsWith(result, "?") <==> |result| >= 1 && result[0] == '?'
    ensures StartsWith(result, "-1") <==> |result| >= 2 && result[..2] == "-1"
    ensures Succeeded(result) <==> Ran(result)
    ensures Ran(result) <==> !StartsWith(result, "?") && !StartsWith(result, "-1")
  {
    RanIsSucceeded(result);
    assert |"?"| == 1 && |"-1"| == 2;
    if |result| >= 1 { assert result[..1] == [result[0]]; }
  }

  lemma TakenCounts(state: State, number: nat, pid: nat, name: string, said: Said, result: string)
    requires Witness.SaidOf(name, said)
    ensures var next := Taken(state, number, pid, name, said, result);
            && next.Some?
            && next.value.restarted == state.restarted + (if StartsWith(result, "?") then 1 else 0)
            && next.value.failedAttempts
               == state.failedAttempts + (if !StartsWith(result, "?") && StartsWith(result, "-1") then 1 else 0)
            && next.value.rootPid == (if state.rootPid == None then Some(pid) else state.rootPid)
            && next.value.lines == state.lines
            && next.value.writeCalls
               == state.writeCalls
                  + (if StartsWith(result, "?") || StartsWith(result, "-1") then 0
                     else match TRACED_CALLS[name].kind
                       case Writes => 1
                       case Opens =>
                         if said.paths[0].Word? && said.flags.Some? && Contains(said.flags.value, "O_")
                            && CouldWrite(said.flags.value) then 1 else 0
                       case _ => 0)
  {
    hide TRACED_CALLS, StartsWith, Contains, CouldWrite, ResolvedDescriptor, WhatAnOpenDid, WroteEach;
    var rooted := Witness.Rooted(state, pid);
    if TRACED_CALLS[name].kind.Writes? {
      EntriesAreNotCounted(rooted.(writeCalls := rooted.writeCalls + 1), number, pid, name, TRACED_CALLS[name].reach,
                           said.paths);
    }
  }

  // ------------------------------------------------------------ whole traces

  ghost predicate EventComplete(event: Event, cwd: Option<Bytes>)
    requires EventOk(event)
  {
    match Finishes(event) case None => true case Some(call) => Complete(call, cwd)
  }

  ghost function EventAccount(number: nat, event: Event, cwd: Option<Bytes>): seq<Written>
    requires EventOk(event)
  {
    match Finishes(event) case None => [] case Some(call) => Account(number, event.pid, call, cwd)
  }

  function EventLaunches(number: nat, event: Event, cwd: Option<Bytes>): seq<Execution>
    requires EventOk(event)
  {
    match Finishes(event) case None => [] case Some(call) => Launches(number, event.pid, call, cwd)
  }

  function CwdBehind(cwd: Option<Bytes>, event: Event): Option<Bytes>
    requires EventOk(event)
  {
    match Finishes(event) case None => cwd case Some(call) => Whereabouts(cwd, call)
  }

  lemma EventIsAccounted(number: nat, event: Event, cwd: Option<Bytes>)
    requires EventOk(event)
    ensures Witness.Clear(event, cwd) <==> EventComplete(event, cwd)
    ensures EventComplete(event, cwd) ==>
              && Witness.WritesIn(number, event, cwd) == EventAccount(number, event, cwd)
              && Witness.StartsIn(number, event, cwd) == EventLaunches(number, event, cwd)
    ensures Witness.CwdPast(cwd, event) == CwdBehind(cwd, event)
  {
    var call := Finishes(event);
    hide CallOk, Complete, Account, Launches, Whereabouts, Witness.SaidOf, Witness.Suffices, Witness.WritesBy,
         Witness.StartsBy, Witness.CwdAfter, SaidBy;
    if call.Some? {
      Witness.SaidByIsSaid(call.value, cwd);
      CallIsAccounted(number, event.pid, call.value, cwd);
    }
  }

  /** Every line is an event, and every completed call names all it has to. */
  ghost predicate AllComplete(items: seq<Witness.Item>, cwd: Option<Bytes>)
    requires forall k | 0 <= k < |items| :: items[k].Event? ==> EventOk(items[k].event)
    decreases |items|
  {
    items == [] ||
    (&& items[0].Event? && EventComplete(items[0].event, cwd)
     && AllComplete(items[1..], CwdBehind(cwd, items[0].event)))
  }

  /** What the completed calls of a trace changed, in the order they completed. */
  ghost function WholeAccount(number: nat, items: seq<Witness.Item>, cwd: Option<Bytes>): seq<Written>
    requires forall k | 0 <= k < |items| :: items[k].Event? && EventOk(items[k].event)
    decreases |items|
  {
    if items == [] then []
    else EventAccount(number, items[0].event, cwd)
         + WholeAccount(number + 1, items[1..], CwdBehind(cwd, items[0].event))
  }

  ghost function AllLaunches(number: nat, items: seq<Witness.Item>, cwd: Option<Bytes>): seq<Execution>
    requires forall k | 0 <= k < |items| :: items[k].Event? && EventOk(items[k].event)
    decreases |items|
  {
    if items == [] then []
    else EventLaunches(number, items[0].event, cwd)
         + AllLaunches(number + 1, items[1..], CwdBehind(cwd, items[0].event))
  }

  lemma {:induction false} EventsAreOk(items: seq<Witness.Item>, open: Open)
    requires Witness.Runs(items, open)
    ensures forall k | 0 <= k < |items| :: items[k].Event? ==> EventOk(items[k].event)
    decreases |items|
  {
    hide EventOk, Witness.Unreadable, Follows, Witness.OpenPast;
    if items != [] {
      var rest := items[1..];
      EventsAreOk(rest, Witness.OpenPast(open, items[0]));
      forall k | 0 <= k < |items| && items[k].Event? ensures EventOk(items[k].event) {
        if k > 0 { assert rest[k - 1] == items[k]; }
      }
    }
  }

  lemma {:induction false} CompleteAreEvents(items: seq<Witness.Item>, cwd: Option<Bytes>)
    requires forall k | 0 <= k < |items| :: items[k].Event? ==> EventOk(items[k].event)
    requires AllComplete(items, cwd)
    ensures forall k | 0 <= k < |items| :: items[k].Event? && EventOk(items[k].event)
    decreases |items|
  {
    hide EventOk, EventComplete, CwdBehind;
    if items != [] {
      var rest := items[1..];
      CompleteAreEvents(rest, CwdBehind(cwd, items[0].event));
      forall k | 0 <= k < |items| ensures items[k].Event? {
        if k > 0 { assert rest[k - 1] == items[k]; }
      }
    }
  }

  /** A trace is read in full exactly when every call in it is complete, and then as the account of its
      calls. */
  lemma {:induction false} TraceIsAccounted(number: nat, items: seq<Witness.Item>, open: Open, cwd: Option<Bytes>)
    requires Witness.Runs(items, open)
    ensures forall k | 0 <= k < |items| :: items[k].Event? ==> EventOk(items[k].event)
    ensures Witness.AllClear(items, open, cwd) <==> AllComplete(items, cwd)
    ensures AllComplete(items, cwd) ==>
              && (forall k | 0 <= k < |items| :: items[k].Event? && EventOk(items[k].event))
              && Witness.AllWrites(number, items, open, cwd) == WholeAccount(number, items, cwd)
              && Witness.AllStarts(number, items, open, cwd) == AllLaunches(number, items, cwd)
    decreases |items|
  {
    EventsAreOk(items, open);
    hide EventOk, Witness.ItemOk, Witness.OpenPast, EventComplete, EventAccount, EventLaunches, CwdBehind,
         Witness.Clear, Witness.WritesIn, Witness.StartsIn, Witness.CwdPast;
    if AllComplete(items, cwd) { CompleteAreEvents(items, cwd); }
    if items == [] {
    } else if items[0].Junk? {
      Witness.JunkIsNotClear(items, open, cwd);
    } else {
      var event := items[0].event;
      Witness.FirstOfAll(number, items, open, cwd);
      EventIsAccounted(number, event, cwd);
      TraceIsAccounted(number + 1, items[1..], Witness.OpenPast(open, items[0]), CwdBehind(cwd, event));
    }
  }

  /** The answer for a whole trace, against the account of its calls. */
  lemma AnswerIsAccount(items: seq<Witness.Item>, cwd: Bytes, answer: Option<State>)
    requires Witness.Runs(items, map[]) && Answers(Witness.LinesOf(items, map[]), cwd, answer)
    ensures answer.Some? && forall k | 0 <= k < |items| :: items[k].Event? ==> EventOk(items[k].event)
    ensures answer.value.unreadable == []
            <==> AllComplete(items, Some(cwd)) && Witness.OpenAfter(items, map[]) == map[]
    ensures answer.value.unreadable == [] ==>
              && (forall k | 0 <= k < |items| :: items[k].Event? && EventOk(items[k].event))
              && answer.value.writes == WholeAccount(1, items, Some(cwd))
              && answer.value.executions == AllLaunches(1, items, Some(cwd))
  {
    hide *;
    TraceIsAccounted(1, items, map[], Some(cwd));
    Witness.AnswerHolds(items, cwd, answer);
  }

  /** A clean bill says that every path the account names lies inside, and that nothing was left out of it. */
  lemma CleanBillOfTheAccount(items: seq<Witness.Item>, cwd: Bytes, answer: Option<State>, usable: bool,
                              complained: bool, owned: (Bytes, Reach) -> Option<bool>)
    requires Witness.Runs(items, map[]) && Answers(Witness.LinesOf(items, map[]), cwd, answer)
    ensures forall k | 0 <= k < |items| :: items[k].Event? ==> EventOk(items[k].event)
    ensures AllComplete(items, Some(cwd)) ==> forall k | 0 <= k < |items| :: items[k].Event?
    ensures Witness.WritesOutside(answer, usable, complained, owned) == Witness.Read({})
            <==> && usable && !complained
                 && AllComplete(items, Some(cwd)) && Witness.OpenAfter(items, map[]) == map[]
                 && AllLaunches(1, items, Some(cwd)) != []
                 && forall write | write in WholeAccount(1, items, Some(cwd)) ::
                      owned(write.path, write.reach) == Some(true)
  {
    hide *;
    TraceIsAccounted(1, items, map[], Some(cwd));
    Witness.CleanBill(items, cwd, answer, usable, complained, owned);
    if AllComplete(items, Some(cwd)) {
      EachIsInside(WholeAccount(1, items, Some(cwd)), owned);
    }
  }

  lemma EachIsInside(writes: seq<Written>, owned: (Bytes, Reach) -> Option<bool>)
    ensures Witness.AllInside(writes, owned)
            <==> forall write | write in writes :: owned(write.path, write.reach) == Some(true)
  {
  }

  // ------------------------------------------------------------ line by line

  /** What is known of the directory before each line. */
  function CwdBefore(items: seq<Witness.Item>, cwd: Option<Bytes>, i: nat): Option<Bytes>
    requires i <= |items| && forall k | 0 <= k < |items| :: items[k].Event? && EventOk(items[k].event)
    decreases i
  {
    if i == 0 then cwd else CwdBefore(items[1..], CwdBehind(cwd, items[0].event), i - 1)
  }

  lemma LinesOfOne(number: nat, event: Event, cwd: Option<Bytes>)
    requires EventOk(event)
    ensures forall write | write in EventAccount(number, event, cwd) :: write.line == number
  {
    hide CallOk, ChangedPaths, Certainty;
  }

  lemma {:induction false} LinesGrow(number: nat, items: seq<Witness.Item>, cwd: Option<Bytes>)
    requires forall k | 0 <= k < |items| :: items[k].Event? && EventOk(items[k].event)
    ensures forall write | write in WholeAccount(number, items, cwd) :: write.line >= number
    decreases |items|
  {
    hide EventOk, EventAccount, CwdBehind;
    if items != [] {
      LinesOfOne(number, items[0].event, cwd);
      LinesGrow(number + 1, items[1..], CwdBehind(cwd, items[0].event));
    }
  }

  /** The entries of a line are those of the call it completes, and no others. */
  lemma {:induction false} EntriesOfALine(number: nat, items: seq<Witness.Item>, cwd: Option<Bytes>, i: nat,
                                          write: Written)
    requires i < |items| && forall k | 0 <= k < |items| :: items[k].Event? && EventOk(items[k].event)
    ensures write in WholeAccount(number, items, cwd) && write.line == number + i
            <==> write in EventAccount(number + i, items[i].event, CwdBefore(items, cwd, i))
    decreases i
  {
    hide EventOk, EventAccount, CwdBehind;
    var rest, past := items[1..], CwdBehind(cwd, items[0].event);
    LinesOfOne(number, items[0].event, cwd);
    LinesGrow(number + 1, rest, past);
    if i > 0 {
      EntriesOfALine(number + 1, rest, past, i - 1, write);
      LinesOfOne(number + i, items[i].event, CwdBefore(items, cwd, i));
    }
  }

  /** In a trace read in full, what is recorded of a line is exactly what the call it completes changed. */
  lemma LineByLine(items: seq<Witness.Item>, cwd: Bytes, answer: Option<State>, i: nat)
    requires Witness.Runs(items, map[]) && Answers(Witness.LinesOf(items, map[]), cwd, answer)
    requires i < |items| && answer.Some? && answer.value.unreadable == []
    ensures forall k | 0 <= k < |items| :: items[k].Event? && EventOk(items[k].event)
    ensures EventComplete(items[i].event, CwdBefore(items, Some(cwd), i))
    ensures forall write :: write in answer.value.writes && write.line == i + 1
                            <==> write in EventAccount(i + 1, items[i].event, CwdBefore(items, Some(cwd), i))
  {
    hide *;
    AnswerIsAccount(items, cwd, answer);
    CompleteAt(items, Some(cwd), i);
    forall write ensures write in answer.value.writes && write.line == i + 1
                         <==> write in EventAccount(i + 1, items[i].event, CwdBefore(items, Some(cwd), i)) {
      EntriesOfALine(1, items, Some(cwd), i, write);
    }
  }

  /** So the line that completes an open that ran has an entry exactly if its flags hold one of the six, and
      the entry names the path that was reached. */
  lemma OpensAreWrites(items: seq<Witness.Item>, cwd: Bytes, answer: Option<State>, i: nat, call: Call)
    requires Witness.Runs(items, map[]) && Answers(Witness.LinesOf(items, map[]), cwd, answer)
    requires i < |items| && answer.Some? && answer.value.unreadable == []
    requires items[i].Event? && EventOk(items[i].event) && Finishes(items[i].event) == Some(call)
    requires IsOpen(call.name) && Ran(call.result)
    ensures CallOk(call) && Flags(call).Some?
    ensures (exists write :: write in answer.value.writes && write.line == i + 1) <==> CanWrite(Flags(call).value)
    ensures forall write | write in answer.value.writes && write.line == i + 1 ::
              (PathShown(call.result).Some? ==> Some(write.path) == PathShown(call.result)) && write.reach == Through
  {
    hide *;
    LineByLine(items, cwd, answer, i);
    OpenEntries(i + 1, items[i].event, CwdBefore(items, Some(cwd), i));
  }

  lemma {:induction false} CompleteAt(items: seq<Witness.Item>, cwd: Option<Bytes>, i: nat)
    requires i < |items| && forall k | 0 <= k < |items| :: items[k].Event? && EventOk(items[k].event)
    requires AllComplete(items, cwd)
    ensures EventComplete(items[i].event, CwdBefore(items, cwd, i))
    decreases i
  {
    hide EventOk, EventComplete, CwdBehind;
    if i > 0 { CompleteAt(items[1..], CwdBehind(cwd, items[0].event), i - 1); }
  }

  lemma OpenEntries(number: nat, event: Event, cwd: Option<Bytes>)
    requires EventOk(event) && Finishes(event).Some? && EventComplete(event, cwd)
    requires IsOpen(Finishes(event).value.name) && Ran(Finishes(event).value.result)
    ensures var call, entries := Finishes(event).value, EventAccount(number, event, cwd);
            && CallOk(call) && Flags(call).Some?
            && (CanWrite(Flags(call).value) <==> exists write :: write in entries)
            && forall write | write in entries ::
                 (PathShown(call.result).Some? ==> Some(write.path) == PathShown(call.result))
                 && write.reach == Through
  {
    var call, entries := Finishes(event).value, EventAccount(number, event, cwd);
    hide CallOk, CanWrite, PathShown, Certainty, Touches, Flags, Ran, Complete;
    CompleteOpen(call, cwd);
    if CanWrite(Flags(call).value) { assert entries[0] in entries; }
  }
}
