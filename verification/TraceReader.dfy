/** A system call trace, read line by line: interrupted calls put together again, every start and
    every write a call declares, and every line that could not be read. */
module TraceReader {
  import opened Wrappers
  import opened ByteStrings
  import opened Chars
  import opened Decimal
  import opened TraceText

  // ------------------------------------------------------------ the table

  datatype Kind = Starts | Opens | Writes | Moves

  /** Whether a call works on the name it is given or goes through it. */
  datatype Reach = Entry | Through

  /** A path argument: its position, and the position of the directory it is relative to. */
  datatype Position = At(path: nat, directory: Option<nat>)

  datatype Traced = Traced(kind: Kind, positions: seq<Position>, reach: Reach)

  const ONE := [At(0, None)]
  const TWO := [At(1, Some(0))]

  const TRACED_CALLS: map<string, Traced> := map[
    "execve" := Traced(Starts, ONE, Through),
    "execveat" := Traced(Starts, TWO, Through),
    "open" := Traced(Opens, ONE, Through),
    "openat" := Traced(Opens, TWO, Through),
    "openat2" := Traced(Opens, TWO, Through),
    "creat" := Traced(Writes, ONE, Through),
    "truncate" := Traced(Writes, ONE, Through),
    "ftruncate" := Traced(Writes, ONE, Through),
    "mkdir" := Traced(Writes, ONE, Entry),
    "mkdirat" := Traced(Writes, TWO, Entry),
    "rmdir" := Traced(Writes, ONE, Entry),
    "unlink" := Traced(Writes, ONE, Entry),
    "unlinkat" := Traced(Writes, TWO, Entry),
    "rename" := Traced(Writes, [At(0, None), At(1, None)], Entry),
    "renameat" := Traced(Writes, [At(1, Some(0)), At(3, Some(2))], Entry),
    "renameat2" := Traced(Writes, [At(1, Some(0)), At(3, Some(2))], Entry),
    "link" := Traced(Writes, [At(1, None)], Entry),
    "linkat" := Traced(Writes, [At(3, Some(2))], Entry),
    "symlink" := Traced(Writes, [At(1, None)], Entry),
    "symlinkat" := Traced(Writes, [At(2, Some(1))], Entry),
    "mknod" := Traced(Writes, ONE, Entry),
    "mknodat" := Traced(Writes, TWO, Entry),
    "chdir" := Traced(Moves, ONE, Entry),
    "fchdir" := Traced(Moves, ONE, Entry)]

  function ArgvPosition(name: string): nat {
    if name == "execve" then 1 else 2
  }

  function FlagsPosition(name: string): nat {
    if name == "open" then 1 else 2
  }

  const WRITE_FLAGS: seq<string> := ["O_WRONLY", "O_RDWR", "O_CREAT", "O_TRUNC", "O_APPEND", "O_TMPFILE"]
  const RENAMES: set<string> := {"rename", "renameat", "renameat2"}

  datatype Did = Changed | MayHaveChanged | OnlyAbleToChange

  predicate Contains(text: string, part: string) {
    |part| <= |text| && (text[..|part|] == part || (text != "" && Contains(text[1..], part)))
  }

  predicate CouldWrite(flags: string) {
    exists i :: 0 <= i < |WRITE_FLAGS| && Contains(flags, WRITE_FLAGS[i])
  }

  function WhatAnOpenDid(flags: string): Did {
    if Contains(flags, "O_TRUNC") || Contains(flags, "O_TMPFILE") then Changed
    else if Contains(flags, "O_CREAT") && Contains(flags, "O_EXCL") then Changed
    else if Contains(flags, "O_CREAT") then MayHaveChanged
    else OnlyAbleToChange
  }

  function WhatAPathCallDid(name: string): Did {
    if name in RENAMES then MayHaveChanged else Changed
  }

  // ------------------------------------------------------------ the answer

  datatype Execution = Execution(line: nat, pid: nat, path: Bytes, argv: seq<Bytes>)
  datatype Written = Written(line: nat, pid: nat, call: string, path: Bytes, reach: Reach, did: Did)

  datatype Why = NoCall | NoInterruptedHalf | NoArguments | NotInTheTable | NoResult
               | UnreadStart | UnreadPath | NoFlags | NeverResumed(half: Half)

  /** What could not be read, by its line; a half never resumed has none. */
  datatype Trouble = Trouble(line: Option<nat>, why: Why)

  /** An interrupted call is told by its process and its name. */
  type Half = (nat, string)

  /** What is known after some lines. `interrupted` holds the first halves still waiting. */
  datatype State = State(
    executions: seq<Execution>, writes: seq<Written>, unreadable: seq<Trouble>,
    failedAttempts: nat, restarted: nat, lines: nat, writeCalls: nat, rootPid: Option<nat>,
    cwd: Option<Bytes>, interrupted: map<Half, string>)

  function Start(cwd: Bytes): State {
    State([], [], [], 0, 0, 0, 0, None, Some(cwd), map[])
  }

  function Unread(state: State, number: nat, why: Why): State {
    state.(unreadable := state.unreadable + [Trouble(Some(number), why)])
  }

  // ------------------------------------------------------------ one call

  function Undeleted(path: string): string {
    var mark := " (deleted)";
    if |path| >= |mark| && path[|path| - |mark|..] == mark then path[..|path| - |mark|] else path
  }

  function Find(text: string, c: char): (at: int)
    ensures -1 <= at < |text|
    ensures at >= 0 ==> text[at] == c
    ensures forall i | 0 <= i < (if at < 0 then |text| else at) :: text[i] != c
  {
    if text == "" then -1
    else if text[0] == c then 0
    else var rest := Find(text[1..], c); if rest < 0 then -1 else rest + 1
  }

  /** The path the tracer put on a descriptor. */
  function ResolvedDescriptor(token: string): Option<Bytes> {
    var at := Find(token, '<');
    if at < 0 || token[|token| - 1] != '>' then None
    else
      var inside := Undeleted(token[at + 1..|token| - 1]);
      if inside == "" then None else Some(Encoded(inside))
  }

  const SLASH: byte := 47

  predicate Absolute(path: Bytes) {
    path != [] && path[0] == SLASH
  }

  function JoinPath(base: Bytes, path: Bytes): Bytes
    requires base != []
  {
    if base[|base| - 1] == SLASH then base + path else base + [SLASH] + path
  }

  function Against(base: Option<Bytes>, named: Bytes): Word {
    if Absolute(named) then Word(named)
    else if base.GetOr([]) == [] then NotAWord
    else Word(JoinPath(base.value, named))
  }

  function PathArgument(arguments: seq<string>, at: Position, cwd: Option<Bytes>): Word {
    if at.path >= |arguments| then NotAWord
    else
      match StringArgument(arguments[at.path])
      case Raises => Raises
      case NotAWord =>
        (match ResolvedDescriptor(arguments[at.path]) case Some(path) => Word(path) case None => NotAWord)
      case Word(named) =>
        var directory := if at.directory.Some? && at.directory.value < |arguments|
                         then ResolvedDescriptor(arguments[at.directory.value]) else None;
        Against(if directory.Some? then directory else cwd, named)
  }

  /** The words of an argument list, or the first reason one could not be read. */
  datatype Argv = Argv(words: seq<Bytes>) | NoArgv | ArgvRaises

  function ArgvWords(tokens: seq<string>): Argv {
    if tokens == [] then Argv([])
    else
      match StringArgument(tokens[0])
      case Raises => ArgvRaises
      case NotAWord => NoArgv
      case Word(first) =>
        match ArgvWords(tokens[1..])
        case Argv(words) => Argv([first] + words)
        case other => other
  }

  function ArgvOf(arguments: seq<string>, position: nat): Argv {
    if position >= |arguments| then NoArgv
    else
      var token := arguments[position];
      if |token| < 2 || token[0] != '[' || token[|token| - 1] != ']' then NoArgv
      else ArgvWords(Arguments(token[1..|token| - 1]))
  }

  predicate StartsWith(text: string, prefix: string) {
    |prefix| <= |text| && text[..|prefix|] == prefix
  }

  predicate EndsWith(text: string, suffix: string) {
    |suffix| <= |text| && text[|text| - |suffix|..] == suffix
  }

  predicate Succeeded(result: string) {
    !StartsWith(result, "?") && !StartsWith(result, "-1")
  }

  function Started(state: State, number: nat, pid: nat, path: Word, argv: Argv): Option<State> {
    if path.Raises? || argv.ArgvRaises? then None
    else if path.NotAWord? || argv.NoArgv? then Some(Unread(state, number, UnreadStart))
    else Some(state.(executions := state.executions + [Execution(number, pid, path.bytes, argv.words)]))
  }

  function Opened(state: State, number: nat, pid: nat, name: string, path: Word, flags: Option<string>,
                  result: string): Option<State>
  {
    if path.Raises? then None
    else if path.NotAWord? then Some(Unread(state, number, UnreadPath))
    else if flags == None || !Contains(flags.value, "O_") then Some(Unread(state, number, NoFlags))
    else if !CouldWrite(flags.value) then Some(state)
    else
      var reached := match ResolvedDescriptor(result) case Some(there) => there case None => path.bytes;
      Some(state.(writeCalls := state.writeCalls + 1,
                  writes := state.writes
                    + [Written(number, pid, name, reached, Through, WhatAnOpenDid(flags.value))]))
  }

  /** Every declared path of a call that names what it changes. */
  function WroteEach(state: State, number: nat, pid: nat, name: string, reach: Reach,
                     paths: seq<Word>): Option<State>
    decreases |paths|
  {
    if paths == [] then Some(state)
    else
      match paths[0]
      case Raises => None
      case NotAWord => WroteEach(Unread(state, number, UnreadPath), number, pid, name, reach, paths[1..])
      case Word(path) =>
        WroteEach(state.(writes := state.writes
                           + [Written(number, pid, name, path, reach, WhatAPathCallDid(name))]),
                  number, pid, name, reach, paths[1..])
  }

  /** What a call's arguments say: the paths at its positions, its argument list, its flags. */
  datatype Said = Said(paths: seq<Word>, argv: Argv, flags: Option<string>)

  function Taken(state: State, number: nat, pid: nat, name: string, said: Said, result: string): Option<State>
    requires name in TRACED_CALLS && |said.paths| == |TRACED_CALLS[name].positions|
  {
    var rooted := if state.rootPid == None then state.(rootPid := Some(pid)) else state;
    if StartsWith(result, "?") then Some(rooted.(restarted := rooted.restarted + 1))
    else if StartsWith(result, "-1") then Some(rooted.(failedAttempts := rooted.failedAttempts + 1))
    else
      match TRACED_CALLS[name].kind
      case Moves => Some(rooted.(cwd := None))
      case Starts => Started(rooted, number, pid, if said.paths == [] then NotAWord else said.paths[0], said.argv)
      case Opens =>
        Opened(rooted, number, pid, name, if said.paths == [] then NotAWord else said.paths[0],
               said.flags, result)
      case Writes =>
        WroteEach(rooted.(writeCalls := rooted.writeCalls + 1), number, pid, name,
                  TRACED_CALLS[name].reach, said.paths)
  }

  function Heard(name: string, arguments: seq<string>, cwd: Option<Bytes>): Said
    requires name in TRACED_CALLS
  {
    var positions := TRACED_CALLS[name].positions;
    Said(seq(|positions|, i requires 0 <= i < |positions| => PathArgument(arguments, positions[i], cwd)),
         ArgvOf(arguments, ArgvPosition(name)),
         if FlagsPosition(name) < |arguments| then Some(arguments[FlagsPosition(name)]) else None)
  }

  // ------------------------------------------------------------ one line

  /** A call whose two ends are both at hand. */
  function Whole(state: State, number: nat, pid: nat, body: string): Option<State> {
    var bracket := Find(body, '(');
    var name := Strip(if bracket < 0 then body else body[..bracket]);
    if name !in TRACED_CALLS then Some(Unread(state, number, NotInTheTable))
    else
      var found := ResultBefore(body, |body|);
      if bracket < 0 || found == None || found.value.0 <= bracket || found.value.0 > |body|
      then Some(Unread(state, number, NoResult))
      else
        var arguments := Arguments(body[bracket + 1..found.value.0]);
        Taken(state, number, pid, name, Heard(name, arguments, state.cwd), found.value.1)
  }

  const UNFINISHED := "<unfinished ...>"
  const RESUMED := "resumed>"

  /** What follows the first occurrence of a text; nothing where there is none. */
  function After(text: string, part: string): string {
    if |text| < |part| || part == "" then ""
    else if text[..|part|] == part then text[|part|..]
    else After(text[1..], part)
  }

  function Body(state: State, number: nat, pid: nat, body: string): Option<State> {
    if StartsWith(body, "+++") || StartsWith(body, "---") then Some(state)
    else if StartsWith(body, "<... ") then
      var space := Find(body[5..], ' ');
      var name := if space < 0 then body[5..] else body[5..][..space];
      if (pid, name) !in state.interrupted then Some(Unread(state, number, NoInterruptedHalf))
      else
        var held := state.interrupted[(pid, name)];
        Whole(state.(interrupted := state.interrupted - {(pid, name)}), number, pid,
              name + "(" + held + After(body, RESUMED))
    else if EndsWith(body, UNFINISHED) then
      var bracket := Find(body, '(');
      if bracket < 0 || bracket + 1 > |body| - |UNFINISHED| then Some(Unread(state, number, NoArguments))
      else
        var name := Strip(body[..bracket]);
        var held := RStrip(body[bracket + 1..|body| - |UNFINISHED|]);
        Some(state.(interrupted := state.interrupted[(pid, name) := held]))
    else Whole(state, number, pid, body)
  }

  function Line(state: State, number: nat, line: string): Option<State> {
    if Blank(line) then Some(state)
    else
      var counted := state.(lines := state.lines + 1);
      var space := Find(line, ' ');
      var head := if space < 0 then line else line[..space];
      var body := if space < 0 then "" else Strip(line[space + 1..]);
      if head == "" || !AllDigits(head) || body == "" then Some(Unread(counted, number, NoCall))
      else Body(counted, number, Value(head), body)
  }

  /** The whole trace; None where a reading raised. */
  function Parsed(state: State, number: nat, lines: seq<string>): Option<State>
    decreases |lines|
  {
    if lines == [] then Some(state)
    else
      match Line(state, number, lines[0])
      case None => None
      case Some(next) => Parsed(next, number + 1, lines[1..])
  }

  // ------------------------------------------------------------ halves never resumed

  /** The order of Python strings: character by character, a prefix first. */
  predicate TextBefore(a: string, b: string) {
    b != "" && (a == "" || a[0] < b[0] || (a[0] == b[0] && TextBefore(a[1..], b[1..])))
  }

  predicate HalfBefore(a: Half, b: Half) {
    a.0 < b.0 || (a.0 == b.0 && TextBefore(a.1, b.1))
  }

  predicate Increasing(halves: seq<Half>) {
    forall i | 0 <= i < |halves| - 1 :: HalfBefore(halves[i], halves[i + 1])
  }

  /** Every half of the set once, in order. */
  ghost predicate InOrder(halves: seq<Half>, all: set<Half>) {
    Increasing(halves) && |halves| == |all| && forall half :: half in halves <==> half in all
  }

  function Inserted(half: Half, into: seq<Half>): seq<Half> {
    if into == [] || HalfBefore(half, into[0]) then [half] + into else [into[0]] + Inserted(half, into[1..])
  }

  lemma {:induction false} TextsCompare(a: string, b: string)
    ensures TextBefore(a, b) || a == b || TextBefore(b, a)
  {
    if a != "" && b != "" && a[0] == b[0] {
      TextsCompare(a[1..], b[1..]);
      assert a == [a[0]] + a[1..] && b == [b[0]] + b[1..];
    }
  }

  lemma {:induction false} InsertedInOrder(half: Half, into: seq<Half>)
    requires Increasing(into) && half !in into
    ensures var after := Inserted(half, into);
            && Increasing(after) && |after| == |into| + 1
            && (forall other :: other in after <==> other == half || other in into)
            && after[0] == (if into == [] || HalfBefore(half, into[0]) then half else into[0])
    decreases |into|
  {
    if into != [] && !HalfBefore(half, into[0]) {
      TextsCompare(half.1, into[0].1);
      forall i | 0 <= i < |into[1..]| - 1 ensures HalfBefore(into[1..][i], into[1..][i + 1]) {
        assert HalfBefore(into[i + 1], into[i + 2]);
      }
      InsertedInOrder(half, into[1..]);
      var rest, after := Inserted(half, into[1..]), Inserted(half, into);
      assert HalfBefore(after[0], after[1]);
      forall i | 0 <= i < |after| - 1 ensures HalfBefore(after[i], after[i + 1]) {
        if i > 0 { assert after[i] == rest[i - 1] && after[i + 1] == rest[i]; }
      }
      assert into == [into[0]] + into[1..];
    }
  }

  method SortHalves(all: set<Half>) returns (halves: seq<Half>)
    ensures InOrder(halves, all)
  {
    halves := [];
    var rest := all;
    while rest != {}
      invariant rest <= all && InOrder(halves, all - rest)
      decreases rest
    {
      var half :| half in rest;
      InsertedInOrder(half, halves);
      assert all - (rest - {half}) == (all - rest) + {half};
      halves := Inserted(half, halves);
      rest := rest - {half};
    }
    assert all - rest == all;
  }

  /** Every half still waiting at the end is one more thing that could not be read. */
  function Reported(last: State, halves: seq<Half>): State {
    last.(unreadable := last.unreadable
            + seq(|halves|, i requires 0 <= i < |halves| => Trouble(None, NeverResumed(halves[i]))))
  }

  /** The answer for a trace: its lines read one after another, then the halves never resumed. */
  ghost predicate Answers(lines: seq<string>, cwd: Bytes, answer: Option<State>) {
    match Parsed(Start(cwd), 1, lines)
    case None => answer == None
    case Some(last) => exists halves :: InOrder(halves, last.interrupted.Keys) && answer == Some(Reported(last, halves))
  }

  /** The lines of a trace, numbered from one, over one mutable answer. */
  method ParseTrace(lines: seq<string>, cwd: Bytes) returns (answer: Option<State>)
    ensures Answers(lines, cwd, answer)
  {
    var state := Start(cwd);
    var i := 0;
    while i < |lines|
      invariant 0 <= i <= |lines|
      invariant Parsed(state, i + 1, lines[i..]) == Parsed(Start(cwd), 1, lines)
    {
      var next := Line(state, i + 1, lines[i]);
      assert lines[i..][0] == lines[i] && lines[i..][1..] == lines[i + 1..];
      if next == None { return None; }
      state := next.value;
      i := i + 1;
    }
    var halves := SortHalves(state.interrupted.Keys);
    var troubles: seq<Trouble> := [];
    for k := 0 to |halves|
      invariant |troubles| == k
      invariant forall j | 0 <= j < k :: troubles[j] == Trouble(None, NeverResumed(halves[j]))
    {
      troubles := troubles + [Trouble(None, NeverResumed(halves[k]))];
    }
    state := state.(unreadable := state.unreadable + troubles);
    assert state == Reported(Parsed(Start(cwd), 1, lines).value, halves);
    return Some(state);
  }
}
