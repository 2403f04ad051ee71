/** What a trace establishes: the reader inverts the printer over whole traces, and a clean bill
    means that every write stayed inside. */
module TraceWitness {
  import opened Wrappers
  import opened ByteStrings
  import opened Chars
  import opened TraceText
  import opened TraceReader
  import opened TracePrinter
  import opened TraceRoundTrip

  // ------------------------------------------------------------ whole traces

  /** A line of a trace: an event as the tracer prints it, or something nobody can read. */
  datatype Item = Event(event: TraceRoundTrip.Event) | Junk(line: string)

  /** A line that leaves one thing more that could not be read, whatever else came before it, while
      these halves are outstanding. */
  ghost predicate Unreadable(line: string, open: Open) {
    forall state: State, number: nat :: Waits(state.interrupted, open) ==>
      Line(state, number, line).Some? && OneMoreUnread(state, Line(state, number, line).value)
  }

  predicate OneMoreUnread(state: State, next: State) {
    next.interrupted == state.interrupted && state.unreadable < next.unreadable
  }

  ghost predicate ItemOk(item: Item, open: Open) {
    match item
    case Event(event) => EventOk(event) && Follows(open, event)
    case Junk(line) => Unreadable(line, open)
  }

  function OpenPast(open: Open, item: Item): Open {
    if item.Event? then Outstanding(open, item.event) else open
  }

  ghost predicate Runs(items: seq<Item>, open: Open) {
    items == [] || (ItemOk(items[0], open) && Runs(items[1..], OpenPast(open, items[0])))
  }

  function OpenAfter(items: seq<Item>, open: Open): Open {
    if items == [] then open else OpenAfter(items[1..], OpenPast(open, items[0]))
  }

  ghost function LineFor(item: Item): string
    requires item.Event? ==> EventOk(item.event)
  {
    if item.Event? then LineOf(item.event) else item.line
  }

  ghost function LinesOf(items: seq<Item>, open: Open): seq<string>
    requires Runs(items, open)
  {
    if items == [] then [] else [LineFor(items[0])] + LinesOf(items[1..], OpenPast(open, items[0]))
  }

  ghost function ToldItem(state: State, number: nat, item: Item): Option<State>
    requires item.Event? ==> EventOk(item.event)
  {
    if item.Event? then ToldEvent(state, number, item.event) else Line(state, number, item.line)
  }

  /** What a trace means: its calls in the order they completed, each by what it says. */
  ghost function Meaning(state: State, number: nat, items: seq<Item>, open: Open): Option<State>
    requires Runs(items, open)
    decreases |items|
  {
    if items == [] then Some(state)
    else
      match ToldItem(state, number, items[0])
      case None => None
      case Some(next) => Meaning(next, number + 1, items[1..], OpenPast(open, items[0]))
  }

  // ------------------------------------------------------------ what one call adds

  predicate AllWords(paths: seq<Word>) {
    forall k | 0 <= k < |paths| :: paths[k].Word?
  }

  predicate SaidOf(name: string, said: Said) {
    && name in TRACED_CALLS && said.paths != [] && |said.paths| == |TRACED_CALLS[name].positions|
    && (forall k | 0 <= k < |said.paths| :: !said.paths[k].Raises?) && !said.argv.ArgvRaises?
  }

  /** What the reader has to find in a call: nothing in one that failed; in one that succeeded every
      path it names, the argument list of a start, the flags of an open. */
  predicate Suffices(name: string, said: Said, result: string)
    requires SaidOf(name, said)
  {
    Succeeded(result) ==>
      match TRACED_CALLS[name].kind
      case Moves => true
      case Starts => said.paths[0].Word? && said.argv.Argv?
      case Opens => said.paths[0].Word? && said.flags.Some? && Contains(said.flags.value, "O_")
      case Writes => AllWords(said.paths)
  }

  /** After a successful change of directory nobody is told where relative paths lead. */
  function CwdAfter(cwd: Option<Bytes>, name: string, result: string): Option<Bytes>
    requires name in TRACED_CALLS
  {
    if Succeeded(result) && TRACED_CALLS[name].kind.Moves? then None else cwd
  }

  /** The paths a successful call changes, from what its arguments say. */
  function Changed(name: string, said: Said, result: string): seq<Word>
    requires SaidOf(name, said)
  {
    if !Succeeded(result) then []
    else
      match TRACED_CALLS[name].kind
      case Writes => said.paths
      case Opens =>
        if said.flags == None || !CouldWrite(said.flags.value) then []
        else if said.paths[0].Word? then
          [Word(match ResolvedDescriptor(result) case Some(there) => there case None => said.paths[0].bytes)]
        else [said.paths[0]]
      case _ => []
  }

  function ReachOf(name: string): Reach
    requires name in TRACED_CALLS
  {
    if TRACED_CALLS[name].kind.Opens? then Through else TRACED_CALLS[name].reach
  }

  function DidOf(name: string, said: Said): Did
    requires name in TRACED_CALLS
  {
    if TRACED_CALLS[name].kind.Opens? then WhatAnOpenDid(said.flags.GetOr("")) else WhatAPathCallDid(name)
  }

  function Entries(number: nat, pid: nat, name: string, reach: Reach, did: Did, paths: seq<Word>): seq<Written> {
    seq(|paths|, k requires 0 <= k < |paths| =>
      Written(number, pid, name, if paths[k].Word? then paths[k].bytes else [], reach, did))
  }

  /** The writes a call declares. */
  function WritesBy(number: nat, pid: nat, name: string, said: Said, result: string): seq<Written>
    requires SaidOf(name, said)
  {
    Entries(number, pid, name, ReachOf(name), DidOf(name, said), Changed(name, said, result))
  }

  /** The program a call starts, if it starts one. */
  function StartsBy(number: nat, pid: nat, name: string, said: Said, result: string): seq<Execution>
    requires SaidOf(name, said)
  {
    if Succeeded(result) && TRACED_CALLS[name].kind.Starts? && said.paths[0].Word? && said.argv.Argv?
    then [Execution(number, pid, said.paths[0].bytes, said.argv.words)] else []
  }

  predicate Adds(state: State, next: State, starts: seq<Execution>, writes: seq<Written>) {
    next.executions == state.executions + starts && next.writes == state.writes + writes
  }

  /** Where everything was found the call adds what it declares and nothing else could not be read;
      where not, one thing more could not. */
  predicate Reads(state: State, next: State, found: bool, starts: seq<Execution>, writes: seq<Written>) {
    && next.interrupted == state.interrupted
    && (found ==> next.unreadable == state.unreadable && Adds(state, next, starts, writes))
    && (!found ==> state.unreadable < next.unreadable)
  }

  lemma {:induction false} WroteEachAdds(state: State, number: nat, pid: nat, name: string, reach: Reach,
                                         paths: seq<Word>)
    requires forall k | 0 <= k < |paths| :: !paths[k].Raises?
    ensures var next := WroteEach(state, number, pid, name, reach, paths);
            && next.Some? && next.value.cwd == state.cwd
            && Reads(state, next.value, AllWords(paths), [],
                     Entries(number, pid, name, reach, WhatAPathCallDid(name), paths))
    decreases |paths|
  {
    if paths != [] {
      var rest, did := paths[1..], WhatAPathCallDid(name);
      var first := if paths[0].NotAWord? then Unread(state, number, UnreadPath)
                   else state.(writes := state.writes
                                 + [Written(number, pid, name, paths[0].bytes, reach, did)]);
      WroteEachAdds(first, number, pid, name, reach, rest);
      assert AllWords(paths) <==> paths[0].Word? && AllWords(rest) by {
        assert forall k | 1 <= k < |paths| :: paths[k] == rest[k - 1];
        assert forall k | 0 <= k < |rest| :: rest[k] == paths[k + 1];
      }
      if AllWords(paths) {
        assert Entries(number, pid, name, reach, did, paths)
               == [Written(number, pid, name, paths[0].bytes, reach, did)]
                  + Entries(number, pid, name, reach, did, rest);
      }
    }
  }

  lemma StartedRecords(state: State, number: nat, pid: nat, path: Word, argv: Argv)
    requires !path.Raises? && !argv.ArgvRaises?
    ensures var next := Started(state, number, pid, path, argv);
            && next.Some? && next.value.cwd == state.cwd
            && Reads(state, next.value, path.Word? && argv.Argv?,
                     if path.Word? && argv.Argv? then [Execution(number, pid, path.bytes, argv.words)] else [], [])
  {
  }

  lemma OpenedRecords(state: State, number: nat, pid: nat, name: string, path: Word, flags: Option<string>,
                      result: string)
    requires !path.Raises?
    ensures var next := Opened(state, number, pid, name, path, flags, result);
            && next.Some? && next.value.cwd == state.cwd
            && var found := path.Word? && flags.Some? && Contains(flags.value, "O_");
               var reached := match ResolvedDescriptor(result)
                              case Some(there) => there
                              case None => if path.Word? then path.bytes else [];
               Reads(state, next.value, found, [],
                     if found && CouldWrite(flags.value)
                     then [Written(number, pid, name, reached, Through, WhatAnOpenDid(flags.value))] else [])
  {
    hide CouldWrite, Contains, ResolvedDescriptor, WhatAnOpenDid;
  }

  lemma OneEntry(number: nat, pid: nat, name: string, reach: Reach, did: Did, path: Bytes)
    ensures Entries(number, pid, name, reach, did, [Word(path)]) == [Written(number, pid, name, path, reach, did)]
    ensures Entries(number, pid, name, reach, did, []) == []
  {
  }

  predicate TellsAll(state: State, number: nat, pid: nat, name: string, said: Said, result: string)
    requires SaidOf(name, said)
  {
    var next := Taken(state, number, pid, name, said, result);
    && next.Some? && next.value.cwd == CwdAfter(state.cwd, name, result)
    && Reads(state, next.value, Suffices(name, said, result), StartsBy(number, pid, name, said, result),
             WritesBy(number, pid, name, said, result))
  }

  function Rooted(state: State, pid: nat): State {
    if state.rootPid == None then state.(rootPid := Some(pid)) else state
  }

  lemma FailedAdds(state: State, number: nat, pid: nat, name: string, said: Said, result: string)
    requires SaidOf(name, said) && (!Succeeded(result) || TRACED_CALLS[name].kind.Moves?)
    ensures TellsAll(state, number, pid, name, said, result)
  {
    hide TRACED_CALLS, StartsWith, CouldWrite, Contains, ResolvedDescriptor, Opened, Started, WroteEach,
         WhatAnOpenDid, WhatAPathCallDid, Entries;
    OneEntry(number, pid, name, ReachOf(name), DidOf(name, said), []);
  }

  lemma WriteAdds(state: State, number: nat, pid: nat, name: string, said: Said, result: string)
    requires SaidOf(name, said) && Succeeded(result) && TRACED_CALLS[name].kind.Writes?
    ensures TellsAll(state, number, pid, name, said, result)
  {
    hide TRACED_CALLS, StartsWith, CouldWrite, Contains, ResolvedDescriptor, Opened, Started, WroteEach,
         WhatAnOpenDid, WhatAPathCallDid, Entries, AllWords;
    WroteEachAdds(Rooted(state, pid).(writeCalls := state.writeCalls + 1), number, pid, name,
                  TRACED_CALLS[name].reach, said.paths);
  }

  lemma OpenAdds(state: State, number: nat, pid: nat, name: string, said: Said, result: string)
    requires SaidOf(name, said) && Succeeded(result) && TRACED_CALLS[name].kind.Opens?
    ensures TellsAll(state, number, pid, name, said, result)
  {
    hide TRACED_CALLS, StartsWith, CouldWrite, Contains, ResolvedDescriptor, Opened, Started, WroteEach,
         WhatAnOpenDid, WhatAPathCallDid, Entries, AllWords;
    var path := said.paths[0];
    OneEntry(number, pid, name, ReachOf(name), DidOf(name, said),
             match ResolvedDescriptor(result)
             case Some(there) => there
             case None => if path.Word? then path.bytes else []);
    OpenedRecords(Rooted(state, pid), number, pid, name, path, said.flags, result);
  }

  lemma StartAdds(state: State, number: nat, pid: nat, name: string, said: Said, result: string)
    requires SaidOf(name, said) && Succeeded(result) && TRACED_CALLS[name].kind.Starts?
    ensures TellsAll(state, number, pid, name, said, result)
  {
    hide TRACED_CALLS, StartsWith, CouldWrite, Contains, ResolvedDescriptor, Opened, Started, WroteEach,
         WhatAnOpenDid, WhatAPathCallDid, Entries, AllWords;
    OneEntry(number, pid, name, ReachOf(name), DidOf(name, said), []);
    StartedRecords(Rooted(state, pid), number, pid, said.paths[0], said.argv);
  }

  /** Being told a call never raises; it adds exactly what the call declares where everything the
      reader has to find is there, and is one thing more that could not be read where not. */
  lemma TakenAdds(state: State, number: nat, pid: nat, name: string, said: Said, result: string)
    requires SaidOf(name, said)
    ensures TellsAll(state, number, pid, name, said, result)
  {
    hide TellsAll, TRACED_CALLS, StartsWith;
    if !Succeeded(result) || TRACED_CALLS[name].kind.Moves? {
      FailedAdds(state, number, pid, name, said, result);
    } else {
      match TRACED_CALLS[name].kind
      case Writes => WriteAdds(state, number, pid, name, said, result);
      case Opens => OpenAdds(state, number, pid, name, said, result);
      case Starts => StartAdds(state, number, pid, name, said, result);
    }
  }

  // ------------------------------------------------------------ what one event adds

  lemma RowsHavePaths(name: string)
    requires name in TRACED_CALLS
    ensures TRACED_CALLS[name].positions != []
    ensures TRACED_CALLS[name].kind.Opens? || TRACED_CALLS[name].kind.Starts? ==> |TRACED_CALLS[name].positions| == 1
  {
  }

  lemma SaidByIsSaid(call: Call, cwd: Option<Bytes>)
    requires CallOk(call)
    ensures SaidOf(call.name, SaidBy(call, cwd))
  {
    RowsHavePaths(call.name);
    hide TRACED_CALLS;
  }

  /** What the reader needs of an event's call, with relative paths resolved against what is known
      of the directory. */
  predicate Clear(event: TraceRoundTrip.Event, cwd: Option<Bytes>)
    requires EventOk(event)
  {
    match Finishes(event)
    case None => true
    case Some(call) => SaidByIsSaid(call, cwd); Suffices(call.name, SaidBy(call, cwd), call.result)
  }

  function StartsIn(number: nat, event: TraceRoundTrip.Event, cwd: Option<Bytes>): seq<Execution>
    requires EventOk(event)
  {
    match Finishes(event)
    case None => []
    case Some(call) => SaidByIsSaid(call, cwd); StartsBy(number, event.pid, call.name, SaidBy(call, cwd), call.result)
  }

  function WritesIn(number: nat, event: TraceRoundTrip.Event, cwd: Option<Bytes>): seq<Written>
    requires EventOk(event)
  {
    match Finishes(event)
    case None => []
    case Some(call) => SaidByIsSaid(call, cwd); WritesBy(number, event.pid, call.name, SaidBy(call, cwd), call.result)
  }

  function CwdPast(cwd: Option<Bytes>, event: TraceRoundTrip.Event): Option<Bytes>
    requires EventOk(event)
  {
    match Finishes(event)
    case None => cwd
    case Some(call) => CwdAfter(cwd, call.name, call.result)
  }

  lemma ToldSays(state: State, number: nat, event: TraceRoundTrip.Event)
    requires EventOk(event)
    ensures var next := ToldEvent(state, number, event);
            && next.Some? && next.value.cwd == CwdPast(state.cwd, event)
            && next.value.interrupted == HeldAfter(state.interrupted, event)
            && Reads(state.(interrupted := next.value.interrupted), next.value, Clear(event, state.cwd),
                     StartsIn(number, event, state.cwd), WritesIn(number, event, state.cwd))
  {
    var call := Finishes(event);
    var seen := Seen(state, event);
    hide CallOk, TRACED_CALLS, SaidBy, SaidOf, Suffices, StartsBy, WritesBy, CwdAfter, Taken, HeldAfter;
    if call.Some? {
      SaidByIsSaid(call.value, state.cwd);
      TakenAdds(seen, number, event.pid, call.value.name, SaidBy(call.value, state.cwd), call.value.result);
    }
  }

  lemma WaitsOn(interrupted: map<Half, string>, event: TraceRoundTrip.Event, open: Open)
    requires EventOk(event) && Follows(open, event) && Waits(interrupted, open)
    ensures Waits(HeldAfter(interrupted, event), Outstanding(open, event))
  {
    hide CallOk, Held;
  }

  // ------------------------------------------------------------ the reader inverts the printer

  lemma ItemReads(state: State, number: nat, item: Item, open: Open)
    requires ItemOk(item, open) && Waits(state.interrupted, open)
    ensures Line(state, number, LineFor(item)) == ToldItem(state, number, item)
    ensures var next := ToldItem(state, number, item);
            && next.Some? && Waits(next.value.interrupted, OpenPast(open, item))
            && (item.Junk? ==> state.unreadable < next.value.unreadable)
            && (item.Event? ==>
                  && next.value.cwd == CwdPast(state.cwd, item.event)
                  && Reads(state.(interrupted := next.value.interrupted), next.value, Clear(item.event, state.cwd),
                           StartsIn(number, item.event, state.cwd), WritesIn(number, item.event, state.cwd)))
  {
    hide Line, LineOf, EventOk, Follows, Waits, ToldEvent, Outstanding, Clear, StartsIn, WritesIn, CwdPast, Reads,
         HeldAfter;
    match item
    case Event(event) =>
      EventReads(state, number, event, open);
      ToldSays(state, number, event);
      WaitsOn(state.interrupted, event, open);
    case Junk(line) => assert OneMoreUnread(state, Line(state, number, line).value);
  }

  lemma FirstMeaning(state: State, number: nat, items: seq<Item>, open: Open)
    requires items != [] && Runs(items, open)
    ensures ItemOk(items[0], open) && Runs(items[1..], OpenPast(open, items[0]))
    ensures items[0].Event? ==> EventOk(items[0].event)
    ensures var next := ToldItem(state, number, items[0]);
            next.Some? ==> Meaning(state, number, items, open)
                           == Meaning(next.value, number + 1, items[1..], OpenPast(open, items[0]))
  {
    hide EventOk, Follows, OpenPast, Unreadable, ToldItem;
  }

  lemma FirstLine(state: State, number: nat, items: seq<Item>, open: Open, next: State)
    requires items != [] && Runs(items, open) && ItemOk(items[0], open) && Runs(items[1..], OpenPast(open, items[0]))
    requires items[0].Event? ==> EventOk(items[0].event)
    requires Line(state, number, LineFor(items[0])) == Some(next)
    ensures Parsed(state, number, LinesOf(items, open))
            == Parsed(next, number + 1, LinesOf(items[1..], OpenPast(open, items[0])))
    ensures OpenAfter(items, open) == OpenAfter(items[1..], OpenPast(open, items[0]))
  {
    hide Line, ItemOk, EventOk, LineFor, OpenPast;
    assert LinesOf(items, open)[1..] == LinesOf(items[1..], OpenPast(open, items[0]));
    assert LinesOf(items, open)[0] == LineFor(items[0]);
  }

  /** The reader inverts the printer: the lines of any calls, with any calls interrupted and
      resumed in any interleaving and any unreadable lines between them, read as what those calls
      say, in the order they completed. It never raises on them. */
  lemma {:induction false} TraceInverts(state: State, number: nat, items: seq<Item>, open: Open)
    requires Runs(items, open) && Waits(state.interrupted, open)
    ensures Parsed(state, number, LinesOf(items, open)) == Meaning(state, number, items, open)
    ensures var last := Meaning(state, number, items, open);
            last.Some? && Waits(last.value.interrupted, OpenAfter(items, open))
    decreases |items|
  {
    if items != [] {
      hide *;
      FirstMeaning(state, number, items, open);
      ItemReads(state, number, items[0], open);
      var next := ToldItem(state, number, items[0]).value;
      FirstLine(state, number, items, open, next);
      TraceInverts(next, number + 1, items[1..], OpenPast(open, items[0]));
    }
  }

  // ------------------------------------------------------------ what a readable trace says

  /** Every start and every write of a trace's completed calls, in the order they completed. */
  ghost function AllStarts(number: nat, items: seq<Item>, open: Open, cwd: Option<Bytes>): seq<Execution>
    requires Runs(items, open)
    decreases |items|
  {
    if items == [] then []
    else
      match items[0]
      case Junk(_) => AllStarts(number + 1, items[1..], open, cwd)
      case Event(event) =>
        StartsIn(number, event, cwd) + AllStarts(number + 1, items[1..], OpenPast(open, items[0]), CwdPast(cwd, event))
  }

  ghost function AllWrites(number: nat, items: seq<Item>, open: Open, cwd: Option<Bytes>): seq<Written>
    requires Runs(items, open)
    decreases |items|
  {
    if items == [] then []
    else
      match items[0]
      case Junk(_) => AllWrites(number + 1, items[1..], open, cwd)
      case Event(event) =>
        WritesIn(number, event, cwd) + AllWrites(number + 1, items[1..], OpenPast(open, items[0]), CwdPast(cwd, event))
  }

  /** Every line is an event, and the reader finds in every one what it needs. */
  ghost predicate AllClear(items: seq<Item>, open: Open, cwd: Option<Bytes>)
    requires Runs(items, open)
    decreases |items|
  {
    items == [] || (&& items[0].Event? && Clear(items[0].event, cwd)
                    && AllClear(items[1..], OpenPast(open, items[0]), CwdPast(cwd, items[0].event)))
  }

  /** What reading has made of a trace: all of it, or one thing more that could not be read. */
  predicate Sums(state: State, last: State, clear: bool, starts: seq<Execution>, writes: seq<Written>) {
    && (clear ==> last.unreadable == state.unreadable && Adds(state, last, starts, writes))
    && (!clear ==> state.unreadable < last.unreadable)
  }

  lemma SumsBoth(state: State, next: State, last: State, found: bool, clear: bool,
                 starts: seq<Execution>, writes: seq<Written>,
                 moreStarts: seq<Execution>, moreWrites: seq<Written>)
    requires Reads(state.(interrupted := next.interrupted), next, found, starts, writes)
    requires Sums(next, last, clear, moreStarts, moreWrites)
    ensures Sums(state, last, found && clear, starts + moreStarts, writes + moreWrites)
    ensures state.unreadable <= last.unreadable
  {
  }

  lemma FirstOfAll(number: nat, items: seq<Item>, open: Open, cwd: Option<Bytes>)
    requires items != [] && Runs(items, open) && items[0].Event?
    ensures EventOk(items[0].event) && Runs(items[1..], OpenPast(open, items[0]))
    ensures var event, rest, open' := items[0].event, items[1..], OpenPast(open, items[0]);
            var past := CwdPast(cwd, event);
            && AllClear(items, open, cwd) == (Clear(event, cwd) && AllClear(rest, open', past))
            && AllStarts(number, items, open, cwd)
               == StartsIn(number, event, cwd) + AllStarts(number + 1, rest, open', past)
            && AllWrites(number, items, open, cwd)
               == WritesIn(number, event, cwd) + AllWrites(number + 1, rest, open', past)
  {
    hide EventOk, Follows, OpenPast, Clear, StartsIn, WritesIn, CwdPast;
  }

  /** Exactly the traces every line of which says what the reader needs leave nothing unreadable,
      and what they are read as is exactly what their completed calls declare. */
  lemma {:induction false} ReadsExactly(state: State, number: nat, items: seq<Item>, open: Open)
    requires Runs(items, open) && Waits(state.interrupted, open)
    ensures var last := Meaning(state, number, items, open);
            last.Some? && Sums(state, last.value, AllClear(items, open, state.cwd),
                               AllStarts(number, items, open, state.cwd), AllWrites(number, items, open, state.cwd))
    decreases |items|
  {
    hide *;
    if items == [] {
      NothingSums(state, number, items, open);
    } else {
      var item := items[0];
      FirstMeaning(state, number, items, open);
      ItemReads(state, number, item, open);
      var rest, open' := items[1..], OpenPast(open, item);
      var next := ToldItem(state, number, item).value;
      ReadsExactly(next, number + 1, rest, open');
      var last := Meaning(next, number + 1, rest, open').value;
      var clear := AllClear(rest, open', next.cwd);
      var starts := AllStarts(number + 1, rest, open', next.cwd);
      var writes := AllWrites(number + 1, rest, open', next.cwd);
      if item.Event? {
        FirstOfAll(number, items, open, state.cwd);
        SumsBoth(state, next, last, Clear(item.event, state.cwd), clear,
                 StartsIn(number, item.event, state.cwd), WritesIn(number, item.event, state.cwd), starts, writes);
      } else {
        JunkIsNotClear(items, open, state.cwd);
        NeverClearAgain(state, next, last, clear, starts, writes, AllStarts(number, items, open, state.cwd),
                        AllWrites(number, items, open, state.cwd));
      }
    }
  }

  lemma NothingSums(state: State, number: nat, items: seq<Item>, open: Open)
    requires items == [] && Runs(items, open)
    ensures var last := Meaning(state, number, items, open);
            last.Some? && Sums(state, last.value, AllClear(items, open, state.cwd),
                               AllStarts(number, items, open, state.cwd), AllWrites(number, items, open, state.cwd))
  {
  }

  lemma JunkIsNotClear(items: seq<Item>, open: Open, cwd: Option<Bytes>)
    requires items != [] && Runs(items, open) && items[0].Junk?
    ensures !AllClear(items, open, cwd)
  {
    hide Unreadable, ItemOk;
  }

  lemma NeverClearAgain(state: State, next: State, last: State, clear: bool,
                        starts: seq<Execution>, writes: seq<Written>,
                        anyStarts: seq<Execution>, anyWrites: seq<Written>)
    requires state.unreadable < next.unreadable && Sums(next, last, clear, starts, writes)
    ensures Sums(state, last, false, anyStarts, anyWrites)
  {
  }

  // ------------------------------------------------------------ the clean bill

  /** The answer of one cell: a value, or a reading that could not be taken. */
  datatype Reading<T> = Read(value: T) | NotRead

  ghost predicate SomeUnplaced(writes: seq<Written>, owned: (Bytes, Reach) -> Option<bool>) {
    exists i :: 0 <= i < |writes| && owned(writes[i].path, writes[i].reach) == None
  }

  ghost function Strays(writes: seq<Written>, owned: (Bytes, Reach) -> Option<bool>): set<Bytes> {
    set i | 0 <= i < |writes| && owned(writes[i].path, writes[i].reach) == Some(false) :: writes[i].path
  }

  ghost predicate AllInside(writes: seq<Written>, owned: (Bytes, Reach) -> Option<bool>) {
    forall i | 0 <= i < |writes| :: owned(writes[i].path, writes[i].reach) == Some(true)
  }

  /** Where the recorded writes went. `owned` says of a path, in the reach of its call, whether it
      lies inside the run's own directory, and None when that could not be established. */
  ghost function WritesOutside(answer: Option<State>, usable: bool, complained: bool,
                               owned: (Bytes, Reach) -> Option<bool>): Reading<set<Bytes>>
  {
    if !usable || answer == None then NotRead
    else
      var seen := answer.value;
      if seen.unreadable != [] || complained || seen.executions == [] then NotRead
      else if SomeUnplaced(seen.writes, owned) then NotRead
      else Read(Strays(seen.writes, owned))
  }

  lemma EmptyMeansInside(writes: seq<Written>, owned: (Bytes, Reach) -> Option<bool>)
    ensures !SomeUnplaced(writes, owned) && Strays(writes, owned) == {} <==> AllInside(writes, owned)
  {
    if !SomeUnplaced(writes, owned) && Strays(writes, owned) == {} {
      forall i | 0 <= i < |writes| ensures owned(writes[i].path, writes[i].reach) == Some(true) {
        var write := writes[i];
        var answer := owned(write.path, write.reach);
        assert answer != None;
        assert answer == Some(false) ==> write.path in Strays(writes, owned);
        assert answer == Some(answer.value) && answer.value;
      }
    }
  }

  lemma NothingHeldNothingOpen(interrupted: map<Half, string>, open: Open)
    requires Waits(interrupted, open)
    ensures interrupted == map[] <==> open == map[]
  {
    if open == map[] { assert interrupted.Keys == {}; }
    if interrupted == map[] { assert open.Keys == {}; }
  }

  lemma ReportedHolds(last: State, halves: seq<Half>)
    requires InOrder(halves, last.interrupted.Keys)
    ensures var answer := Reported(last, halves);
            && answer.executions == last.executions && answer.writes == last.writes
            && (answer.unreadable == [] <==> last.unreadable == [] && last.interrupted == map[])
  {
    assert halves == [] <==> last.interrupted == map[];
  }

  lemma AnswerIsReported(lines: seq<string>, cwd: Bytes, answer: Option<State>)
    requires Answers(lines, cwd, answer) && Parsed(Start(cwd), 1, lines).Some?
    ensures var last := Parsed(Start(cwd), 1, lines).value;
            && answer.Some? && answer.value.executions == last.executions && answer.value.writes == last.writes
            && (answer.value.unreadable == [] <==> last.unreadable == [] && last.interrupted == map[])
  {
    hide InOrder, Reported, Parsed, Start;
    var last := Parsed(Start(cwd), 1, lines).value;
    var halves :| InOrder(halves, last.interrupted.Keys) && answer == Some(Reported(last, halves));
    ReportedHolds(last, halves);
  }

  lemma SumsFromNothing(cwd: Bytes, last: State, clear: bool, starts: seq<Execution>, writes: seq<Written>)
    requires Sums(Start(cwd), last, clear, starts, writes)
    ensures last.unreadable == [] <==> clear
    ensures clear ==> last.executions == starts && last.writes == writes
  {
  }

  /** What the answer for a whole printed trace holds. */
  lemma AnswerHolds(items: seq<Item>, cwd: Bytes, answer: Option<State>)
    requires Runs(items, map[]) && Answers(LinesOf(items, map[]), cwd, answer)
    ensures answer.Some?
    ensures var clear := AllClear(items, map[], Some(cwd)) && OpenAfter(items, map[]) == map[];
            && (answer.value.unreadable == [] <==> clear)
            && (clear ==> answer.value.executions == AllStarts(1, items, map[], Some(cwd))
                          && answer.value.writes == AllWrites(1, items, map[], Some(cwd)))
  {
    hide *;
    StartIsFresh(cwd);
    TraceInverts(Start(cwd), 1, items, map[]);
    ReadsExactly(Start(cwd), 1, items, map[]);
    var last := Meaning(Start(cwd), 1, items, map[]).value;
    SumsFromNothing(cwd, last, AllClear(items, map[], Some(cwd)), AllStarts(1, items, map[], Some(cwd)),
                    AllWrites(1, items, map[], Some(cwd)));
    NothingHeldNothingOpen(last.interrupted, OpenAfter(items, map[]));
    AnswerIsReported(LinesOf(items, map[]), cwd, answer);
  }

  lemma StartIsFresh(cwd: Bytes)
    ensures Start(cwd).cwd == Some(cwd) && Waits(Start(cwd).interrupted, map[])
  {
  }

  /** A clean bill, exactly: the tracer was there and said nothing itself, every line is an event in
      which the reader finds what it needs, every interrupted call was resumed, something was
      started, and every path that every successful write-capable call declares lies inside. */
  lemma CleanBill(items: seq<Item>, cwd: Bytes, answer: Option<State>, usable: bool, complained: bool,
                  owned: (Bytes, Reach) -> Option<bool>)
    requires Runs(items, map[]) && Answers(LinesOf(items, map[]), cwd, answer)
    ensures WritesOutside(answer, usable, complained, owned) == Read({})
            <==> && usable && !complained
                 && AllClear(items, map[], Some(cwd)) && OpenAfter(items, map[]) == map[]
                 && AllStarts(1, items, map[], Some(cwd)) != []
                 && AllInside(AllWrites(1, items, map[], Some(cwd)), owned)
  {
    AnswerHolds(items, cwd, answer);
    hide Runs, LinesOf, AllWrites, AllStarts, AllClear, OpenAfter, Answers, SomeUnplaced, Strays, AllInside;
    EmptyMeansInside(answer.value.writes, owned);
  }

  /** One line nobody could read, one call without what the reader needs, anywhere, or one half never
      resumed, and the reading is not taken: never an empty answer, never a shorter one. */
  lemma OneBadLineIsNoAnswer(items: seq<Item>, cwd: Bytes, answer: Option<State>, usable: bool, complained: bool,
                             owned: (Bytes, Reach) -> Option<bool>)
    requires Runs(items, map[]) && Answers(LinesOf(items, map[]), cwd, answer)
    ensures !AllClear(items, map[], Some(cwd)) || OpenAfter(items, map[]) != map[] ==>
              WritesOutside(answer, usable, complained, owned) == NotRead
  {
    AnswerHolds(items, cwd, answer);
    hide Runs, LinesOf, AllWrites, AllStarts, AllClear, OpenAfter, Answers;
  }

  // ------------------------------------------------------------ what takes the bill away

  /** An argument that names nothing, whatever is known of the directory. */
  predicate Nameless(args: seq<Arg>, position: nat) {
    position < |args| && !args[position].Str? && !args[position].Fd?
  }

  /** A call that succeeded with a path cut short or missing, or a start whose argument list is
      abbreviated or holds a word cut short. */
  predicate CutShort(call: Call)
    requires CallOk(call)
  {
    var row := TRACED_CALLS[call.name];
    && Succeeded(call.result) && !row.kind.Moves?
    && (|| (exists i :: 0 <= i < |row.positions| && Nameless(call.args, row.positions[i].path))
        || (row.kind.Starts? && ArgvOfCall(call.args, ArgvPosition(call.name)) == NoArgv))
  }

  /** The item completes a successful call that the tracer cut short. */
  predicate CompletesCutShort(item: Item) {
    item.Event? && EventOk(item.event) && Finishes(item.event).Some? && CutShort(Finishes(item.event).value)
  }

  lemma CutShortIsNotClear(event: TraceRoundTrip.Event, cwd: Option<Bytes>)
    requires EventOk(event) && Finishes(event).Some? && CutShort(Finishes(event).value)
    ensures !Clear(event, cwd)
  {
    var call := Finishes(event).value;
    var row, said := TRACED_CALLS[call.name], SaidBy(call, cwd);
    RowsHavePaths(call.name);
    hide TRACED_CALLS, ArgOk, Contains, Against, StartsWith;
    if i :| 0 <= i < |row.positions| && Nameless(call.args, row.positions[i].path) {
      assert said.paths[i] == PathOf(call.args, row.positions[i], cwd) == NotAWord;
    }
  }

  lemma {:induction false} ClearHasNone(items: seq<Item>, open: Open, cwd: Option<Bytes>, i: nat)
    requires Runs(items, open) && AllClear(items, open, cwd) && i < |items|
    ensures !CompletesCutShort(items[i])
    decreases |items|
  {
    var event := items[0].event;
    if Finishes(event).Some? && CutShort(Finishes(event).value) { CutShortIsNotClear(event, cwd); }
    hide CutShort, Clear, CwdPast, OpenPast;
    if i > 0 { ClearHasNone(items[1..], OpenPast(open, items[0]), CwdPast(cwd, items[0].event), i - 1); }
  }

  /** One successful call with a path or an argument list the tracer cut short, anywhere, costs the
      bill. */
  lemma CutShortCostsTheBill(items: seq<Item>, cwd: Bytes, answer: Option<State>, usable: bool, complained: bool,
                             owned: (Bytes, Reach) -> Option<bool>)
    requires Runs(items, map[]) && Answers(LinesOf(items, map[]), cwd, answer)
    ensures (exists i :: 0 <= i < |items| && CompletesCutShort(items[i])) ==>
              WritesOutside(answer, usable, complained, owned) == NotRead
  {
    hide *;
    OneBadLineIsNoAnswer(items, cwd, answer, usable, complained, owned);
    if AllClear(items, map[], Some(cwd)) {
      forall i | 0 <= i < |items| ensures !CompletesCutShort(items[i]) {
        ClearHasNone(items, map[], Some(cwd), i);
      }
    }
  }

  /** Lines the reader cannot read, whatever came before them: no process and call; a call that is
      not in its table; a call resumed that is not outstanding. */
  lemma BadLinesExist(pid: nat, name: string, rest: string, open: Open)
    requires PlainName(name) && Trimmed(rest) && rest != ""
    ensures Unreadable(name, open)
    ensures name !in TRACED_CALLS && !EndsWith(name + "(" + rest, UNFINISHED) ==>
              Unreadable(Decimal.Numeral(pid) + " " + (name + "(" + rest), open)
    ensures (pid, name) !in open ==>
              Unreadable(Decimal.Numeral(pid) + " " + ("<... " + name + " resumed>" + rest), open)
  {
    forall state: State, number: nat
      ensures Line(state, number, name).Some? && OneMoreUnread(state, Line(state, number, name).value)
    {
      NoCallReads(state, number, name);
    }
    var body := name + "(" + rest;
    if name !in TRACED_CALLS && !EndsWith(body, UNFINISHED) {
      forall state: State, number: nat
        ensures var line := Decimal.Numeral(pid) + " " + body;
                Line(state, number, line).Some? && OneMoreUnread(state, Line(state, number, line).value)
      {
        UnknownCallReads(state, number, pid, name, rest);
      }
    }
    if (pid, name) !in open {
      forall state: State, number: nat | Waits(state.interrupted, open)
        ensures var line := Decimal.Numeral(pid) + " " + ("<... " + name + " resumed>" + rest);
                Line(state, number, line).Some? && OneMoreUnread(state, Line(state, number, line).value)
      {
        assert (pid, name) !in state.interrupted;
        StrayHalfReads(state, number, pid, name, rest);
      }
    }
  }

  lemma NoCallReads(state: State, number: nat, name: string)
    requires PlainName(name)
    ensures Line(state, number, name).Some? && OneMoreUnread(state, Line(state, number, name).value)
  {
    assert PlainChar(name[0]) && ' ' !in name;
    assert Find(name, ' ') == -1;
  }

  lemma UnknownParts(name: string, rest: string)
    requires PlainName(name) && Trimmed(rest) && rest != ""
    ensures var body := name + "(" + rest;
            && Ordinary(body) && Trimmed(body) && body != ""
            && Find(body, '(') == |name| && Strip(body[..|name|]) == name
  {
    var body := name + "(" + rest;
    assert body == name + ("(" + rest) && ("(" + rest)[|rest|] == rest[|rest| - 1];
    NamedIsOrdinary(name, "(" + rest);
    assert '(' !in name;
    FindsFirst(name, '(', rest);
    assert body == name + ['('] + rest;
    StripUnpads("", name, "");
    assert body[..|name|] == "" + name + "";
  }

  lemma UnknownWhole(state: State, number: nat, pid: nat, body: string, name: string)
    requires name !in TRACED_CALLS && Find(body, '(') == |name| < |body| && Strip(body[..|name|]) == name
    ensures TraceReader.Whole(state, number, pid, body) == Some(Unread(state, number, NotInTheTable))
  {
    hide TRACED_CALLS, Find, Strip;
  }

  lemma UnknownCallReads(state: State, number: nat, pid: nat, name: string, rest: string)
    requires PlainName(name) && name !in TRACED_CALLS && Trimmed(rest) && rest != ""
    requires !EndsWith(name + "(" + rest, UNFINISHED)
    ensures var line := Decimal.Numeral(pid) + " " + (name + "(" + rest);
            Line(state, number, line).Some? && OneMoreUnread(state, Line(state, number, line).value)
  {
    var body := name + "(" + rest;
    var counted := state.(lines := state.lines + 1);
    hide *;
    UnreadIsOneMore(state, number, NotInTheTable);
    UnknownParts(name, rest);
    assert |name| < |body|;
    OrdinaryIsWhole(counted, number, pid, body);
    UnknownWhole(counted, number, pid, body, name);
    LineReads(state, number, pid, body);
  }

  lemma UnreadIsOneMore(state: State, number: nat, why: Why)
    ensures OneMoreUnread(state, Unread(state.(lines := state.lines + 1), number, why))
  {
  }

  lemma StrayBody(state: State, number: nat, pid: nat, name: string, rest: string)
    requires PlainName(name) && (pid, name) !in state.interrupted
    ensures Body(state, number, pid, "<... " + name + " resumed>" + rest)
            == Some(Unread(state, number, NoInterruptedHalf))
  {
    EndParts(name, rest);
    hide StartsWith, Find, After, TraceReader.Whole, TRACED_CALLS, EndsWith;
  }

  lemma StrayHalfReads(state: State, number: nat, pid: nat, name: string, rest: string)
    requires PlainName(name) && Trimmed(rest) && rest != "" && (pid, name) !in state.interrupted
    ensures var line := Decimal.Numeral(pid) + " " + ("<... " + name + " resumed>" + rest);
            Line(state, number, line).Some? && OneMoreUnread(state, Line(state, number, line).value)
  {
    var body := "<... " + name + " resumed>" + rest;
    assert body[0] == '<' && body[|body| - 1] == rest[|rest| - 1];
    UnreadIsOneMore(state, number, NoInterruptedHalf);
    hide Body, Line, PlainName, TRACED_CALLS, Decimal.Numeral, OneMoreUnread;
    StrayBody(state.(lines := state.lines + 1), number, pid, name, rest);
    LineReads(state, number, pid, body);
  }
}
