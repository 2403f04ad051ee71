/** Interrupted calls that are never resumed: which halves the reader forgets, what that leaves of
    them, and exactly when it forgets none. */
module TraceHalves {
  import opened Wrappers
  import opened ByteStrings
  import opened Chars
  import opened Decimal
  import opened TraceReader
  import opened TracePrinter
  import opened TraceRoundTrip
  import opened TraceWitness

  // ------------------------------------------------------------ exactly when none is forgotten

  predicate IsBegun(item: Item, half: Half) {
    item.Event? && item.event.Begin? && half == (item.event.pid, item.event.call.name)
  }

  predicate IsEnded(item: Item, half: Half) {
    item.Event? && item.event.End? && half == (item.event.pid, item.event.call.name)
  }

  /** How often calls of one process and name were interrupted, and how often resumed. */
  function Begun(items: seq<Item>, half: Half): nat {
    if items == [] then 0 else (if IsBegun(items[0], half) then 1 else 0) + Begun(items[1..], half)
  }

  function Ended(items: seq<Item>, half: Half): nat {
    if items == [] then 0 else (if IsEnded(items[0], half) then 1 else 0) + Ended(items[1..], half)
  }

  /** How often one was interrupted while an earlier one was still outstanding. */
  function Overwritten(items: seq<Item>, open: Open, half: Half): nat {
    if items == [] then 0
    else (if IsBegun(items[0], half) && half in open then 1 else 0)
         + Overwritten(items[1..], OpenPast(open, items[0]), half)
  }

  /** No call is interrupted while one of the same process and name is outstanding. */
  predicate Apart(items: seq<Item>, open: Open) {
    items == []
    || ((items[0].Event? && items[0].event.Begin? ==> (items[0].event.pid, items[0].event.call.name) !in open)
        && Apart(items[1..], OpenPast(open, items[0])))
  }

  function One(open: Open, half: Half): nat {
    if half in open then 1 else 0
  }

  /** Every half begun is resumed, still outstanding, or overwritten. */
  lemma {:induction false} HalvesAddUp(items: seq<Item>, open: Open, half: Half)
    requires Runs(items, open)
    ensures Begun(items, half) + One(open, half)
            == Ended(items, half) + Overwritten(items, open, half) + One(OpenAfter(items, open), half)
    decreases |items|
  {
    hide Unreadable, EventOk;
    if items != [] { HalvesAddUp(items[1..], OpenPast(open, items[0]), half); }
  }

  lemma {:induction false} ApartOverwritesNone(items: seq<Item>, open: Open, half: Half)
    requires Apart(items, open)
    ensures Overwritten(items, open, half) == 0
    decreases |items|
  {
    if items != [] { ApartOverwritesNone(items[1..], OpenPast(open, items[0]), half); }
  }

  lemma {:induction false} NotApartOverwrites(items: seq<Item>, open: Open) returns (half: Half)
    requires !Apart(items, open)
    ensures Overwritten(items, open, half) > 0
    decreases |items|
  {
    var item := items[0];
    if item.Event? && item.event.Begin? && (item.event.pid, item.event.call.name) in open {
      half := (item.event.pid, item.event.call.name);
    } else {
      half := NotApartOverwrites(items[1..], OpenPast(open, item));
    }
  }

  /** Of a trace at whose end nothing is outstanding, every interrupted call was resumed, and so
      counted, if and only if none was interrupted while another of the same process and name was
      outstanding. Calls of different names, and of different processes, never stand in each other's
      way. */
  lemma NoneIsForgottenExactlyWhen(items: seq<Item>)
    requires Runs(items, map[]) && OpenAfter(items, map[]) == map[]
    ensures (forall half :: Begun(items, half) == Ended(items, half)) <==> Apart(items, map[])
  {
    hide Runs, OpenAfter, Apart, Begun, Ended, Overwritten;
    if Apart(items, map[]) {
      forall half ensures Begun(items, half) == Ended(items, half) {
        HalvesAddUp(items, map[], half);
        ApartOverwritesNone(items, map[], half);
      }
    } else {
      var half := NotApartOverwrites(items, map[]);
      HalvesAddUp(items, map[], half);
      assert Begun(items, half) != Ended(items, half);
    }
  }

  // ------------------------------------------------------------ what a forgotten half leaves

  /** The process and the text of a line that has both. */
  function Spoken(line: string): Option<(nat, string)> {
    if Blank(line) then None
    else
      var space := Find(line, ' ');
      var head := if space < 0 then line else line[..space];
      var body := if space < 0 then "" else Strip(line[space + 1..]);
      if head == "" || !AllDigits(head) || body == "" then None else Some((Value(head), body))
  }

  predicate IsSignal(body: string) {
    StartsWith(body, "+++") || StartsWith(body, "---")
  }

  /** The half a line resumes, whatever the line. */
  function Resumes(line: string): Option<Half> {
    match Spoken(line)
    case None => None
    case Some((pid, body)) =>
      if IsSignal(body) || !StartsWith(body, "<... ") then None
      else
        var space := Find(body[5..], ' ');
        Some((pid, if space < 0 then body[5..] else body[5..][..space]))
  }

  /** The half a line begins. */
  function Interrupts(line: string): Option<Half> {
    match Spoken(line)
    case None => None
    case Some((pid, body)) =>
      if IsSignal(body) || StartsWith(body, "<... ") || !EndsWith(body, UNFINISHED) then None
      else
        var bracket := Find(body, '(');
        if bracket < 0 || bracket + 1 > |body| - |UNFINISHED| then None else Some((pid, Strip(body[..bracket])))
  }

  /** The same knowledge with other halves waiting and another count of lines. */
  function With(state: State, lines: nat, interrupted: map<Half, string>): State {
    state.(lines := lines, interrupted := interrupted)
  }

  function WithIn(read: Option<State>, lines: nat, interrupted: map<Half, string>): Option<State> {
    match read
    case None => None
    case Some(state) => Some(With(state, lines, interrupted))
  }

  lemma {:induction false} WroteEachWith(state: State, n: nat, m: map<Half, string>, number: nat, pid: nat, name: string,
                                         reach: Reach, paths: seq<TraceText.Word>)
    ensures WroteEach(With(state, n, m), number, pid, name, reach, paths)
            == WithIn(WroteEach(state, number, pid, name, reach, paths), n, m)
    decreases |paths|
  {
    if paths != [] && !paths[0].Raises? {
      var first := if paths[0].NotAWord? then Unread(state, number, UnreadPath)
                   else state.(writes := state.writes
                                 + [Written(number, pid, name, paths[0].bytes, reach, WhatAPathCallDid(name))]);
      WroteEachWith(first, n, m, number, pid, name, reach, paths[1..]);
    }
  }

  lemma OpenedWith(state: State, n: nat, m: map<Half, string>, number: nat, pid: nat, name: string,
                   path: TraceText.Word, flags: Option<string>, result: string)
    ensures Opened(With(state, n, m), number, pid, name, path, flags, result)
            == WithIn(Opened(state, number, pid, name, path, flags, result), n, m)
  {
    hide CouldWrite, Contains, ResolvedDescriptor, WhatAnOpenDid;
  }

  lemma TakenWith(state: State, n: nat, m: map<Half, string>, number: nat, pid: nat, name: string, said: Said,
                  result: string)
    requires name in TRACED_CALLS && |said.paths| == |TRACED_CALLS[name].positions|
    ensures Taken(With(state, n, m), number, pid, name, said, result)
            == WithIn(Taken(state, number, pid, name, said, result), n, m)
  {
    hide TRACED_CALLS, WroteEach, StartsWith, Opened;
    var rooted := if state.rootPid == None then state.(rootPid := Some(pid)) else state;
    OpenedWith(rooted, n, m, number, pid, name, if said.paths == [] then TraceText.NotAWord else said.paths[0],
               said.flags, result);
    WroteEachWith(rooted.(writeCalls := rooted.writeCalls + 1), n, m, number, pid, name, TRACED_CALLS[name].reach,
                  said.paths);
  }

  /** Reading a whole call neither asks which halves are waiting nor changes it. */
  lemma WholeWith(state: State, n: nat, m: map<Half, string>, number: nat, pid: nat, body: string)
    ensures TraceReader.Whole(With(state, n, m), number, pid, body)
            == WithIn(TraceReader.Whole(state, number, pid, body), n, m)
  {
    hide TRACED_CALLS, Heard, Taken, Find, Strip, TraceText.ResultBefore, TraceText.Arguments;
    var bracket := Find(body, '(');
    var name := Strip(if bracket < 0 then body else body[..bracket]);
    var found := TraceText.ResultBefore(body, |body|);
    if name in TRACED_CALLS && bracket >= 0 && found.Some? && bracket < found.value.0 <= |body| {
      var said := Heard(name, TraceText.Arguments(body[bracket + 1..found.value.0]), state.cwd);
      HeardFits(name, TraceText.Arguments(body[bracket + 1..found.value.0]), state.cwd);
      TakenWith(state, n, m, number, pid, name, said, found.value.1);
    }
  }

  lemma HeardFits(name: string, arguments: seq<string>, cwd: Option<Bytes>)
    requires name in TRACED_CALLS
    ensures |Heard(name, arguments, cwd).paths| == |TRACED_CALLS[name].positions|
  {
    hide TRACED_CALLS;
  }

  /** Two states that differ in the count of lines and in what is held under one half, if at all. */
  predicate Near(state: State, other: State, half: Half) {
    && other == With(state, other.lines, other.interrupted)
    && other.interrupted - {half} == state.interrupted - {half}
  }

  /** Both raise, or neither does and what they come to is as near, and as far apart in lines. */
  predicate NearBoth(state: State, other: State, read: Option<State>, also: Option<State>, half: Half) {
    match (read, also)
    case (None, None) => true
    case (Some(next), Some(twin)) => Near(next, twin, half) && twin.lines - next.lines == other.lines - state.lines
    case _ => false
  }

  predicate SameHeld(read: Option<State>, also: Option<State>) {
    read.Some? && also.Some? ==> read.value.interrupted == also.value.interrupted
  }

  lemma WholeNear(state: State, other: State, number: nat, pid: nat, body: string, half: Half)
    requires Near(state, other, half)
    ensures var read, also := TraceReader.Whole(state, number, pid, body), TraceReader.Whole(other, number, pid, body);
            && NearBoth(state, other, read, also, half)
            && (state.interrupted == other.interrupted ==> SameHeld(read, also))
  {
    hide TraceReader.Whole;
    WholeWith(state, state.lines, state.interrupted, number, pid, body);
    WholeWith(state, other.lines, other.interrupted, number, pid, body);
    assert With(state, state.lines, state.interrupted) == state;
  }

  /** What a line says of the halves, told from its process and its text. */
  predicate Touches(pid: nat, body: string, resumed: Option<Half>, begun: Option<Half>) {
    if IsSignal(body) then resumed == None && begun == None
    else if StartsWith(body, "<... ") then
      var space := Find(body[5..], ' ');
      resumed == Some((pid, if space < 0 then body[5..] else body[5..][..space])) && begun == None
    else if EndsWith(body, UNFINISHED) then
      var bracket := Find(body, '(');
      && resumed == None
      && begun == if bracket < 0 || bracket + 1 > |body| - |UNFINISHED| then None else Some((pid, Strip(body[..bracket])))
    else resumed == None && begun == None
  }

  lemma ResumedNear(state: State, other: State, half: Half, key: Half)
    requires Near(state, other, half) && (key != half || state.interrupted == other.interrupted)
    ensures key in state.interrupted <==> key in other.interrupted
    ensures key in state.interrupted ==>
              && state.interrupted[key] == other.interrupted[key]
              && Near(state.(interrupted := state.interrupted - {key}),
                      other.(interrupted := other.interrupted - {key}), half)
  {
    var a, b := state.interrupted - {half}, other.interrupted - {half};
    assert key != half ==> (key in a <==> key in state.interrupted) && (key in b <==> key in other.interrupted);
    if key in state.interrupted {
      assert key != half ==> a[key] == state.interrupted[key] && b[key] == other.interrupted[key];
      assert state.interrupted - {key} - {half} == a - {key};
      assert other.interrupted - {key} - {half} == b - {key};
    }
  }

  lemma BegunNear(state: State, other: State, half: Half, key: Half, held: string)
    requires Near(state, other, half)
    ensures Near(state.(interrupted := state.interrupted[key := held]),
                 other.(interrupted := other.interrupted[key := held]), half)
    ensures key == half ==> state.interrupted[key := held] == other.interrupted[key := held]
  {
    var a, b := state.interrupted - {half}, other.interrupted - {half};
    if key == half {
      assert state.interrupted[key := held] == a[key := held];
      assert other.interrupted[key := held] == b[key := held];
    } else {
      assert state.interrupted[key := held] - {half} == a[key := held];
      assert other.interrupted[key := held] - {half} == b[key := held];
    }
  }

  lemma BodyNear(state: State, other: State, number: nat, pid: nat, body: string, half: Half,
                 resumed: Option<Half>, begun: Option<Half>)
    requires Near(state, other, half) && Touches(pid, body, resumed, begun)
    requires resumed != Some(half) || state.interrupted == other.interrupted
    ensures var read, also := Body(state, number, pid, body), Body(other, number, pid, body);
            && NearBoth(state, other, read, also, half)
            && (state.interrupted == other.interrupted || begun == Some(half) ==> SameHeld(read, also))
  {
    hide TraceReader.Whole, Find, Strip, RStrip, After, StartsWith, EndsWith, Near, TRACED_CALLS;
    NearUnread(state, other, number, half, NoArguments);
    NearUnread(state, other, number, half, NoInterruptedHalf);
    if IsSignal(body) {
    } else if StartsWith(body, "<... ") {
      var key := resumed.value;
      ResumedNear(state, other, half, key);
      if key in state.interrupted {
        WholeNear(state.(interrupted := state.interrupted - {key}), other.(interrupted := other.interrupted - {key}),
                  number, pid, key.1 + "(" + state.interrupted[key] + After(body, RESUMED), half);
      }
    } else if EndsWith(body, UNFINISHED) {
      if begun.Some? {
        var bracket := Find(body, '(');
        BegunNear(state, other, half, begun.value, RStrip(body[bracket + 1..|body| - |UNFINISHED|]));
      }
    } else {
      WholeNear(state, other, number, pid, body, half);
    }
  }

  lemma NearUnread(state: State, other: State, number: nat, half: Half, why: Why)
    requires Near(state, other, half)
    ensures Near(Unread(state, number, why), Unread(other, number, why), half)
  {
  }

  lemma SpokenTouches(line: string)
    requires Spoken(line).Some?
    ensures Touches(Spoken(line).value.0, Spoken(line).value.1, Resumes(line), Interrupts(line))
  {
    hide Spoken, Find, Strip, StartsWith, EndsWith;
  }

  lemma UnspokenLine(state: State, number: nat, line: string)
    requires Spoken(line) == None
    ensures Line(state, number, line)
            == if Blank(line) then Some(state) else Some(Unread(state.(lines := state.lines + 1), number, NoCall))
    ensures Resumes(line) == None && Interrupts(line) == None
  {
    hide Body, Find, Strip, Blank, AllDigits, Value, StartsWith, EndsWith;
  }

  lemma SpokenLine(state: State, number: nat, line: string)
    requires Spoken(line).Some?
    ensures Line(state, number, line)
            == Body(state.(lines := state.lines + 1), number, Spoken(line).value.0, Spoken(line).value.1)
  {
    hide Body, Find, Strip, Blank, AllDigits, Value;
  }

  /** A line reads alike in both, unless it resumes the half they differ in; one that begins that half
      makes them the same. */
  lemma LineNear(state: State, other: State, number: nat, line: string, half: Half)
    requires Near(state, other, half)
    requires Resumes(line) != Some(half) || state.interrupted == other.interrupted
    ensures var read, also := Line(state, number, line), Line(other, number, line);
            && NearBoth(state, other, read, also, half)
            && (state.interrupted == other.interrupted || Interrupts(line) == Some(half) ==> SameHeld(read, also))
  {
    hide Line, Body, Spoken, Resumes, Interrupts, Touches, Blank;
    var counted, also := state.(lines := state.lines + 1), other.(lines := other.lines + 1);
    if Spoken(line) == None {
      UnspokenLine(state, number, line);
      UnspokenLine(other, number, line);
      NearUnread(counted, also, number, half, NoCall);
    } else {
      SpokenLine(state, number, line);
      SpokenLine(other, number, line);
      SpokenTouches(line);
      BodyNear(counted, also, number, Spoken(line).value.0, Spoken(line).value.1, half, Resumes(line), Interrupts(line));
    }
  }

  lemma {:induction false} ParsedBoth(state: State, number: nat, a: seq<string>, b: seq<string>)
    ensures Parsed(state, number, a + b)
            == match Parsed(state, number, a)
               case None => None
               case Some(next) => Parsed(next, number + |a|, b)
    decreases |a|
  {
    hide Line;
    if a == [] {
      assert a + b == b;
    } else {
      assert (a + b)[1..] == a[1..] + b && (a + b)[0] == a[0];
      if Line(state, number, a[0]).Some? {
        ParsedBoth(Line(state, number, a[0]).value, number + 1, a[1..], b);
      }
    }
  }

  lemma {:induction false} ParsedNear(state: State, other: State, number: nat, lines: seq<string>, half: Half)
    requires Near(state, other, half)
    requires (forall k | 0 <= k < |lines| :: Resumes(lines[k]) != Some(half)) || state.interrupted == other.interrupted
    ensures var read, also := Parsed(state, number, lines), Parsed(other, number, lines);
            && NearBoth(state, other, read, also, half)
            && (state.interrupted == other.interrupted ==> SameHeld(read, also))
    decreases |lines|
  {
    hide Line, Near, Resumes;
    if lines != [] {
      LineNear(state, other, number, lines[0], half);
      var read, also := Line(state, number, lines[0]), Line(other, number, lines[0]);
      if read.Some? && also.Some? {
        assert forall k | 0 <= k < |lines| - 1 :: lines[1..][k] == lines[k + 1];
        ParsedNear(read.value, also.value, number + 1, lines[1..], half);
      }
    }
  }

  /** A half begun again before it was resumed leaves nothing: with an empty line where it was first
      begun the trace reads the same, but for one line fewer that was counted. No start of it, no
      write and nothing unreadable. Whatever the other lines are. */
  lemma OverwrittenLeavesNothing(cwd: Bytes, half: Half, before: seq<string>, opening: string,
                                 between: seq<string>, again: string, after: seq<string>)
    requires Interrupts(opening) == Some(half) == Interrupts(again)
    requires forall k | 0 <= k < |between| :: Resumes(between[k]) != Some(half)
    ensures var read := Parsed(Start(cwd), 1, before + ([opening] + (between + ([again] + after))));
            var without := Parsed(Start(cwd), 1, before + ([""] + (between + ([again] + after))));
            && (read == None <==> without == None)
            && (read.Some? ==> read.value == without.value.(lines := without.value.lines + 1))
  {
    hide Line, Near, Resumes, Interrupts, Parsed;
    var rest := between + ([again] + after);
    ParsedBoth(Start(cwd), 1, before, [opening] + rest);
    ParsedBoth(Start(cwd), 1, before, [""] + rest);
    var start := Parsed(Start(cwd), 1, before);
    if start.Some? {
      var state, number := start.value, 1 + |before|;
      OpeningReads(state, number, opening, half);
      var begun := Line(state, number, opening).value;
      FirstOfLines(state, number, opening, rest);
      FirstOfLines(state, number, "", rest);
      GapReads(state, number, "");
      BetweenAndAfter(begun, state, number + 1, between, again, after, half);
      OneLineApart(begun, state, Parsed(begun, number + 1, rest), Parsed(state, number + 1, rest), half);
    }
  }

  lemma OneLineApart(state: State, other: State, read: Option<State>, also: Option<State>, half: Half)
    requires NearBoth(state, other, read, also, half) && SameHeld(read, also) && state.lines == other.lines + 1
    ensures read == None <==> also == None
    ensures read.Some? ==> read.value == also.value.(lines := also.value.lines + 1)
  {
  }

  lemma FirstOfLines(state: State, number: nat, line: string, rest: seq<string>)
    ensures Parsed(state, number, [line] + rest)
            == match Line(state, number, line)
               case None => None
               case Some(next) => Parsed(next, number + 1, rest)
  {
    hide Line;
    assert ([line] + rest)[1..] == rest;
  }

  lemma OpeningReads(state: State, number: nat, line: string, half: Half)
    requires Interrupts(line) == Some(half)
    ensures Line(state, number, line).Some?
    ensures var next := Line(state, number, line).value;
            && Near(next, state, half) && next.lines == state.lines + 1
  {
    hide Line, Spoken, Find, Strip, RStrip, StartsWith, EndsWith, TraceReader.Whole;
    var (pid, body) := Spoken(line).value;
    SpokenLine(state, number, line);
    var bracket := Find(body, '(');
    var held := RStrip(body[bracket + 1..|body| - |UNFINISHED|]);
    assert state.interrupted[half := held] - {half} == state.interrupted - {half};
  }

  lemma BetweenAndAfter(begun: State, state: State, number: nat, between: seq<string>, again: string,
                        after: seq<string>, half: Half)
    requires Near(begun, state, half) && Interrupts(again) == Some(half)
    requires forall k | 0 <= k < |between| :: Resumes(between[k]) != Some(half)
    ensures var rest := between + ([again] + after);
            NearBoth(begun, state, Parsed(begun, number, rest), Parsed(state, number, rest), half)
            && SameHeld(Parsed(begun, number, rest), Parsed(state, number, rest))
  {
    hide Line, Near, Resumes, Interrupts, Parsed;
    ParsedNear(begun, state, number, between, half);
    ParsedBoth(begun, number, between, [again] + after);
    ParsedBoth(state, number, between, [again] + after);
    var one, other := Parsed(begun, number, between), Parsed(state, number, between);
    if one.Some? && other.Some? {
      var there := number + |between|;
      FirstOfLines(one.value, there, again, after);
      FirstOfLines(other.value, there, again, after);
      BeginsNoResume(again);
      LineNear(one.value, other.value, there, again, half);
      var next, twin := Line(one.value, there, again), Line(other.value, there, again);
      if next.Some? && twin.Some? { ParsedNear(next.value, twin.value, there + 1, after, half); }
    }
  }

  lemma BeginsNoResume(line: string)
    ensures Interrupts(line).Some? ==> Resumes(line) == None
  {
    hide Spoken, Find, Strip, StartsWith, EndsWith;
  }

  // ------------------------------------------------------------ as the tracer prints them

  /** A printed first half begins the half of its process and name, and a printed second half resumes
      it. */
  lemma PrintedHalves(pid: nat, call: Call, cut: nat, gap: string)
    requires CallOk(call) && cut <= |call.args| && Blank(gap)
    ensures Interrupts(Numeral(pid) + " " + (call.name + "(" + (Held(call, cut) + gap) + UNFINISHED))
            == Some((pid, call.name))
    ensures Resumes(Numeral(pid) + " " + ("<... " + call.name + " resumed>" + Rest(call, cut)))
            == Some((pid, call.name))
  {
    NamesArePlain(call.name);
    HeldIsTrimmed(call, cut);
    EndIsTrimmed(call, cut);
    hide CallOk, Held, Rest, Find, Strip, RStrip, Blank, Trimmed, PlainName, TRACED_CALLS, Spoken, Interrupts, Resumes,
         Numeral;
    var first, second := call.name + "(" + (Held(call, cut) + gap) + UNFINISHED,
                         "<... " + call.name + " resumed>" + Rest(call, cut);
    BeginParts(call.name, Held(call, cut), gap);
    SpokenReads(pid, first);
    InterruptsIts(pid, first, call.name, Numeral(pid) + " " + first);
    EndParts(call.name, Rest(call, cut));
    SpokenReads(pid, second);
    ResumesIts(pid, second, call.name, Numeral(pid) + " " + second);
  }

  lemma SpokenReads(pid: nat, body: string)
    requires body != "" && Trimmed(body)
    ensures Spoken(Numeral(pid) + " " + body) == Some((pid, body))
  {
    hide Numeral, Find, Strip, Blank, Trimmed, AllDigits, Value;
    LineParts(Numeral(pid), body);
    ValueOfNumeral(pid);
  }

  lemma InterruptsIts(pid: nat, body: string, name: string, line: string)
    requires Spoken(line) == Some((pid, body)) && Ordinary(body) && EndsWith(body, UNFINISHED)
    requires Find(body, '(') == |name| && |name| + 1 <= |body| - |UNFINISHED| && Strip(body[..|name|]) == name
    ensures Interrupts(line) == Some((pid, name))
  {
    hide Spoken, Find, Strip, StartsWith, EndsWith;
  }

  lemma ResumesIts(pid: nat, body: string, name: string, line: string)
    requires Spoken(line) == Some((pid, body))
    requires StartsWith(body, "<... ") && !StartsWith(body, "+++") && !StartsWith(body, "---") && |body| >= 5
    requires Find(body[5..], ' ') == |name| && |name| <= |body| - 5 && body[5..][..|name|] == name
    ensures Resumes(line) == Some((pid, name))
  {
    hide Spoken, Find, StartsWith;
  }

  lemma ThreeLines(s0: State, s1: State, s2: State, lines: seq<string>, last: Option<State>)
    requires |lines| == 3
    requires Line(s0, 1, lines[0]) == Some(s1) && Line(s1, 2, lines[1]) == Some(s2) && Line(s2, 3, lines[2]) == last
    ensures Parsed(s0, 1, lines) == last
  {
    hide Line;
    assert lines[1..][1..] == [lines[2]] && [lines[2]][1..] == [];
    if last.Some? { assert Parsed(last.value, 4, []) == last; }
    assert Parsed(s2, 3, [lines[2]]) == last;
  }

  /** Two halves of one name in one process, and one resumption: the trace reads as the second call
      alone. */
  lemma OneHalfIsForgotten(cwd: Bytes, pid: nat, first: Call, second: Call, cut: nat)
    requires CallOk(first) && CallOk(second)
    requires first.name == second.name && cut <= |first.args| && cut <= |second.args|
    ensures var opening := Decimal.Numeral(pid) + " " + (first.name + "(" + (Held(first, cut) + "") + UNFINISHED);
            var again := Decimal.Numeral(pid) + " " + (second.name + "(" + (Held(second, cut) + "") + UNFINISHED);
            var closing := Decimal.Numeral(pid) + " " + ("<... " + second.name + " resumed>" + Rest(second, cut));
            Parsed(Start(cwd), 1, [opening, again, closing])
            == Told(Start(cwd).(lines := 3), 3, pid, second)
  {
    hide *;
    NothingIsBlank();
    var key := (pid, first.name);
    var s0 := Start(cwd);
    BeginLineReads(s0, 1, pid, first, cut, "");
    var s1 := s0.(lines := s0.lines + 1, interrupted := s0.interrupted[key := Held(first, cut)]);
    BeginLineReads(s1, 2, pid, second, cut, "");
    var s2 := s1.(lines := s1.lines + 1, interrupted := s1.interrupted[key := Held(second, cut)]);
    EndLineReads(s2, 3, pid, second, cut);
    ForgottenState(cwd, key, Held(first, cut), Held(second, cut));
    ThreeLines(s0, s1, s2,
               [Decimal.Numeral(pid) + " " + (first.name + "(" + (Held(first, cut) + "") + UNFINISHED),
                Decimal.Numeral(pid) + " " + (second.name + "(" + (Held(second, cut) + "") + UNFINISHED),
                Decimal.Numeral(pid) + " " + ("<... " + second.name + " resumed>" + Rest(second, cut))],
               Told(s0.(lines := 3), 3, pid, second));
  }

  lemma NothingIsBlank()
    ensures Blank("")
  {
  }

  lemma ForgottenState(cwd: Bytes, key: (nat, string), first: string, second: string)
    ensures var s0 := Start(cwd);
            var s1 := s0.(lines := s0.lines + 1, interrupted := s0.interrupted[key := first]);
            var s2 := s1.(lines := s1.lines + 1, interrupted := s1.interrupted[key := second]);
            s2.(lines := s2.lines + 1, interrupted := s2.interrupted - {key}) == s0.(lines := 3)
  {
    assert Start(cwd).interrupted[key := first][key := second] - {key} == map[];
  }
}
