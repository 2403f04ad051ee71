/** The reader inverts the printer: any calls, interrupted and resumed in any interleaving of
    processes, are read back as the calls they were. */
module TraceRoundTrip {
  import opened Wrappers
  import opened ByteStrings
  import opened Chars
  import opened Decimal
  import opened TraceText
  import opened TraceReader
  import opened TracePrinter

  // ------------------------------------------------------------ names

  predicate PlainChar(c: char) {
    'a' <= c <= 'z' || IsDigit(c)
  }

  predicate PlainName(name: string) {
    name != "" && forall i | 0 <= i < |name| :: PlainChar(name[i])
  }

  lemma NamesArePlain(name: string)
    requires name in TRACED_CALLS
    ensures PlainName(name)
  {
  }

  lemma {:induction false} FindsFirst(before: string, c: char, after: string)
    requires c !in before
    ensures Find(before + [c] + after, c) == |before|
  {
    var text := before + [c] + after;
    assert text[|before|] == c;
    assert forall i | 0 <= i < |before| :: text[i] == before[i];
  }

  // ------------------------------------------------------------ one whole call

  predicate PadsOk(call: Call, pads: seq<string>) {
    |pads| == |call.args| && forall k | 0 <= k < |pads| :: Blank(pads[k])
  }

  function Inner(call: Call, pads: seq<string>): string
    requires CallOk(call) && PadsOk(call, pads)
  {
    Joined(Tokens(call.args), pads)
  }

  function Printed(call: Call, pads: seq<string>): string
    requires CallOk(call) && PadsOk(call, pads)
  {
    BodyOf(call.name, Inner(call, pads), call.column, call.gap, call.result)
  }

  lemma InnerReads(call: Call, pads: seq<string>)
    requires CallOk(call) && PadsOk(call, pads)
    ensures Arguments(Inner(call, pads)) == Tokens(call.args)
  {
    var tokens := Tokens(call.args);
    forall k | 0 <= k < |tokens| ensures Printable(tokens[k]) {
      TokenIsPrintable(call.args[k]);
    }
    ArgumentsInvertJoined(tokens, pads);
  }

  lemma PlainStarts(name: string)
    requires PlainName(name)
    ensures '(' !in name && Strip(name) == name
  {
    hide Strip;
    StripUnpads("", name, "");
    assert "" + name + "" == name;
  }

  lemma BodyCuts(name: string, inner: string, column: string, gap: string, result: string)
    ensures var body := BodyOf(name, inner, column, gap, result);
            && body == name + ['('] + (inner + ")" + column + "=" + gap + result)
            && body == name + "(" + inner + ")" + column + "=" + gap + result
            && |name| + 1 + |inner| <= |body| && body[..|name|] == name
            && body[|name| + 1..|name| + 1 + |inner|] == inner
  {
  }

  lemma BodyParts(name: string, inner: string, column: string, gap: string, result: string)
    requires PlainName(name) && Blank(column) && Blank(gap) && Trimmed(result) && Unambiguous(result)
    ensures var body := BodyOf(name, inner, column, gap, result);
            && Find(body, '(') == |name| && |name| + 1 + |inner| <= |body|
            && Strip(body[..|name|]) == name
            && ResultBefore(body, |body|) == Some((|name| + 1 + |inner|, result))
            && body[|name| + 1..|name| + 1 + |inner|] == inner
  {
    hide *;
    PlainStarts(name);
    BodyCuts(name, inner, column, gap, result);
    FindsFirst(name, '(', inner + ")" + column + "=" + gap + result);
    ResultIsFound(name + "(" + inner, column, gap, result);
  }

  lemma WholeOf(state: State, number: nat, pid: nat, body: string, name: string, inner: string, result: string)
    requires name in TRACED_CALLS
    requires Find(body, '(') == |name| && |name| + 1 + |inner| <= |body|
    requires Strip(body[..|name|]) == name
    requires ResultBefore(body, |body|) == Some((|name| + 1 + |inner|, result))
    requires body[|name| + 1..|name| + 1 + |inner|] == inner
    ensures TraceReader.Whole(state, number, pid, body)
            == Taken(state, number, pid, name, Heard(name, Arguments(inner), state.cwd), result)
  {
    hide Heard, Taken, Arguments, Strip, ResultBefore, Find, TRACED_CALLS;
  }

  lemma RoundedOff(call: Call, pads: seq<string>)
    requires CallOk(call) && PadsOk(call, pads)
    ensures call.name in TRACED_CALLS && PlainName(call.name)
    ensures Blank(call.column) && Blank(call.gap) && Trimmed(call.result) && Unambiguous(call.result)
    ensures Printed(call, pads) == BodyOf(call.name, Inner(call, pads), call.column, call.gap, call.result)
  {
    hide Inner, BodyOf, Unambiguous, Trimmed, Blank, ArgOk, PlainName, TRACED_CALLS;
    NamesArePlain(call.name);
  }

  lemma ToldIsTaken(state: State, number: nat, pid: nat, call: Call)
    requires CallOk(call)
    ensures Told(state, number, pid, call)
            == Taken(state, number, pid, call.name, SaidBy(call, state.cwd), call.result)
  {
    hide Taken, SaidBy, TRACED_CALLS;
  }

  /** One printed call is one call read: its name, its arguments and its result. */
  lemma WholeReads(state: State, number: nat, pid: nat, call: Call, pads: seq<string>)
    requires CallOk(call) && PadsOk(call, pads)
    ensures TraceReader.Whole(state, number, pid, Printed(call, pads)) == Told(state, number, pid, call)
  {
    hide *;
    var inner := Inner(call, pads);
    RoundedOff(call, pads);
    BodyParts(call.name, inner, call.column, call.gap, call.result);
    WholeOf(state, number, pid, Printed(call, pads), call.name, inner, call.result);
    InnerReads(call, pads);
    HeardIsSaid(call, state.cwd);
    ToldIsTaken(state, number, pid, call);
  }

  // ------------------------------------------------------------ lines

  /** What a trace records: a call on one line, the two halves of one that was interrupted, a
      signal or an exit, and an empty line. */
  datatype Event =
    | Complete(pid: nat, call: Call)
    | Begin(pid: nat, call: Call, cut: nat, gap: string)
    | End(pid: nat, call: Call, cut: nat)
    | Signal(pid: nat, text: string)
    | Gap(text: string)

  /** A call is cut between two of its arguments, before the first or after the last; a blank that
      followed a comma there is not printed twice. */
  function CutPads(call: Call, cut: nat): (pads: seq<string>)
    requires CallOk(call) && cut <= |call.args|
    ensures PadsOk(call, pads)
  {
    if 0 < cut < |call.args| then call.pads[cut - 1 := ""] else call.pads
  }

  /** The first half as the reader holds it. */
  function Held(call: Call, cut: nat): string
    requires CallOk(call) && cut <= |call.args|
  {
    var pads := CutPads(call, cut);
    Joined(Tokens(call.args)[..cut], pads[..cut]) + (if 0 < cut < |call.args| then "," else "")
  }

  function Back(call: Call, cut: nat): string
    requires CallOk(call) && cut <= |call.args|
  {
    Joined(Tokens(call.args)[cut..], CutPads(call, cut)[cut..])
  }

  /** The second half as it is printed: the other arguments and the result. */
  function Rest(call: Call, cut: nat): string
    requires CallOk(call) && cut <= |call.args|
  {
    Back(call, cut) + ")" + call.column + "=" + call.gap + call.result
  }

  function TextOf(event: Event): string
    requires EventOk(event)
  {
    match event
    case Complete(_, call) => Printed(call, call.pads)
    case Begin(_, call, cut, gap) => call.name + "(" + (Held(call, cut) + gap) + UNFINISHED
    case End(_, call, cut) =>
      "<... " + call.name + " resumed>" + Rest(call, cut)
    case Signal(_, text) => text
    case Gap(text) => text
  }

  predicate EventOk(event: Event) {
    match event
    case Complete(_, call) => CallOk(call)
    case Begin(_, call, cut, gap) => CallOk(call) && cut <= |call.args| && Blank(gap)
    case End(_, call, cut) => CallOk(call) && cut <= |call.args|
    case Signal(_, text) => Trimmed(text) && (StartsWith(text, "+++") || StartsWith(text, "---"))
    case Gap(text) => Blank(text)
  }

  function LineOf(event: Event): string
    requires EventOk(event)
  {
    if event.Gap? then event.text else Numeral(event.pid) + " " + TextOf(event)
  }

  /** A call the tracer interrupted ends in its own words for it. */
  lemma BegunLinesSaySo(pid: nat, call: Call, cut: nat, gap: string)
    requires EventOk(Begin(pid, call, cut, gap))
    ensures LineOf(Begin(pid, call, cut, gap))
            == Numeral(pid) + " " + (call.name + "(" + (Held(call, cut) + gap) + "<unfinished ...>")
  {
    hide CallOk, Held;
  }

  /** The halves the reader holds once it has read an event. */
  function HeldAfter(interrupted: map<(nat, string), string>, event: Event): map<(nat, string), string>
    requires EventOk(event)
  {
    match event
    case Begin(pid, call, cut, _) => interrupted[(pid, call.name) := Held(call, cut)]
    case End(pid, call, _) => interrupted - {(pid, call.name)}
    case _ => interrupted
  }

  /** The call an event completes. */
  function Finishes(event: Event): Option<Call> {
    match event
    case Complete(_, call) => Some(call)
    case End(_, call, _) => Some(call)
    case _ => None
  }

  function Seen(state: State, event: Event): State
    requires EventOk(event)
  {
    state.(lines := state.lines + (if event.Gap? then 0 else 1),
           interrupted := HeldAfter(state.interrupted, event))
  }

  /** What the trace has to say after an event. */
  function ToldEvent(state: State, number: nat, event: Event): Option<State>
    requires EventOk(event)
  {
    var call := Finishes(event);
    if call.Some? then Told(Seen(state, event), number, event.pid, call.value) else Some(Seen(state, event))
  }

  /** The halves outstanding, by process and name. */
  type Open = map<(nat, string), (Call, nat)>

  /** A resumed half is the rest of the half last begun under its process and name. */
  predicate Follows(open: Open, event: Event) {
    match event
    case End(pid, call, cut) => (pid, call.name) in open && open[(pid, call.name)] == (call, cut)
    case _ => true
  }

  /** A half begun under the process and name of one still outstanding takes its place. */
  function Outstanding(open: Open, event: Event): Open {
    match event
    case Begin(pid, call, cut, _) => open[(pid, call.name) := (call, cut)]
    case End(pid, call, _) => open - {(pid, call.name)}
    case _ => open
  }

  predicate OpenOk(open: Open) {
    forall key | key in open ::
      CallOk(open[key].0) && open[key].1 <= |open[key].0.args| && key.1 == open[key].0.name
  }

  /** The reader holds exactly the halves that are outstanding. */
  predicate Waits(interrupted: map<(nat, string), string>, open: Open) {
    && OpenOk(open)
    && interrupted.Keys == open.Keys
    && forall key | key in open :: interrupted[key] == Held(open[key].0, open[key].1)
  }

  // ------------------------------------------------------------ the line around a call

  lemma LineParts(head: string, body: string)
    requires head != "" && AllDigits(head) && body != "" && Trimmed(body)
    ensures var line := head + " " + body;
            && !Blank(line) && Find(line, ' ') == |head|
            && line[..|head|] == head && Strip(line[|head| + 1..]) == body
  {
    var line := head + " " + body;
    assert line[0] == head[0] && IsDigit(head[0]);
    assert ' ' !in head;
    assert line == head + [' '] + body;
    FindsFirst(head, ' ', body);
    assert line[|head| + 1..] == "" + body + "";
    StripUnpads("", body, "");
  }

  lemma LineWith(state: State, number: nat, line: string, head: string, body: string)
    requires !Blank(line) && Find(line, ' ') == |head| && |head| < |line| && line[..|head|] == head
    requires Strip(line[|head| + 1..]) == body && body != "" && head != "" && AllDigits(head)
    ensures Line(state, number, line)
            == Body(state.(lines := state.lines + 1), number, Value(head), body)
  {
    hide Body, Strip, Find, Blank, AllDigits, Value, TRACED_CALLS;
  }

  lemma LineReads(state: State, number: nat, pid: nat, body: string)
    requires body != "" && Trimmed(body)
    ensures Line(state, number, Numeral(pid) + " " + body)
            == Body(state.(lines := state.lines + 1), number, pid, body)
  {
    hide Body, Strip, Find, Blank, AllDigits, Value, TRACED_CALLS, Line, Numeral;
    LineParts(Numeral(pid), body);
    LineWith(state, number, Numeral(pid) + " " + body, Numeral(pid), body);
    ValueOfNumeral(pid);
  }

  // ------------------------------------------------------------ halves that fit together

  lemma {:induction false} JoinedSplits(tokens: seq<string>, pads: seq<string>, cut: nat)
    requires |pads| == |tokens| && 0 < cut < |tokens|
    ensures Joined(tokens, pads)
            == Joined(tokens[..cut], pads[..cut]) + "," + pads[cut - 1] + Joined(tokens[cut..], pads[cut..])
    decreases cut
  {
    var rest, gaps := tokens[1..], pads[1..];
    assert tokens[..cut][0] == tokens[0];
    if cut > 1 {
      JoinedSplits(rest, gaps, cut - 1);
      assert tokens[..cut][1..] == rest[..cut - 1] && pads[..cut][1..] == gaps[..cut - 1];
      assert tokens[cut..] == rest[cut - 1..] && pads[cut..] == gaps[cut - 1..];
    }
  }

  /** Tokens cut anywhere, with no blank left at the cut, are the two lists and the comma between. */
  lemma TokensCut(tokens: seq<string>, pads: seq<string>, cut: nat)
    requires |pads| == |tokens| && cut <= |tokens|
    requires 0 < cut < |tokens| ==> pads[cut - 1] == ""
    ensures Joined(tokens[..cut], pads[..cut]) + (if 0 < cut < |tokens| then "," else "")
            + Joined(tokens[cut..], pads[cut..])
            == Joined(tokens, pads)
  {
    if 0 < cut < |tokens| {
      JoinedSplits(tokens, pads, cut);
    } else if cut == 0 {
      assert tokens[..0] == [] && tokens[0..] == tokens && pads[0..] == pads;
    } else {
      assert tokens[..cut] == tokens && tokens[cut..] == [] && pads[..cut] == pads;
    }
  }

  /** The two halves of a call together are its arguments, whatever is between them. */
  lemma HalvesFit(call: Call, cut: nat)
    requires CallOk(call) && cut <= |call.args|
    ensures Held(call, cut) + Back(call, cut) == Inner(call, CutPads(call, cut))
  {
    hide Joined, Token, ArgOk, Unambiguous, Trimmed, EndsWith, Blank, TRACED_CALLS;
    assert 0 < cut < |call.args| ==> CutPads(call, cut)[cut - 1] == "";
    TokensCut(Tokens(call.args), CutPads(call, cut), cut);
  }

  lemma {:induction false} JoinedIsTrimmed(tokens: seq<string>, pads: seq<string>)
    requires |pads| == |tokens| && forall k | 0 <= k < |tokens| :: Printable(tokens[k])
    ensures Trimmed(Joined(tokens, pads)) && (tokens != [] ==> Joined(tokens, pads) != "")
    decreases |tokens|
  {
    if |tokens| > 1 { JoinedIsTrimmed(tokens[1..], pads[1..]); }
  }

  lemma HeldIsTrimmed(call: Call, cut: nat)
    requires CallOk(call) && cut <= |call.args|
    ensures Trimmed(Held(call, cut))
  {
    var tokens := Tokens(call.args)[..cut];
    forall k | 0 <= k < |tokens| ensures Printable(tokens[k]) {
      TokenIsPrintable(call.args[k]);
    }
    JoinedIsTrimmed(tokens, CutPads(call, cut)[..cut]);
  }

  // ------------------------------------------------------------ one line read back

  predicate Ordinary(body: string) {
    && !StartsWith(body, "+++") && !StartsWith(body, "---") && !StartsWith(body, "<... ")
  }

  lemma FirstOf(text: string, prefix: string)
    requires prefix != ""
    ensures StartsWith(text, prefix) ==> text != "" && text[0] == prefix[0]
  {
    if StartsWith(text, prefix) { assert text[..|prefix|][0] == text[0]; }
  }

  lemma NamedIsOrdinary(name: string, rest: string)
    requires PlainName(name)
    ensures Ordinary(name + rest) && name + rest != ""
    ensures rest != "" && !IsSpace(rest[|rest| - 1]) ==> Trimmed(name + rest)
  {
    var body := name + rest;
    assert body[0] == name[0] && PlainChar(name[0]);
    FirstOf(body, "+++");
    FirstOf(body, "---");
    FirstOf(body, "<... ");
  }

  lemma SuffixAt(text: string, suffix: string, i: nat)
    requires i < |suffix|
    ensures EndsWith(text, suffix) ==> text[|text| - |suffix| + i] == suffix[i]
  {
    if EndsWith(text, suffix) { assert text[|text| - |suffix|..][i] == suffix[i]; }
  }

  /** A line that ends with its result does not end like an interrupted one. */
  lemma ResultIsNotUnfinished(front: string, gap: string, result: string)
    requires Blank(gap) && result != "" && !EndsWith(result, UNFINISHED)
    ensures !EndsWith(front + "=" + gap + result, UNFINISHED)
  {
    var body := front + "=" + gap + result;
    var from := |body| - |UNFINISHED|;
    var start := |front| + 1 + |gap|;
    if from >= start {
      assert body[from..] == result[from - start..];
    } else if from > |front| {
      assert body[from] == gap[from - |front| - 1];
      SuffixAt(body, UNFINISHED, 0);
    } else if from >= 0 {
      assert body[|front|] == '=' && '=' !in UNFINISHED;
      SuffixAt(body, UNFINISHED, |front| - from);
    }
  }

  lemma BodyIsOrdinary(name: string, inner: string, column: string, gap: string, result: string)
    requires PlainName(name) && Blank(gap) && result != "" && Trimmed(result) && !EndsWith(result, UNFINISHED)
    ensures var body := BodyOf(name, inner, column, gap, result);
            Ordinary(body) && !EndsWith(body, UNFINISHED) && body != "" && Trimmed(body)
  {
    var rest := "(" + inner + ")" + column + "=" + gap + result;
    assert BodyOf(name, inner, column, gap, result) == name + rest;
    assert rest[|rest| - 1] == result[|result| - 1];
    NamedIsOrdinary(name, rest);
    ResultIsNotUnfinished(name + "(" + inner + ")" + column, gap, result);
  }

  lemma OrdinaryIsWhole(state: State, number: nat, pid: nat, body: string)
    requires Ordinary(body) && !EndsWith(body, UNFINISHED)
    ensures Body(state, number, pid, body) == TraceReader.Whole(state, number, pid, body)
  {
    hide StartsWith, EndsWith, TRACED_CALLS, TraceReader.Whole, Find;
  }

  lemma CompleteReads(state: State, number: nat, pid: nat, call: Call)
    requires CallOk(call)
    ensures Body(state, number, pid, Printed(call, call.pads)) == Told(state, number, pid, call)
    ensures Printed(call, call.pads) != "" && Trimmed(Printed(call, call.pads))
  {
    NamesArePlain(call.name);
    WholeReads(state, number, pid, call, call.pads);
    hide Told, Inner, TraceReader.Whole, TRACED_CALLS, Unambiguous, Ordinary, EndsWith, StartsWith,
         BodyOf, Body, Trimmed, PlainName;
    BodyIsOrdinary(call.name, Inner(call, call.pads), call.column, call.gap, call.result);
    OrdinaryIsWhole(state, number, pid, Printed(call, call.pads));
  }

  // ------------------------------------------------------------ interrupted calls

  lemma BeginParts(name: string, held: string, gap: string)
    requires PlainName(name) && Trimmed(held) && Blank(gap)
    ensures var body := name + "(" + (held + gap) + UNFINISHED;
            && Ordinary(body) && EndsWith(body, UNFINISHED) && body != "" && Trimmed(body)
            && Find(body, '(') == |name| && |name| + 1 <= |body| - |UNFINISHED|
            && Strip(body[..|name|]) == name
            && RStrip(body[|name| + 1..|body| - |UNFINISHED|]) == held
  {
    var body := name + "(" + (held + gap) + UNFINISHED;
    var rest := "(" + (held + gap) + UNFINISHED;
    assert body == name + rest && rest[|rest| - 1] == '>';
    NamedIsOrdinary(name, rest);
    assert '(' !in name;
    assert body == name + ['('] + (held + gap + UNFINISHED);
    FindsFirst(name, '(', held + gap + UNFINISHED);
    assert body[..|name|] == "" + name + "";
    StripUnpads("", name, "");
    assert body[|name| + 1..|body| - |UNFINISHED|] == held + gap;
    RStripDropsTail(held, gap);
  }

  lemma BeginWith(state: State, number: nat, pid: nat, body: string, name: string, held: string)
    requires Ordinary(body) && EndsWith(body, UNFINISHED)
    requires Find(body, '(') == |name| && |name| + 1 <= |body| - |UNFINISHED|
    requires Strip(body[..|name|]) == name && RStrip(body[|name| + 1..|body| - |UNFINISHED|]) == held
    ensures Body(state, number, pid, body)
            == Some(state.(interrupted := state.interrupted[(pid, name) := held]))
  {
    hide StartsWith, Find, Strip, RStrip, TraceReader.Whole, TRACED_CALLS;
  }

  /** The first half: the name and what follows its bracket are held. */
  lemma BeginReads(state: State, number: nat, pid: nat, name: string, held: string, gap: string)
    requires PlainName(name) && Trimmed(held) && Blank(gap)
    ensures var body := name + "(" + (held + gap) + UNFINISHED;
            && Body(state, number, pid, body) == Some(state.(interrupted := state.interrupted[(pid, name) := held]))
            && body != "" && Trimmed(body)
  {
    hide Body, Ordinary, EndsWith, Find, Strip, RStrip, Trimmed, Blank, PlainName;
    BeginParts(name, held, gap);
    BeginWith(state, number, pid, name + "(" + (held + gap) + UNFINISHED, name, held);
  }

  lemma {:induction false} AfterFirst(before: string, rest: string)
    requires '>' !in before
    ensures After(before + RESUMED + rest, RESUMED) == rest
  {
    var text := before + RESUMED + rest;
    if before == "" {
      assert text[..|RESUMED|] == RESUMED && text[|RESUMED|..] == rest;
    } else {
      var last := |RESUMED| - 1;
      assert text[last] == if last < |before| then before[last] else RESUMED[last - |before|];
      assert text[last] != RESUMED[last] && text[..|RESUMED|] != RESUMED;
      assert text[1..] == before[1..] + RESUMED + rest;
      AfterFirst(before[1..], rest);
    }
  }

  lemma EndParts(name: string, rest: string)
    requires PlainName(name)
    ensures var body := "<... " + name + " resumed>" + rest;
            && StartsWith(body, "<... ") && !StartsWith(body, "+++") && !StartsWith(body, "---")
            && Find(body[5..], ' ') == |name| && body[5..][..|name|] == name
            && After(body, RESUMED) == rest
  {
    var body := "<... " + name + " resumed>" + rest;
    assert ' ' !in name && '>' !in name;
    assert body[..5] == "<... ";
    FirstOf(body, "+++");
    FirstOf(body, "---");
    assert body[5..] == name + [' '] + (RESUMED + rest);
    FindsFirst(name, ' ', RESUMED + rest);
    assert body == ("<... " + name + " ") + RESUMED + rest;
    AfterFirst("<... " + name + " ", rest);
  }

  /** The second half: with the first half held, the call is whole again. */
  lemma EndReads(state: State, number: nat, pid: nat, name: string, held: string, rest: string)
    requires PlainName(name)
    requires (pid, name) in state.interrupted && state.interrupted[(pid, name)] == held
    ensures Body(state, number, pid, "<... " + name + " resumed>" + rest)
            == TraceReader.Whole(state.(interrupted := state.interrupted - {(pid, name)}), number, pid,
                                 name + "(" + held + rest)
  {
    EndParts(name, rest);
    hide StartsWith, Find, After, TraceReader.Whole, TRACED_CALLS, EndsWith;
  }

  lemma Regrouped(name: string, held: string, back: string, column: string, gap: string, result: string)
    ensures name + "(" + held + (back + ")" + column + "=" + gap + result)
            == BodyOf(name, held + back, column, gap, result)
  {
    assert name + "(" + (held + back) == name + "(" + held + back;
  }

  lemma EndIsWhole(call: Call, cut: nat)
    requires CallOk(call) && cut <= |call.args|
    ensures call.name + "(" + Held(call, cut) + Rest(call, cut) == Printed(call, CutPads(call, cut))
  {
    hide Held, Back, Inner, CallOk, CutPads, PadsOk, BodyOf;
    HalvesFit(call, cut);
    Regrouped(call.name, Held(call, cut), Back(call, cut), call.column, call.gap, call.result);
  }

  lemma EndIsTrimmed(call: Call, cut: nat)
    requires CallOk(call) && cut <= |call.args|
    ensures Trimmed("<... " + call.name + " resumed>" + Rest(call, cut))
  {
    var text := "<... " + call.name + " resumed>" + Rest(call, cut);
    assert call.result != "" && Trimmed(call.result);
    hide Back, Unambiguous, EndsWith, ArgOk, TRACED_CALLS;
    assert text[0] == '<' && text[|text| - 1] == call.result[|call.result| - 1];
  }

  // ------------------------------------------------------------ events

  lemma CompleteLineReads(state: State, number: nat, pid: nat, call: Call)
    requires CallOk(call)
    ensures Line(state, number, Numeral(pid) + " " + Printed(call, call.pads))
            == Told(state.(lines := state.lines + 1), number, pid, call)
  {
    var counted := state.(lines := state.lines + 1);
    hide Body, Line, Printed, Told, CallOk, Trimmed, TRACED_CALLS;
    CompleteReads(counted, number, pid, call);
    LineReads(state, number, pid, Printed(call, call.pads));
  }

  lemma BeginLineReads(state: State, number: nat, pid: nat, call: Call, cut: nat, gap: string)
    requires CallOk(call) && cut <= |call.args| && Blank(gap)
    ensures Line(state, number, Numeral(pid) + " " + (call.name + "(" + (Held(call, cut) + gap) + UNFINISHED))
            == Some(state.(lines := state.lines + 1,
                           interrupted := state.interrupted[(pid, call.name) := Held(call, cut)]))
  {
    var counted := state.(lines := state.lines + 1);
    NamesArePlain(call.name);
    HeldIsTrimmed(call, cut);
    hide Body, Line, Held, CallOk, Trimmed, PlainName, TRACED_CALLS, Blank;
    BeginReads(counted, number, pid, call.name, Held(call, cut), gap);
    LineReads(state, number, pid, call.name + "(" + (Held(call, cut) + gap) + UNFINISHED);
  }

  lemma EndLineReads(state: State, number: nat, pid: nat, call: Call, cut: nat)
    requires CallOk(call) && cut <= |call.args|
    requires (pid, call.name) in state.interrupted && state.interrupted[(pid, call.name)] == Held(call, cut)
    ensures Line(state, number, Numeral(pid) + " " + ("<... " + call.name + " resumed>" + Rest(call, cut)))
            == Told(state.(lines := state.lines + 1, interrupted := state.interrupted - {(pid, call.name)}),
                    number, pid, call)
  {
    var counted := state.(lines := state.lines + 1);
    var resumed := counted.(interrupted := state.interrupted - {(pid, call.name)});
    NamesArePlain(call.name);
    EndIsTrimmed(call, cut);
    EndIsWhole(call, cut);
    hide Body, Line, Held, Rest, CallOk, Trimmed, PlainName, TRACED_CALLS, TraceReader.Whole, Printed,
         Told, CutPads, PadsOk;
    EndReads(counted, number, pid, call.name, Held(call, cut), Rest(call, cut));
    WholeReads(resumed, number, pid, call, CutPads(call, cut));
    LineReads(state, number, pid, "<... " + call.name + " resumed>" + Rest(call, cut));
  }

  lemma SignalLineReads(state: State, number: nat, pid: nat, text: string)
    requires Trimmed(text) && (StartsWith(text, "+++") || StartsWith(text, "---"))
    ensures Line(state, number, Numeral(pid) + " " + text) == Some(state.(lines := state.lines + 1))
  {
    FirstOf(text, "+++");
    FirstOf(text, "---");
    hide Line, StartsWith, TraceReader.Whole, Find, EndsWith, TRACED_CALLS, Trimmed;
    LineReads(state, number, pid, text);
  }

  /** Reading a line of a trace is being told its event, whatever is outstanding elsewhere. */
  lemma EventReads(state: State, number: nat, event: Event, open: Open)
    requires EventOk(event) && Follows(open, event) && Waits(state.interrupted, open)
    ensures Line(state, number, LineOf(event)) == ToldEvent(state, number, event)
  {
    hide Line, Printed, Held, Rest, Told, CallOk, Trimmed, StartsWith, Numeral;
    match event
    case Complete(pid, call) => CompleteLineReads(state, number, pid, call);
    case Begin(pid, call, cut, gap) => BeginLineReads(state, number, pid, call, cut, gap);
    case End(pid, call, cut) => EndLineReads(state, number, pid, call, cut);
    case Signal(pid, text) => SignalLineReads(state, number, pid, text);
    case Gap(text) => GapReads(state, number, text);
  }

  lemma GapReads(state: State, number: nat, text: string)
    requires Blank(text)
    ensures Line(state, number, text) == Some(state)
  {
  }
}
