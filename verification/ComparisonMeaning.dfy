/** What it takes for a comparison's document to pass, said of the cells themselves: every name, answer and
    bound is written out here. */
module ComparisonMeaning {
  import opened Wrappers
  import opened Judgments
  import opened ComparisonDocument

  // ------------------------------------------------------------ cells and firings

  /** What a cell read; nothing where it was not taken. */
  function Taken(fired: Fired, cell: string): Option<Answer> {
    if cell in fired.cells && fired.cells[cell].value.Said? then Some(fired.cells[cell].value.answer) else None
  }

  predicate Reads(fired: Fired, cell: string, text: string) {
    Taken(fired, cell) == Some(Word(text))
  }

  predicate SaysSomething(fired: Fired, cell: string) {
    Taken(fired, cell) !in {None, Some(Nothing), Some(Word("")), Some(Number(0)), Some(Words([]))}
  }

  function Of(firings: map<string, seq<Fired>>, name: string): seq<Fired> {
    if name in firings then firings[name] else []
  }

  /** The firings of the ten scenarios. */
  function OfTheTen(firings: map<string, seq<Fired>>): seq<Fired> {
    Of(firings, "receipt_missing") + Of(firings, "managed_unregistered") + Of(firings, "undeclared_turn_end")
    + Of(firings, "declared_ready_receipted") + Of(firings, "declared_in_progress")
    + Of(firings, "declared_blocked_needs_input") + Of(firings, "declared_interrupted") + Of(firings, "unmanaged")
    + Of(firings, "cxc_concurrent") + Of(firings, "duplicate")
  }

  /** Those in which a hold would be wrong. */
  function OfTheWatched(firings: map<string, seq<Fired>>): seq<Fired> {
    Of(firings, "declared_blocked_needs_input") + Of(firings, "declared_interrupted") + Of(firings, "unmanaged")
  }

  // ------------------------------------------------------------ the conditions

  /** The same digests at both ends, at least one, and all of them taken. */
  predicate SourceStood(run: Run) {
    run.before != map[] && run.before == run.after && forall name | name in run.before :: run.before[name].Said?
  }

  predicate Installed(arm: Arm) {
    forall cell | cell in arm.wanted :: cell in arm.cells && arm.cells[cell] == Said(arm.wanted[cell])
  }

  /** A record is published under any name but the empty one, and not published where none is given. */
  predicate AsDeclared(fired: Fired, cell: string, wanted: Answer) {
    if cell == "recordedAs" && wanted == Word("published")
    then Taken(fired, cell).Some? && Taken(fired, cell).value.Word? && Taken(fired, cell).value.text != ""
    else if cell == "recordedAs" && wanted == Word("not_published") then Taken(fired, cell) == Some(Nothing)
    else Taken(fired, cell) == Some(wanted)
  }

  /** The guard answered, every cell is as declared, and a managed firing that does not declare otherwise left
      a record. */
  predicate OnStands(fired: Fired) {
    && Reads(fired, "adapterOutcome", "guard_answered")
    && (forall cell | cell in fired.expected :: AsDeclared(fired, cell, fired.expected[cell]))
    && (fired.managed && ("recordedAs" !in fired.expected || fired.expected["recordedAs"] == Word("published"))
        ==> SaysSomething(fired, "recordedAs"))
  }

  predicate IsAbsent(fired: Fired, cell: string) {
    cell in fired.cells
    && fired.cells[cell] == Cell(Said(Word("ABSENT")),
                                 "no entry under Stop names this adapter, because the install was a dry run")
  }

  /** Every one of the seventeen cells is absent, and for the one reason. */
  predicate OffStands(fired: Fired) {
    && IsAbsent(fired, "firedCommand") && IsAbsent(fired, "adapterOutcome") && IsAbsent(fired, "observation")
    && IsAbsent(fired, "guardDecision") && IsAbsent(fired, "guardState") && IsAbsent(fired, "printedBlock")
    && IsAbsent(fired, "recordedAs") && IsAbsent(fired, "observationFile") && IsAbsent(fired, "heldFile")
    && IsAbsent(fired, "journalElapsedMs") && IsAbsent(fired, "processWallMs") && IsAbsent(fired, "processExit")
    && IsAbsent(fired, "startedExecutable") && IsAbsent(fired, "startedCommand")
    && IsAbsent(fired, "startedEntryPoint") && IsAbsent(fired, "unexpectedExecutions")
    && IsAbsent(fired, "writesOutsideRoot")
  }

  predicate RowsStand(run: Run) {
    && (forall i | 0 <= i < |OfTheTen(run.on)| :: OnStands(OfTheTen(run.on)[i]))
    && (forall i | 0 <= i < |OfTheTen(run.off)| :: OffStands(OfTheTen(run.off)[i]))
  }

  predicate StayedInside(run: Run) {
    forall place | place in run.places :: run.places[place] == Some(true)
  }

  /** Every firing was started as declared and wrote inside. */
  predicate Witnessed(run: Run) {
    forall i | 0 <= i < |OfTheTen(run.on)| ::
      var fired := OfTheTen(run.on)[i];
      && (forall cell | cell in run.witnessed :: Taken(fired, cell) == Some(run.witnessed[cell]))
      && fired.writesInside.Some? && fired.writesInside.value >= 1
  }

  /** Something was injected, and every time the guard answered and reported it. */
  predicate Detected(injected: seq<Fired>, observation: string) {
    injected != []
    && forall i | 0 <= i < |injected| ::
         Reads(injected[i], "adapterOutcome", "guard_answered") && Reads(injected[i], "observation", observation)
  }

  predicate AllDetected(run: Run) {
    && Detected(Of(run.on, "undeclared_turn_end") + Of(run.on, "cxc_concurrent") + Of(run.on, "duplicate"),
                "undeclared_turn_end")
    && Detected(Of(run.on, "receipt_missing"), "receipt_missing")
    && Detected(Of(run.on, "managed_unregistered"), "managed_unregistered")
  }

  /** Nothing was held and nothing blocked, and both were looked at. */
  predicate NotHeld(fired: Fired) {
    && (Reads(fired, "heldFile", "not_reserved") || Reads(fired, "heldFile", "printed_a_block")
        || Reads(fired, "heldFile", "printed_nothing"))
    && (Reads(fired, "printedBlock", "reserved") || Reads(fired, "printedBlock", "not_reserved")
        || Reads(fired, "printedBlock", "printed_nothing"))
  }

  predicate NoWrongBlock(run: Run) {
    forall i | 0 <= i < |OfTheWatched(run.on)| :: NotHeld(OfTheWatched(run.on)[i])
  }

  /** The turn fired twice, was held for both, and each left a record of its own. */
  predicate ReservedTwice(run: Run) {
    var firings := Of(run.on, "duplicate");
    && |firings| == 2
    && Reads(firings[0], "heldFile", "reserved") && Reads(firings[1], "heldFile", "reserved")
    && SaysSomething(firings[0], "recordedAs") && SaysSomething(firings[1], "recordedAs")
    && Taken(firings[0], "recordedAs") != Taken(firings[1], "recordedAs")
  }

  predicate ForeignStands(arm: Arm) {
    "foreignRegistration" in arm.cells && arm.cells["foreignRegistration"] == Said(Word("present"))
  }

  predicate Timed(fired: Fired) {
    Taken(fired, "processWallMs").Some? && Taken(fired, "processWallMs").value.Number?
  }

  /** How many firings took at most so many milliseconds. */
  function Within(firings: seq<Fired>, bound: int): nat {
    if firings == [] then 0
    else (if Timed(firings[0]) && Taken(firings[0], "processWallMs").value.n <= bound then 1 else 0)
         + Within(firings[1..], bound)
  }

  /** A whole number nearest to a fraction, the even one of two. */
  predicate Nearest(whole: nat, top: nat, bottom: nat) {
    && 2 * whole * bottom <= 2 * top + bottom && 2 * top <= 2 * whole * bottom + bottom
    && (2 * whole * bottom == 2 * top + bottom || 2 * top == 2 * whole * bottom + bottom ==> whole % 2 == 0)
  }

  /** More firings kept a bound than the whole number nearest to the fraction. */
  ghost predicate MoreWithin(firings: seq<Fired>, bound: int, top: nat, bottom: nat) {
    exists whole: nat :: Nearest(whole, top, bottom) && Within(firings, bound) > whole
  }

  /** Every firing was timed, and in order of time the one half way was within two seconds and the one 95
      hundredths of the way within five. */
  ghost predicate FastEnough(run: Run) {
    var firings := OfTheTen(run.on);
    && firings != [] && (forall i | 0 <= i < |firings| :: Timed(firings[i]))
    && MoreWithin(firings, 2000, |firings| - 1, 2)
    && MoreWithin(firings, 5000, (|firings| - 1) * 95, 100)
  }

  ghost predicate Meets(run: Run) {
    && SourceStood(run) && Installed(run.armOn) && Installed(run.armOff) && RowsStand(run) && StayedInside(run)
    && (run.tracer ==> Witnessed(run))
    && AllDetected(run) && NoWrongBlock(run) && FastEnough(run)
    && ReservedTwice(run) && ForeignStands(run.armOn) && ForeignStands(run.armOff)
  }

  // ------------------------------------------------------------ cell by cell

  lemma AtIsTaken(fired: Fired, cell: string, text: string)
    ensures At(fired, cell).Said? <==> Taken(fired, cell).Some?
    ensures At(fired, cell).Said? ==> Taken(fired, cell) == Some(At(fired, cell).answer)
    ensures Answered(At(fired, cell), Word(text)) <==> Reads(fired, cell, text)
    ensures SaysSomething(fired, cell) <==> At(fired, cell).Said? && Truthy(At(fired, cell).answer)
  {
  }

  lemma OnMeans(fired: Fired)
    ensures RowPasses(fired) <==> OnStands(fired)
  {
    AtIsTaken(fired, "adapterOutcome", "guard_answered");
    AtIsTaken(fired, "recordedAs", "");
    hide SaysSomething, Truthy;
    forall cell | cell in fired.expected
      ensures Agrees(cell, fired.expected[cell], At(fired, cell)) <==> AsDeclared(fired, cell, fired.expected[cell])
    {
      DeclaredMeans(fired, cell);
    }
    hide Agrees, AsDeclared;
  }

  lemma DeclaredMeans(fired: Fired, cell: string)
    requires cell in fired.expected
    ensures Agrees(cell, fired.expected[cell], At(fired, cell)) <==> AsDeclared(fired, cell, fired.expected[cell])
  {
  }

  lemma OffMeans(fired: Fired)
    ensures OffRowPasses(fired) <==> OffStands(fired)
  {
    hide IsAbsent;
    forall cell ensures IsAbsent(fired, cell) <==>
        cell in fired.cells && fired.cells[cell] == Cell(Said(ABSENT), NO_REGISTRATION)
    {
      AbsentMeans(fired, cell);
    }
    hide ABSENT, NO_REGISTRATION;
    TheSeventeen();
    if OffStands(fired) {
      forall cell | cell in FIRING_CELLS ensures IsAbsent(fired, cell) {
      }
    }
  }

  lemma TheSeventeen()
    ensures FIRING_CELLS == {
      "firedCommand", "adapterOutcome", "observation", "guardDecision", "guardState", "printedBlock",
      "recordedAs", "observationFile", "heldFile", "journalElapsedMs", "processWallMs", "processExit",
      "startedExecutable", "startedCommand", "startedEntryPoint", "unexpectedExecutions", "writesOutsideRoot"}
  {
  }

  lemma AbsentMeans(fired: Fired, cell: string)
    ensures IsAbsent(fired, cell)
            <==> cell in fired.cells && fired.cells[cell] == Cell(Said(ABSENT), NO_REGISTRATION)
  {
  }

  lemma HeldMeans(fired: Fired)
    ensures NotHeld(fired)
            <==> && Known(At(fired, "heldFile")) && Known(At(fired, "printedBlock"))
                 && !Answered(At(fired, "heldFile"), RESERVED) && !Answered(At(fired, "printedBlock"), PRINTED_A_BLOCK)
  {
  }

  // ------------------------------------------------------------ firings by name

  lemma {:induction false} OneMore(run: Run, names: seq<string>, k: nat)
    requires k < |names|
    ensures FiringsOf(run, names[..k + 1]) == FiringsOf(run, names[..k]) + Of(run.on, names[k])
    decreases k
  {
    var all, part := names[..k + 1], names[..k];
    assert all[0] == names[0];
    if k == 0 {
      assert all[1..] == [] && part == [];
    } else {
      var rest := names[1..];
      assert all[1..] == rest[..k] && part[1..] == rest[..k - 1] && part[0] == names[0];
      OneMore(run, rest, k - 1);
    }
  }

  lemma FirstOf(run: Run, names: seq<string>)
    requires names != []
    ensures FiringsOf(run, names[..1]) == Of(run.on, names[0])
  {
    assert names[..1][1..] == [];
  }

  lemma TenNames(run: Run, names: seq<string>)
    requires |names| == 10
    ensures FiringsOf(run, names)
            == Of(run.on, names[0]) + Of(run.on, names[1]) + Of(run.on, names[2]) + Of(run.on, names[3])
               + Of(run.on, names[4]) + Of(run.on, names[5]) + Of(run.on, names[6]) + Of(run.on, names[7])
               + Of(run.on, names[8]) + Of(run.on, names[9])
  {
    hide FiringsOf, Of;
    assert names[..10] == names;
    FirstOf(run, names);
    OneMore(run, names, 1);
    OneMore(run, names, 2);
    OneMore(run, names, 3);
    OneMore(run, names, 4);
    OneMore(run, names, 5);
    OneMore(run, names, 6);
    OneMore(run, names, 7);
    OneMore(run, names, 8);
    OneMore(run, names, 9);
  }

  lemma TheTen(run: Run)
    ensures FiringsOf(run, SCENARIOS) == OfTheTen(run.on)
  {
    hide FiringsOf, Of;
    TenAreTen();
    TenNames(run, SCENARIOS);
  }

  lemma TheWatched(run: Run)
    ensures FiringsOf(run, WATCHED) == OfTheWatched(run.on)
  {
    var names := WATCHED;
    assert names[..3] == names;
    hide FiringsOf, Of;
    FirstOf(run, names);
    OneMore(run, names, 1);
    OneMore(run, names, 2);
  }

  lemma TheInjected(run: Run)
    ensures FiringsOf(run, STATE_AND_RECEIPT)
            == Of(run.on, "undeclared_turn_end") + Of(run.on, "cxc_concurrent") + Of(run.on, "duplicate")
  {
    var names := STATE_AND_RECEIPT;
    assert names[..3] == names;
    hide FiringsOf, Of;
    FirstOf(run, names);
    OneMore(run, names, 1);
    OneMore(run, names, 2);
  }

  lemma TheOne(run: Run, name: string)
    ensures FiringsOf(run, [name]) == Of(run.on, name)
  {
    FirstOf(run, [name]);
    assert [name][..1] == [name];
  }

  // ------------------------------------------------------------ rows

  predicate AllOn(firings: seq<Fired>) {
    forall i | 0 <= i < |firings| :: OnStands(firings[i])
  }

  predicate AllOff(firings: seq<Fired>) {
    forall i | 0 <= i < |firings| :: OffStands(firings[i])
  }

  lemma BothStand(a: seq<Fired>, b: seq<Fired>)
    ensures AllOn(a + b) <==> AllOn(a) && AllOn(b)
    ensures AllOff(a + b) <==> AllOff(a) && AllOff(b)
  {
    hide OnStands, OffStands;
    assert forall i | 0 <= i < |a| :: (a + b)[i] == a[i];
    assert forall i | 0 <= i < |b| :: (a + b)[|a| + i] == b[i];
  }

  lemma RowsMean(firings: seq<Fired>)
    ensures RowsPass(firings, false) <==> AllOn(firings)
    ensures RowsPass(firings, true) <==> AllOff(firings)
  {
    forall i | 0 <= i < |firings|
      ensures RowPasses(firings[i]) <==> OnStands(firings[i])
      ensures OffRowPasses(firings[i]) <==> OffStands(firings[i])
    {
      OnMeans(firings[i]);
      OffMeans(firings[i]);
    }
    hide RowPasses, OffRowPasses, OnStands, OffStands;
  }

  predicate OfEach(firings: map<string, seq<Fired>>, off: bool) {
    forall k | 0 <= k < |SCENARIOS| ::
      if off then AllOff(Of(firings, SCENARIOS[k])) else AllOn(Of(firings, SCENARIOS[k]))
  }

  lemma TenAreTen()
    ensures SCENARIOS == ["receipt_missing", "managed_unregistered", "undeclared_turn_end", "declared_ready_receipted",
                          "declared_in_progress", "declared_blocked_needs_input", "declared_interrupted", "unmanaged",
                          "cxc_concurrent", "duplicate"]
  {
  }

  lemma EachStands(firings: map<string, seq<Fired>>)
    ensures AllOn(OfTheTen(firings)) <==> OfEach(firings, false)
    ensures AllOff(OfTheTen(firings)) <==> OfEach(firings, true)
  {
    hide AllOn, AllOff, Of;
    var names := SCENARIOS;
    TenAreTen();
    var a := Of(firings, names[0]);
    BothStand(a, Of(firings, names[1]));
    var b := a + Of(firings, names[1]);
    BothStand(b, Of(firings, names[2]));
    var c := b + Of(firings, names[2]);
    BothStand(c, Of(firings, names[3]));
    var d := c + Of(firings, names[3]);
    BothStand(d, Of(firings, names[4]));
    var e := d + Of(firings, names[4]);
    BothStand(e, Of(firings, names[5]));
    var f := e + Of(firings, names[5]);
    BothStand(f, Of(firings, names[6]));
    var g := f + Of(firings, names[6]);
    BothStand(g, Of(firings, names[7]));
    var h := g + Of(firings, names[7]);
    BothStand(h, Of(firings, names[8]));
    BothStand(h + Of(firings, names[8]), Of(firings, names[9]));
  }

  lemma ScenariosMean(run: Run)
    ensures ScenariosPass(run) <==> RowsStand(run)
  {
    EachStands(run.on);
    EachStands(run.off);
    forall k | 0 <= k < |SCENARIOS|
      ensures RowsPass(ComparisonDocument.Named(run.on, SCENARIOS[k]), false) <==> AllOn(Of(run.on, SCENARIOS[k]))
      ensures RowsPass(ComparisonDocument.Named(run.off, SCENARIOS[k]), true) <==> AllOff(Of(run.off, SCENARIOS[k]))
    {
      RowsMean(Of(run.on, SCENARIOS[k]));
      RowsMean(Of(run.off, SCENARIOS[k]));
    }
    hide RowsPass, OnStands, OffStands, SCENARIOS, OfTheTen, Of;
  }

  // ------------------------------------------------------------ the measures

  lemma DetectionMeans(run: Run, observation: string, names: seq<string>)
    ensures DetectionMet(run, observation, names) <==> Detected(FiringsOf(run, names), observation)
  {
    hide FiringsOf;
    var injected, cells := FiringsOf(run, names), ["observation", "adapterOutcome"];
    forall i | 0 <= i < |injected|
      ensures Reports(injected[i], observation) <==>
                Reads(injected[i], "adapterOutcome", "guard_answered") && Reads(injected[i], "observation", observation)
      ensures Reports(injected[i], observation) ==>
                forall c | 0 <= c < |cells| :: At(injected[i], cells[c]) != Unread
    {
      AtIsTaken(injected[i], "adapterOutcome", "guard_answered");
      AtIsTaken(injected[i], "observation", observation);
    }
    hide Reports, Reads;
  }

  lemma DetectionsMean(run: Run)
    ensures AllDetected(run)
            <==> && DetectionMet(run, "undeclared_turn_end", STATE_AND_RECEIPT)
                 && DetectionMet(run, "receipt_missing", ["receipt_missing"])
                 && DetectionMet(run, "managed_unregistered", ["managed_unregistered"])
  {
    hide DetectionMet, Detected, FiringsOf, Of;
    DetectionMeans(run, "undeclared_turn_end", STATE_AND_RECEIPT);
    DetectionMeans(run, "receipt_missing", ["receipt_missing"]);
    DetectionMeans(run, "managed_unregistered", ["managed_unregistered"]);
    TheInjected(run);
    TheOne(run, "receipt_missing");
    TheOne(run, "managed_unregistered");
  }

  lemma WrongBlockMeans(run: Run)
    ensures WrongBlockMet(run) <==> NoWrongBlock(run)
  {
    hide FiringsOf, OfTheWatched;
    TheWatched(run);
    var watched := OfTheWatched(run.on);
    forall i | 0 <= i < |watched|
      ensures NotHeld(watched[i])
              <==> && Known(At(watched[i], "heldFile")) && Known(At(watched[i], "printedBlock"))
                   && !Answered(At(watched[i], "heldFile"), RESERVED)
                   && !Answered(At(watched[i], "printedBlock"), PRINTED_A_BLOCK)
    {
      HeldMeans(watched[i]);
    }
    hide NotHeld, Known, At, Answered;
  }

  lemma ReservationMeans(run: Run)
    ensures OneReservationMet(run) <==> ReservedTwice(run)
  {
    hide FiringsOf, Of;
    TheOne(run, "duplicate");
    var firings, cells := Of(run.on, "duplicate"), ["heldFile", "recordedAs"];
    forall i | 0 <= i < |firings|
      ensures Answered(At(firings[i], "heldFile"), RESERVED) <==> Reads(firings[i], "heldFile", "reserved")
      ensures SaysSomething(firings[i], "recordedAs")
              <==> At(firings[i], "recordedAs").Said? && Truthy(At(firings[i], "recordedAs").answer)
      ensures At(firings[i], "recordedAs").Said? ==>
                Taken(firings[i], "recordedAs") == Some(At(firings[i], "recordedAs").answer)
    {
      AtIsTaken(firings[i], "heldFile", "reserved");
      AtIsTaken(firings[i], "recordedAs", "");
    }
    hide SaysSomething, Truthy, At, Taken, Reads;
    if ReservedTwice(run) {
      assert SaysSomething(firings[0], "recordedAs") && SaysSomething(firings[1], "recordedAs");
    }
  }

  lemma WitnessMeans(run: Run)
    ensures WitnessMet(run) <==> Witnessed(run)
  {
    hide FiringsOf, OfTheTen, SCENARIOS;
    TheTen(run);
    var firings := OfTheTen(run.on);
    forall i, cell | 0 <= i < |firings| && cell in run.witnessed
      ensures At(firings[i], cell) != Unread && Answered(At(firings[i], cell), run.witnessed[cell])
              <==> Taken(firings[i], cell) == Some(run.witnessed[cell])
      ensures At(firings[i], cell) == Unread <==> Taken(firings[i], cell) == None
    {
      AtIsTaken(firings[i], cell, "");
    }
    hide At, Taken;
  }

  lemma RestMeans(run: Run)
    ensures StabilityMet(run) <==> SourceStood(run)
    ensures ArmPasses(run.armOn) <==> Installed(run.armOn)
    ensures ArmPasses(run.armOff) <==> Installed(run.armOff)
    ensures ContainmentMet(run) <==> StayedInside(run)
    ensures ForeignMet(run) <==> ForeignStands(run.armOn) && ForeignStands(run.armOff)
  {
    forall place | place in run.places
      ensures run.places[place] == Some(true) <==> run.places[place] != Some(false) && run.places[place] != None
    {
      match run.places[place]
      case None =>
      case Some(inside) => assert inside || !inside;
    }
  }

  // ------------------------------------------------------------ latency

  lemma NearestHalf(top: nat, whole: nat)
    ensures Nearest(whole, top, 2) <==> whole == Rounded(top, 2)
  {
  }

  lemma NearestHundredth(top: nat, whole: nat)
    ensures Nearest(whole, top, 100) <==> whole == Rounded(top, 100)
  {
  }

  function Count(values: seq<int>, bound: int): (n: nat)
    ensures n <= |values|
  {
    if values == [] then 0 else (if values[0] <= bound then 1 else 0) + Count(values[1..], bound)
  }

  predicate Ascends(values: seq<int>) {
    forall i | 0 <= i < |values| - 1 :: values[i] <= values[i + 1]
  }

  lemma {:induction false} Inserts(n: int, into: seq<int>, bound: int)
    requires Ascends(into)
    ensures var all := InsertInt(n, into);
            && Ascends(all) && |all| == |into| + 1
            && all[0] == (if into == [] || n <= into[0] then n else into[0])
            && Count(all, bound) == Count(into, bound) + if n <= bound then 1 else 0
    decreases |into|
  {
    var all := InsertInt(n, into);
    if into == [] || n <= into[0] {
      assert all == [n] + into && all[1..] == into;
    } else {
      var rest := into[1..];
      assert forall i | 0 <= i < |rest| :: rest[i] == into[i + 1];
      forall i | 0 <= i < |rest| - 1 ensures rest[i] <= rest[i + 1] {
        assert into[i + 1] <= into[i + 1 + 1];
      }
      Inserts(n, rest, bound);
      var more := InsertInt(n, rest);
      assert all == [into[0]] + more && all[1..] == more;
      if rest != [] { assert into[0] <= into[1] == rest[0]; }
      forall i | 0 <= i < |all| - 1 ensures all[i] <= all[i + 1] {
        if i > 0 { assert more[i - 1] <= more[i]; }
      }
    }
  }

  lemma {:induction false} Sorts(values: seq<int>, bound: int)
    ensures Ascends(SortInts(values)) && Count(SortInts(values), bound) == Count(values, bound)
    decreases |values|
  {
    if values != [] {
      Sorts(values[1..], bound);
      Inserts(values[0], SortInts(values[1..]), bound);
    }
  }

  lemma {:induction false} FirstIsLeast(values: seq<int>, k: nat)
    requires Ascends(values) && k < |values|
    ensures values[0] <= values[k]
    decreases k
  {
    if k > 0 {
      FirstIsLeast(values, k - 1);
      assert values[k - 1] <= values[k - 1 + 1];
    }
  }

  lemma {:induction false} NoneCounts(values: seq<int>, bound: int)
    requires forall i | 0 <= i < |values| :: values[i] > bound
    ensures Count(values, bound) == 0
  {
    if values != [] { NoneCounts(values[1..], bound); }
  }

  /** In ascending order a place keeps a bound exactly if more values than its index do. */
  lemma {:induction false} PlaceKeeps(values: seq<int>, k: nat, bound: int)
    requires Ascends(values) && k < |values|
    ensures values[k] <= bound <==> Count(values, bound) > k
    decreases k
  {
    var rest := values[1..];
    assert forall i | 0 <= i < |rest| :: rest[i] == values[i + 1];
    forall i | 0 <= i < |rest| - 1 ensures rest[i] <= rest[i + 1] {
      assert values[i + 1] <= values[i + 1 + 1];
    }
    if k > 0 {
      PlaceKeeps(rest, k - 1, bound);
      FirstIsLeast(values, k);
    } else if values[0] > bound {
      forall i | 0 <= i < |values| ensures values[i] > bound {
        FirstIsLeast(values, i);
      }
      NoneCounts(values, bound);
    }
  }

  lemma PercentileKeeps(values: seq<int>, part: nat, whole: nat, bound: int)
    requires values != [] && 0 < part <= whole
    ensures Percentile(values, part, whole) <= bound <==> Count(values, bound) > Rounded((|values| - 1) * part, whole)
  {
    hide SortInts, Rounded, Count;
    RoundedStays(|values| - 1, part, whole);
    Sorts(values, bound);
    PlaceKeeps(SortInts(values), Rounded((|values| - 1) * part, whole), bound);
  }

  lemma {:induction false} LatenciesCount(firings: seq<Fired>, bound: int)
    ensures Count(Latencies(firings), bound) == Within(firings, bound)
    ensures |Latencies(firings)| <= |firings|
    ensures |Latencies(firings)| == |firings| <==> forall i | 0 <= i < |firings| :: Timed(firings[i])
    decreases |firings|
  {
    if firings != [] {
      var first, rest := firings[0], firings[1..];
      LatenciesCount(rest, bound);
      AtIsTaken(first, "processWallMs", "");
      if Timed(first) {
        assert Latencies(firings) == [Taken(first, "processWallMs").value.n] + Latencies(rest);
        assert Latencies(firings)[1..] == Latencies(rest);
      } else {
        assert Latencies(firings) == Latencies(rest);
      }
      hide Timed, Taken, At;
      assert forall i | 0 <= i < |rest| :: rest[i] == firings[i + 1];
    }
  }

  lemma MoreMeans(firings: seq<Fired>, bound: int, top: nat, bottom: nat)
    requires bottom == 2 || bottom == 100
    ensures MoreWithin(firings, bound, top, bottom) <==> Within(firings, bound) > Rounded(top, bottom)
  {
    hide Within, Rounded, Nearest;
    NearestHalf(top, Rounded(top, 2));
    NearestHundredth(top, Rounded(top, 100));
    if whole: nat :| Nearest(whole, top, bottom) && Within(firings, bound) > whole {
      NearestHalf(top, whole);
      NearestHundredth(top, whole);
    }
  }

  lemma LatencyMeans(run: Run)
    ensures LatencyMet(run) <==> FastEnough(run)
  {
    var firings := OfTheTen(run.on);
    hide FiringsOf, OfTheTen, SCENARIOS, Rounded, Percentile, Within, Timed, Latencies, Count, MoreWithin;
    TheTen(run);
    var latencies := Latencies(firings);
    LatenciesCount(firings, 2000);
    LatenciesCount(firings, 5000);
    if latencies != [] {
      PercentileKeeps(latencies, 1, 2, 2000);
      PercentileKeeps(latencies, 95, 100, 5000);
      MoreMeans(firings, 2000, |firings| - 1, 2);
      MoreMeans(firings, 5000, (|firings| - 1) * 95, 100);
    }
  }

  // ------------------------------------------------------------ the document

  /** A document passes exactly when its run meets every condition, cell by cell. */
  lemma PassesCellByCell(run: Run)
    ensures Passes(DocumentOf(run)) <==> Meets(run)
  {
    hide *;
    PassesExactly(run);
    RestMeans(run);
    ScenariosMean(run);
    WitnessMeans(run);
    DetectionsMean(run);
    WrongBlockMeans(run);
    LatencyMeans(run);
    ReservationMeans(run);
    MeetsParts(run);
  }

  lemma MeetsParts(run: Run)
    ensures Meets(run)
            <==> && SourceStood(run) && Installed(run.armOn) && Installed(run.armOff) && RowsStand(run)
                 && StayedInside(run) && (run.tracer ==> Witnessed(run))
                 && AllDetected(run) && NoWrongBlock(run) && FastEnough(run)
                 && ReservedTwice(run) && ForeignStands(run.armOn) && ForeignStands(run.armOff)
    ensures AllMet(run)
            <==> && StabilityMet(run) && ArmPasses(run.armOn) && ArmPasses(run.armOff) && ScenariosPass(run)
                 && ContainmentMet(run) && (run.tracer ==> WitnessMet(run))
                 && DetectionMet(run, "undeclared_turn_end", STATE_AND_RECEIPT)
                 && DetectionMet(run, "receipt_missing", ["receipt_missing"])
                 && DetectionMet(run, "managed_unregistered", ["managed_unregistered"])
                 && WrongBlockMet(run) && LatencyMet(run)
                 && OneReservationMet(run) && ForeignMet(run)
  {
    hide SourceStood, Installed, RowsStand, StayedInside, Witnessed, AllDetected, NoWrongBlock, FastEnough,
         ReservedTwice, ForeignStands, StabilityMet, ArmPasses, ScenariosPass, ContainmentMet, WitnessMet,
         DetectionMet, WrongBlockMet, LatencyMet, OneReservationMet, ForeignMet;
  }

  /** So at least half of the firings took at most two seconds, and at least 95 in a hundred, less 45 hundredths
      of one, at most five. */
  lemma HalfAndMost(run: Run)
    requires Passes(DocumentOf(run))
    ensures var firings := OfTheTen(run.on);
            2 * Within(firings, 2000) >= |firings| && 100 * Within(firings, 5000) + 45 >= 95 * |firings|
  {
    PassesCellByCell(run);
    hide Passes, DocumentOf, OfTheTen, Within, Timed;
  }

  /** The 95 in a hundred in full exactly where the number of firings lets rounding not go below them: of twelve
      firings eleven are enough, which is fewer. */
  lemma MostExactlyWhen(n: nat, most: nat)
    requires n > 0 && Nearest(most, (n - 1) * 95, 100)
    ensures 100 * (most + 1) >= 95 * n <==> (n - 1) % 20 < 10 || (n - 1) % 20 == 19 || (n - 1) % 40 == 10
    ensures n == 12 ==> most + 1 == 11 && 100 * 11 < 95 * n
  {
    var q, r := (n - 1) / 20, (n - 1) % 20;
    assert n - 1 == 20 * q + r;
    if r == 10 {
      assert q % 2 == 0 <==> (n - 1) % 40 == 10;
      assert most == 19 * q + 10 || most == 19 * q + 9;
    } else if r < 10 {
      assert most == 19 * q + r;
    } else {
      assert most == 19 * q + r - 1;
    }
  }
}
