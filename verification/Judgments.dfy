/** The judgments of a hook comparison, and why a reading that was not taken never helps one. */
module Judgments {
  import opened Wrappers

  // ------------------------------------------------------------ readings

  datatype Answer = Nothing | Word(text: string) | Number(n: int) | Words(words: seq<string>)

  /** A reading that was taken says something; one that was not is not a value at all. */
  datatype Value = Unread | Said(answer: Answer)

  datatype Cell = Cell(value: Value, detail: string)

  /** One firing: what its scenario declared before the run, what each cell read, and how many writes
      inside the root the witness saw. */
  datatype Fired = Fired(managed: bool, expected: map<string, Answer>, cells: map<string, Cell>,
                         writesInside: Option<int>)

  datatype Arm = Arm(cells: map<string, Value>, wanted: map<string, Answer>)

  /** A whole run: both arms' firings by scenario, both installations, every place written with whether
      it lies inside the root, the source's digests at both ends, and whether a tracer was there. */
  datatype Run = Run(on: map<string, seq<Fired>>, off: map<string, seq<Fired>>, armOn: Arm, armOff: Arm,
                     places: map<string, Option<bool>>, before: map<string, Value>, after: map<string, Value>,
                     tracer: bool, witnessed: map<string, Answer>)

  predicate Answered(value: Value, wanted: Answer) {
    value == Said(wanted)
  }

  /** The one way to a verdict: an unread reading beneath it settles it against the run. */
  predicate Judged(met: bool, notTaken: bool) {
    !notTaken && met
  }

  function At(fired: Fired, cell: string): Value {
    if cell in fired.cells then fired.cells[cell].value else Unread
  }

  // ------------------------------------------------------------ one row

  const ABSENT := Word("ABSENT")
  const PUBLISHED := Word("published")
  const NOT_PUBLISHED := Word("not_published")
  const RESERVED := Word("reserved")
  const NOT_RESERVED := Word("not_reserved")
  const PRINTED_A_BLOCK := Word("printed_a_block")
  const PRINTED_NOTHING := Word("printed_nothing")
  const FOREIGN_PRESENT := Word("present")
  const GUARD_ANSWERED := Word("guard_answered")
  const NO_REGISTRATION := "no entry under Stop names this adapter, because the install was a dry run"

  const FIRING_CELLS: set<string> := {
    "firedCommand", "adapterOutcome", "observation", "guardDecision", "guardState", "printedBlock",
    "recordedAs", "observationFile", "heldFile", "journalElapsedMs", "processWallMs", "processExit",
    "startedExecutable", "startedCommand", "startedEntryPoint", "unexpectedExecutions", "writesOutsideRoot"}

  predicate Truthy(answer: Answer) {
    match answer
    case Nothing => false
    case Word(text) => text != ""
    case Number(n) => n != 0
    case Words(words) => words != []
  }

  /** Whether a cell agrees with what its scenario declared. */
  predicate Agrees(cell: string, wanted: Answer, value: Value) {
    value.Said?
    && if cell == "recordedAs" && wanted == PUBLISHED then value.answer.Word? && Truthy(value.answer)
       else if cell == "recordedAs" && wanted == NOT_PUBLISHED then value.answer == Nothing
       else value.answer == wanted
  }

  predicate Unmeasured(fired: Fired) {
    && fired.managed
    && ("recordedAs" in fired.expected ==> fired.expected["recordedAs"] == PUBLISHED)
    && (At(fired, "recordedAs") == Unread || !Truthy(At(fired, "recordedAs").answer))
  }

  predicate RowPasses(fired: Fired) {
    && Answered(At(fired, "adapterOutcome"), GUARD_ANSWERED)
    && (forall cell | cell in fired.expected :: Agrees(cell, fired.expected[cell], At(fired, cell)))
    && !Unmeasured(fired)
  }

  /** The arm that registered nothing passes by reading its one absence everywhere. */
  predicate OffRowPasses(fired: Fired) {
    forall cell | cell in FIRING_CELLS ::
      cell in fired.cells && fired.cells[cell] == Cell(Said(ABSENT), NO_REGISTRATION)
  }

  predicate ArmPasses(arm: Arm) {
    forall cell | cell in arm.wanted :: cell in arm.cells && Answered(arm.cells[cell], arm.wanted[cell])
  }

  // ------------------------------------------------------------ the measures

  function FiringsOf(run: Run, names: seq<string>): seq<Fired> {
    if names == [] then []
    else (if names[0] in run.on then run.on[names[0]] else []) + FiringsOf(run, names[1..])
  }

  const SCENARIOS := [
    "receipt_missing", "managed_unregistered", "undeclared_turn_end", "declared_ready_receipted",
    "declared_in_progress", "declared_blocked_needs_input", "declared_interrupted", "unmanaged",
    "cxc_concurrent", "duplicate"]

  predicate Reports(fired: Fired, observation: string) {
    Answered(At(fired, "adapterOutcome"), GUARD_ANSWERED) && Answered(At(fired, "observation"), Word(observation))
  }

  predicate SomeUnread(firings: seq<Fired>, cells: seq<string>) {
    exists i, c :: 0 <= i < |firings| && 0 <= c < |cells| && At(firings[i], cells[c]) == Unread
  }

  predicate DetectionMet(run: Run, observation: string, names: seq<string>) {
    var injected := FiringsOf(run, names);
    Judged(injected != [] && forall i | 0 <= i < |injected| :: Reports(injected[i], observation),
           SomeUnread(injected, ["observation", "adapterOutcome"]))
  }

  const WATCHED := ["declared_blocked_needs_input", "declared_interrupted", "unmanaged"]

  predicate Known(value: Value) {
    value.Said? && value.answer in {RESERVED, NOT_RESERVED, PRINTED_A_BLOCK, PRINTED_NOTHING}
  }

  /** No hold on the watched scenarios, and nobody's word missing on it. */
  predicate WrongBlockMet(run: Run) {
    var watched := FiringsOf(run, WATCHED);
    Judged(forall i | 0 <= i < |watched| ::
             !Answered(At(watched[i], "heldFile"), RESERVED)
             && !Answered(At(watched[i], "printedBlock"), PRINTED_A_BLOCK),
           exists i :: 0 <= i < |watched|
                       && !(Known(At(watched[i], "heldFile")) && Known(At(watched[i], "printedBlock"))))
  }

  function Latencies(firings: seq<Fired>): seq<int> {
    if firings == [] then []
    else
      (match At(firings[0], "processWallMs") case Said(Number(n)) => [n] case _ => []) + Latencies(firings[1..])
  }

  function InsertInt(n: int, into: seq<int>): seq<int> {
    if into == [] || n <= into[0] then [n] + into else [into[0]] + InsertInt(n, into[1..])
  }

  function SortInts(values: seq<int>): (sorted: seq<int>)
    ensures |sorted| == |values|
  {
    if values == [] then [] else
      var rest := SortInts(values[1..]);
      InsertLength(values[0], rest);
      InsertInt(values[0], rest)
  }

  lemma {:induction false} InsertLength(n: int, into: seq<int>)
    ensures |InsertInt(n, into)| == |into| + 1
  {
    if into != [] && n > into[0] { InsertLength(n, into[1..]); }
  }

  /** To the nearest whole number, and a half to the even one. */
  function Rounded(top: nat, bottom: nat): nat
    requires bottom > 0
  {
    var whole, left := top / bottom, top % bottom;
    if 2 * left < bottom || (2 * left == bottom && whole % 2 == 0) then whole else whole + 1
  }

  lemma NotBelow(x: int, whole: nat)
    requires whole > 0 && x * whole >= 0
    ensures x >= 0
  {
  }

  lemma RoundedStays(n: nat, part: nat, whole: nat)
    requires 0 < part <= whole
    ensures Rounded(n * part, whole) <= n
  {
    var q, r := n * part / whole, n * part % whole;
    assert n * part <= n * whole;
    assert n * part == q * whole + r;
    assert (n - q) * whole == n * whole - q * whole >= r;
    NotBelow(n - q, whole);
    assert n == q ==> (n - q) * whole == 0;
  }

  function Percentile(values: seq<int>, part: nat, whole: nat): int
    requires values != [] && 0 < part <= whole
  {
    RoundedStays(|values| - 1, part, whole);
    SortInts(values)[Rounded((|values| - 1) * part, whole)]
  }

  const LATENCY_MEDIAN_MS := 2000
  const LATENCY_P95_MS := 5000

  predicate LatencyMet(run: Run) {
    var firings := FiringsOf(run, SCENARIOS);
    var latencies := Latencies(firings);
    Judged(latencies != [] && Percentile(latencies, 1, 2) <= LATENCY_MEDIAN_MS
           && Percentile(latencies, 95, 100) <= LATENCY_P95_MS,
           |latencies| != |firings|)
  }

  // ------------------------------------------------------------ the other judgments

  predicate OneReservationMet(run: Run) {
    var firings := FiringsOf(run, ["duplicate"]);
    Judged(|firings| == 2
           && (forall i | 0 <= i < 2 :: Answered(At(firings[i], "heldFile"), RESERVED))
           && (forall i | 0 <= i < 2 :: At(firings[i], "recordedAs").Said?
                                        && Truthy(At(firings[i], "recordedAs").answer))
           && At(firings[0], "recordedAs") != At(firings[1], "recordedAs"),
           SomeUnread(firings, ["heldFile", "recordedAs"]))
  }

  function ForeignOf(arm: Arm): Value {
    if "foreignRegistration" in arm.cells then arm.cells["foreignRegistration"] else Unread
  }

  predicate ForeignMet(run: Run) {
    Judged(Answered(ForeignOf(run.armOn), FOREIGN_PRESENT) && Answered(ForeignOf(run.armOff), FOREIGN_PRESENT),
           ForeignOf(run.armOn) == Unread || ForeignOf(run.armOff) == Unread)
  }

  predicate WitnessMet(run: Run) {
    var firings := FiringsOf(run, SCENARIOS);
    Judged(forall i | 0 <= i < |firings| ::
             && (forall cell | cell in run.witnessed ::
                   At(firings[i], cell) == Unread || Answered(At(firings[i], cell), run.witnessed[cell]))
             && firings[i].writesInside.Some? && firings[i].writesInside.value >= 1,
           exists i, cell :: 0 <= i < |firings| && cell in run.witnessed && At(firings[i], cell) == Unread)
  }

  predicate ContainmentMet(run: Run) {
    Judged(forall place | place in run.places :: run.places[place] != Some(false),
           exists place :: place in run.places && run.places[place] == None)
  }

  predicate StabilityMet(run: Run) {
    Judged(run.before == run.after && run.before != map[],
           (exists name :: name in run.before && run.before[name] == Unread)
           || exists name :: name in run.after && run.after[name] == Unread)
  }

  // ------------------------------------------------------------ turning readings unread

  /** The same run with any of its cells, digests and containment answers not taken. */
  predicate Dimmer(value: Value, dim: Value) {
    dim == value || dim == Unread
  }

  predicate DimmerFired(fired: Fired, dim: Fired) {
    && dim.managed == fired.managed && dim.expected == fired.expected
    && dim.cells.Keys == fired.cells.Keys
    && (forall cell | cell in fired.cells ::
          dim.cells[cell] == fired.cells[cell] || dim.cells[cell].value == Unread)
    && (dim.writesInside == fired.writesInside || dim.writesInside == None)
  }

  predicate DimmerFirings(firings: seq<Fired>, dim: seq<Fired>) {
    |dim| == |firings| && forall i | 0 <= i < |firings| :: DimmerFired(firings[i], dim[i])
  }

  predicate DimmerByName(fired: map<string, seq<Fired>>, dim: map<string, seq<Fired>>) {
    dim.Keys == fired.Keys && forall name | name in fired :: DimmerFirings(fired[name], dim[name])
  }

  predicate DimmerValues(values: map<string, Value>, dim: map<string, Value>) {
    dim.Keys == values.Keys && forall name | name in values :: Dimmer(values[name], dim[name])
  }

  predicate DimmerRun(run: Run, dim: Run) {
    && DimmerByName(run.on, dim.on) && DimmerByName(run.off, dim.off)
    && dim.armOn.wanted == run.armOn.wanted && DimmerValues(run.armOn.cells, dim.armOn.cells)
    && dim.armOff.wanted == run.armOff.wanted && DimmerValues(run.armOff.cells, dim.armOff.cells)
    && dim.places.Keys == run.places.Keys
    && (forall place | place in run.places ::
          dim.places[place] == run.places[place] || dim.places[place] == None)
    && DimmerValues(run.before, dim.before) && DimmerValues(run.after, dim.after)
    && dim.tracer == run.tracer && dim.witnessed == run.witnessed
  }

  lemma CellsDim(fired: Fired, dim: Fired, cell: string)
    requires DimmerFired(fired, dim)
    ensures Dimmer(At(fired, cell), At(dim, cell))
  {
  }

  lemma RowsNeverGain(fired: Fired, dim: Fired)
    requires DimmerFired(fired, dim)
    ensures RowPasses(dim) ==> RowPasses(fired)
    ensures OffRowPasses(dim) ==> OffRowPasses(fired)
  {
    forall cell ensures Dimmer(At(fired, cell), At(dim, cell)) {
      CellsDim(fired, dim, cell);
    }
  }

  lemma {:induction false} FiringsDim(run: Run, dim: Run, names: seq<string>)
    requires DimmerRun(run, dim)
    ensures DimmerFirings(FiringsOf(run, names), FiringsOf(dim, names))
  {
    if names != [] { FiringsDim(run, dim, names[1..]); }
  }

  lemma CellsOfFirings(firings: seq<Fired>, dim: seq<Fired>, i: nat, cell: string)
    requires DimmerFirings(firings, dim) && i < |firings|
    ensures Dimmer(At(firings[i], cell), At(dim[i], cell))
  {
    CellsDim(firings[i], dim[i], cell);
  }

  lemma DetectionNeverGains(run: Run, dim: Run, observation: string, names: seq<string>)
    requires DimmerRun(run, dim)
    ensures DetectionMet(dim, observation, names) ==> DetectionMet(run, observation, names)
  {
    FiringsDim(run, dim, names);
    var firings, dimmed := FiringsOf(run, names), FiringsOf(dim, names);
    var cells := ["observation", "adapterOutcome"];
    hide DimmerRun, FiringsOf;
    forall i: nat, cell | i < |firings| ensures Dimmer(At(firings[i], cell), At(dimmed[i], cell)) {
      CellsOfFirings(firings, dimmed, i, cell);
    }
    if DetectionMet(dim, observation, names) {
      forall i | 0 <= i < |firings| ensures Reports(firings[i], observation) {
        assert Reports(dimmed[i], observation);
      }
      forall i, c | 0 <= i < |firings| && 0 <= c < |cells| ensures At(firings[i], cells[c]) != Unread {
        assert At(dimmed[i], cells[c]) != Unread;
      }
    }
  }

  lemma WrongBlockNeverGains(run: Run, dim: Run)
    requires DimmerRun(run, dim)
    ensures WrongBlockMet(dim) ==> WrongBlockMet(run)
  {
    FiringsDim(run, dim, WATCHED);
    var firings, dimmed := FiringsOf(run, WATCHED), FiringsOf(dim, WATCHED);
    hide DimmerRun, FiringsOf;
    forall i: nat, cell | i < |firings| ensures Dimmer(At(firings[i], cell), At(dimmed[i], cell)) {
      CellsOfFirings(firings, dimmed, i, cell);
    }
    if WrongBlockMet(dim) {
      forall i | 0 <= i < |firings|
        ensures At(firings[i], "heldFile") == At(dimmed[i], "heldFile")
        ensures At(firings[i], "printedBlock") == At(dimmed[i], "printedBlock")
      {
        assert Known(At(dimmed[i], "heldFile")) && Known(At(dimmed[i], "printedBlock"));
      }
    }
  }

  lemma {:induction false} LatenciesDim(firings: seq<Fired>, dim: seq<Fired>)
    requires DimmerFirings(firings, dim)
    ensures |Latencies(dim)| <= |Latencies(firings)| <= |firings|
    ensures |Latencies(dim)| == |dim| ==> Latencies(dim) == Latencies(firings)
  {
    if firings != [] {
      CellsDim(firings[0], dim[0], "processWallMs");
      LatenciesDim(firings[1..], dim[1..]);
    }
  }

  lemma LatencyNeverGains(run: Run, dim: Run)
    requires DimmerRun(run, dim)
    ensures LatencyMet(dim) ==> LatencyMet(run)
  {
    FiringsDim(run, dim, SCENARIOS);
    LatenciesDim(FiringsOf(run, SCENARIOS), FiringsOf(dim, SCENARIOS));
    hide DimmerRun, FiringsOf, Latencies, Percentile, SCENARIOS;
  }

  lemma ReservationNeverGains(run: Run, dim: Run)
    requires DimmerRun(run, dim)
    ensures OneReservationMet(dim) ==> OneReservationMet(run)
  {
    FiringsDim(run, dim, ["duplicate"]);
    var firings, dimmed := FiringsOf(run, ["duplicate"]), FiringsOf(dim, ["duplicate"]);
    var cells := ["heldFile", "recordedAs"];
    hide DimmerRun, FiringsOf;
    forall i: nat, cell | i < |firings| ensures Dimmer(At(firings[i], cell), At(dimmed[i], cell)) {
      CellsOfFirings(firings, dimmed, i, cell);
    }
    if OneReservationMet(dim) {
      forall i, c | 0 <= i < |firings| && 0 <= c < |cells|
        ensures At(firings[i], cells[c]) == At(dimmed[i], cells[c]) != Unread
      {
        assert At(dimmed[i], cells[c]) != Unread;
      }
      assert cells[0] == "heldFile" && cells[1] == "recordedAs";
    }
  }

  lemma WitnessNeverGains(run: Run, dim: Run)
    requires DimmerRun(run, dim)
    ensures WitnessMet(dim) ==> WitnessMet(run)
  {
    FiringsDim(run, dim, SCENARIOS);
    var firings, dimmed := FiringsOf(run, SCENARIOS), FiringsOf(dim, SCENARIOS);
    assert dim.witnessed == run.witnessed;
    hide DimmerRun, FiringsOf, SCENARIOS;
    forall i: nat, cell | i < |firings| ensures Dimmer(At(firings[i], cell), At(dimmed[i], cell)) {
      CellsOfFirings(firings, dimmed, i, cell);
    }
    if WitnessMet(dim) {
      forall i, cell | 0 <= i < |firings| && cell in run.witnessed
        ensures At(firings[i], cell) == At(dimmed[i], cell) != Unread
      {
        assert At(dimmed[i], cell) != Unread;
      }
      forall i | 0 <= i < |firings| ensures firings[i].writesInside == dimmed[i].writesInside {
        assert DimmerFired(firings[i], dimmed[i]);
        assert dimmed[i].writesInside.Some?;
      }
    }
  }

  lemma ContainmentNeverGains(run: Run, dim: Run)
    requires DimmerRun(run, dim)
    ensures ContainmentMet(dim) ==> ContainmentMet(run)
  {
    hide DimmerByName, DimmerValues;
    if ContainmentMet(dim) {
      forall place | place in run.places ensures run.places[place] == dim.places[place] != None {
        assert place in dim.places;
      }
    }
  }

  lemma StabilityNeverGains(run: Run, dim: Run)
    requires DimmerRun(run, dim)
    ensures StabilityMet(dim) ==> StabilityMet(run)
  {
    hide DimmerByName;
    if StabilityMet(dim) {
      assert run.before == dim.before by {
        forall name | name in dim.before ensures run.before[name] == dim.before[name] {
          assert dim.before[name] != Unread;
        }
      }
      assert run.after == dim.after by {
        forall name | name in dim.after ensures run.after[name] == dim.after[name] {
          assert dim.after[name] != Unread;
        }
      }
    }
  }

  lemma ArmsNeverGain(run: Run, dim: Run)
    requires DimmerRun(run, dim)
    ensures ArmPasses(dim.armOn) ==> ArmPasses(run.armOn)
    ensures ArmPasses(dim.armOff) ==> ArmPasses(run.armOff)
    ensures ForeignMet(dim) ==> ForeignMet(run)
  {
    hide DimmerByName;
  }
}
