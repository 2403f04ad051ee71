/** The document a comparison is answered by: every judgment in it, at whatever depth, decides. */
module ComparisonDocument {
  import opened Wrappers
  import opened Judgments

  // ------------------------------------------------------------ the walk

  /** An assembled document. A leaf is a verdict, or anything that is none. */
  datatype Doc = Leaf(verdict: Option<bool>) | Object(fields: seq<Field>) | Array(items: seq<Doc>)

  datatype Field = Field(key: string, value: Doc)

  const JUDGMENT_KEYS: set<string> := {"passed", "met"}

  /** Every value under either of the two names. */
  function JudgmentsIn(doc: Doc): seq<Doc>
    decreases doc, 1
  {
    match doc
    case Leaf(_) => []
    case Object(fields) => InFields(fields)
    case Array(items) => InItems(items)
  }

  function InFields(fields: seq<Field>): seq<Doc>
    decreases fields, 0
  {
    if fields == [] then []
    else (if fields[0].key in JUDGMENT_KEYS then [fields[0].value] else [])
         + JudgmentsIn(fields[0].value) + InFields(fields[1..])
  }

  function InItems(items: seq<Doc>): seq<Doc>
    decreases items, 0
  {
    if items == [] then [] else JudgmentsIn(items[0]) + InItems(items[1..])
  }

  /** A document carries a judgment where one of its members is one, or something in it carries it. */
  predicate Carries(doc: Doc, judgment: Doc)
    decreases doc
  {
    match doc
    case Leaf(_) => false
    case Object(fields) =>
      exists i :: 0 <= i < |fields| && CarriesField(fields[i], judgment)
    case Array(items) =>
      exists i :: 0 <= i < |items| && Carries(items[i], judgment)
  }

  predicate CarriesField(field: Field, judgment: Doc)
    decreases field
  {
    (field.key in JUDGMENT_KEYS && field.value == judgment) || Carries(field.value, judgment)
  }

  /** The walk leaves none out and adds none. */
  lemma {:induction false} WalkIsComplete(doc: Doc, judgment: Doc)
    ensures judgment in JudgmentsIn(doc) <==> Carries(doc, judgment)
    decreases doc, 1
  {
    match doc
    case Leaf(_) =>
    case Object(fields) => WalksFields(fields, judgment);
    case Array(items) => WalksItems(items, judgment);
  }

  lemma {:induction false} WalksFields(fields: seq<Field>, judgment: Doc)
    ensures judgment in InFields(fields) <==> exists i :: 0 <= i < |fields| && CarriesField(fields[i], judgment)
    decreases fields, 0
  {
    if fields != [] {
      WalkIsComplete(fields[0].value, judgment);
      WalksFields(fields[1..], judgment);
      if judgment in InFields(fields[1..]) {
        var i :| 0 <= i < |fields[1..]| && CarriesField(fields[1..][i], judgment);
        assert CarriesField(fields[i + 1], judgment);
      }
      if exists i :: 0 <= i < |fields| && CarriesField(fields[i], judgment) {
        var i :| 0 <= i < |fields| && CarriesField(fields[i], judgment);
        if i > 0 { assert CarriesField(fields[1..][i - 1], judgment); }
      }
    }
  }

  lemma {:induction false} WalksItems(items: seq<Doc>, judgment: Doc)
    ensures judgment in InItems(items) <==> exists i :: 0 <= i < |items| && Carries(items[i], judgment)
    decreases items, 0
  {
    if items != [] {
      WalkIsComplete(items[0], judgment);
      WalksItems(items[1..], judgment);
      if judgment in InItems(items[1..]) {
        var i :| 0 <= i < |items[1..]| && Carries(items[1..][i], judgment);
        assert Carries(items[i + 1], judgment);
      }
      if exists i :: 0 <= i < |items| && Carries(items[i], judgment) {
        var i :| 0 <= i < |items| && Carries(items[i], judgment);
        if i > 0 { assert Carries(items[1..][i - 1], judgment); }
      }
    }
  }

  const FALSE := Leaf(Some(false))

  /** The document passes when no judgment in it is false. */
  predicate Passes(doc: Doc) {
    FALSE !in JudgmentsIn(doc)
  }

  // ------------------------------------------------------------ what the document holds

  function Flag(key: string, met: bool): Doc {
    Object([Field(key, Leaf(Some(met)))])
  }

  function RowsOf(firings: seq<Fired>, off: bool): (rows: seq<Doc>)
    ensures |rows| == |firings|
    ensures forall i | 0 <= i < |firings| ::
              rows[i] == Object([Field("verdict", Flag("passed", if off then OffRowPasses(firings[i])
                                                                 else RowPasses(firings[i])))])
  {
    seq(|firings|, i requires 0 <= i < |firings| =>
      Object([Field("verdict", Flag("passed", if off then OffRowPasses(firings[i]) else RowPasses(firings[i])))]))
  }

  function Named(fired: map<string, seq<Fired>>, name: string): seq<Fired> {
    if name in fired then fired[name] else []
  }

  function ScenarioFields(run: Run, names: seq<string>): (fields: seq<Field>)
    ensures |fields| == |names|
    ensures forall i | 0 <= i < |names| ::
              fields[i] == Field(names[i], Object([Field("on", Array(RowsOf(Named(run.on, names[i]), false))),
                                                   Field("off", Array(RowsOf(Named(run.off, names[i]), true)))]))
  {
    seq(|names|, i requires 0 <= i < |names| =>
      Field(names[i], Object([Field("on", Array(RowsOf(Named(run.on, names[i]), false))),
                              Field("off", Array(RowsOf(Named(run.off, names[i]), true)))])))
  }

  const STATE_AND_RECEIPT := ["undeclared_turn_end", "cxc_concurrent", "duplicate"]
  const NOT_PERFORMED := Object([Field("answer", Leaf(None))])

  function MeasureFields(run: Run): seq<Field> {
    [Field("missedDetectionStateAndReceiptAbsent",
           Flag("met", DetectionMet(run, "undeclared_turn_end", STATE_AND_RECEIPT))),
     Field("missedDetectionReceiptAbsentOnly", Flag("met", DetectionMet(run, "receipt_missing", ["receipt_missing"]))),
     Field("missedDetectionMarkerWithoutRegistration",
           Flag("met", DetectionMet(run, "managed_unregistered", ["managed_unregistered"]))),
     Field("handoffSuccess", NOT_PERFORMED),
     Field("wrongBlock", Flag("met", WrongBlockMet(run))),
     Field("duplicateExecution", NOT_PERFORMED),
     Field("addedLatency", Flag("met", LatencyMet(run)))]
  }

  /** Without a tracer the witness carries no verdict at all. */
  function WitnessDoc(run: Run): Doc {
    if run.tracer then Flag("met", WitnessMet(run)) else NOT_PERFORMED
  }

  function DocumentOf(run: Run): Doc {
    Object([
      Field("sourceIdentity", Flag("met", StabilityMet(run))),
      Field("arms", Object([Field("on", Object([Field("installed", Flag("passed", ArmPasses(run.armOn)))])),
                            Field("off", Object([Field("installed", Flag("passed", ArmPasses(run.armOff)))]))])),
      Field("scenarios", Object(ScenarioFields(run, SCENARIOS))),
      Field("wroteOnlyInsideItsRoot", Flag("met", ContainmentMet(run))),
      Field("processWitness", WitnessDoc(run)),
      Field("measures", Object(MeasureFields(run))),
      Field("supplemental", Object([Field("oneReservationPerTurn", Flag("met", OneReservationMet(run))),
                                    Field("foreignRegistrationSurvives", Flag("met", ForeignMet(run)))]))])
  }

  // ------------------------------------------------------------ what it takes to pass

  predicate Fails(doc: Doc) {
    Carries(doc, FALSE)
  }

  lemma FlagFails(key: string, met: bool)
    requires key in JUDGMENT_KEYS
    ensures Fails(Flag(key, met)) <==> !met
  {
    var doc := Flag(key, met);
    assert CarriesField(doc.fields[0], FALSE) <==> !met;
  }

  lemma FieldsFail(fields: seq<Field>)
    requires forall i | 0 <= i < |fields| :: fields[i].key !in JUDGMENT_KEYS
    ensures Fails(Object(fields)) <==> exists i :: 0 <= i < |fields| && Fails(fields[i].value)
  {
    forall i | 0 <= i < |fields| ensures CarriesField(fields[i], FALSE) <==> Fails(fields[i].value) {
    }
  }

  lemma ItemsFail(items: seq<Doc>)
    ensures Fails(Array(items)) <==> exists i :: 0 <= i < |items| && Fails(items[i])
  {
  }

  predicate RowsPass(firings: seq<Fired>, off: bool) {
    forall i | 0 <= i < |firings| :: if off then OffRowPasses(firings[i]) else RowPasses(firings[i])
  }

  lemma RowsFail(firings: seq<Fired>, off: bool)
    ensures Fails(Array(RowsOf(firings, off))) <==> !RowsPass(firings, off)
  {
    var rows := RowsOf(firings, off);
    hide RowPasses, OffRowPasses, Fails, Flag;
    forall i | 0 <= i < |firings|
      ensures Fails(rows[i]) <==> !(if off then OffRowPasses(firings[i]) else RowPasses(firings[i]))
    {
      var passed := if off then OffRowPasses(firings[i]) else RowPasses(firings[i]);
      var fields := [Field("verdict", Flag("passed", passed))];
      FieldsFail(fields);
      FlagFails("passed", passed);
      assert fields[0].value == Flag("passed", passed);
    }
    ItemsFail(rows);
  }

  predicate ScenariosPass(run: Run) {
    forall i | 0 <= i < |SCENARIOS| ::
      RowsPass(Named(run.on, SCENARIOS[i]), false) && RowsPass(Named(run.off, SCENARIOS[i]), true)
  }

  lemma ScenariosFail(run: Run)
    ensures Fails(Object(ScenarioFields(run, SCENARIOS))) <==> !ScenariosPass(run)
  {
    var names := SCENARIOS;
    var fields := ScenarioFields(run, names);
    hide RowsPass, Fails, RowsOf;
    NamesAreNoJudgments();
    forall i | 0 <= i < |names|
      ensures Fails(fields[i].value)
              <==> !(RowsPass(Named(run.on, names[i]), false) && RowsPass(Named(run.off, names[i]), true))
    {
      var on, off := Array(RowsOf(Named(run.on, names[i]), false)), Array(RowsOf(Named(run.off, names[i]), true));
      RowsFail(Named(run.on, names[i]), false);
      RowsFail(Named(run.off, names[i]), true);
      TwoFail("on", on, "off", off);
    }
    FieldsFail(fields);
  }

  lemma NamesAreNoJudgments()
    ensures forall i | 0 <= i < |SCENARIOS| :: SCENARIOS[i] !in JUDGMENT_KEYS
  {
  }

  lemma TwoFail(a: string, x: Doc, b: string, y: Doc)
    requires a !in JUDGMENT_KEYS && b !in JUDGMENT_KEYS
    ensures Fails(Object([Field(a, x), Field(b, y)])) <==> Fails(x) || Fails(y)
  {
    hide Fails;
    var fields := [Field(a, x), Field(b, y)];
    FieldsFail(fields);
    assert fields[0].value == x && fields[1].value == y;
  }

  predicate MeasuresMet(run: Run) {
    && DetectionMet(run, "undeclared_turn_end", STATE_AND_RECEIPT)
    && DetectionMet(run, "receipt_missing", ["receipt_missing"])
    && DetectionMet(run, "managed_unregistered", ["managed_unregistered"])
    && WrongBlockMet(run)
    && LatencyMet(run)
  }

  lemma NotPerformedPasses()
    ensures !Fails(NOT_PERFORMED)
  {
    var field := NOT_PERFORMED.fields[0];
    assert field.key == "answer" && !CarriesField(field, FALSE);
  }

  lemma MeasuresFail(run: Run)
    ensures Fails(Object(MeasureFields(run))) <==> !MeasuresMet(run)
  {
    hide Fails, DetectionMet, WrongBlockMet, LatencyMet, Flag, NOT_PERFORMED;
    var fields := MeasureFields(run);
    NotPerformedPasses();
    FlagFails("met", DetectionMet(run, "undeclared_turn_end", STATE_AND_RECEIPT));
    FlagFails("met", DetectionMet(run, "receipt_missing", ["receipt_missing"]));
    FlagFails("met", DetectionMet(run, "managed_unregistered", ["managed_unregistered"]));
    FlagFails("met", WrongBlockMet(run));
    FlagFails("met", LatencyMet(run));
    FieldsFail(fields);
    assert fields[0].value == Flag("met", DetectionMet(run, "undeclared_turn_end", STATE_AND_RECEIPT));
    assert fields[1].value == Flag("met", DetectionMet(run, "receipt_missing", ["receipt_missing"]));
    assert fields[2].value == Flag("met", DetectionMet(run, "managed_unregistered", ["managed_unregistered"]));
    assert fields[4].value == Flag("met", WrongBlockMet(run));
    assert fields[6].value == Flag("met", LatencyMet(run));
  }

  /** Everything the document judges, the witness only where there was a tracer. */
  predicate AllMet(run: Run) {
    && StabilityMet(run)
    && ArmPasses(run.armOn) && ArmPasses(run.armOff)
    && ScenariosPass(run)
    && ContainmentMet(run)
    && (run.tracer ==> WitnessMet(run))
    && MeasuresMet(run)
    && OneReservationMet(run) && ForeignMet(run)
  }

  lemma ArmFails(arm: Arm)
    ensures Fails(Object([Field("installed", Flag("passed", ArmPasses(arm)))])) <==> !ArmPasses(arm)
  {
    hide Fails, Flag, ArmPasses;
    var fields := [Field("installed", Flag("passed", ArmPasses(arm)))];
    FieldsFail(fields);
    FlagFails("passed", ArmPasses(arm));
    assert fields[0].value == Flag("passed", ArmPasses(arm));
  }

  /** The document passes exactly when everything in it is met. */
  lemma PassesExactly(run: Run)
    ensures Passes(DocumentOf(run)) <==> AllMet(run)
  {
    var doc := DocumentOf(run);
    WalkIsComplete(doc, FALSE);
    FlagFails("met", StabilityMet(run));
    FlagFails("met", ContainmentMet(run));
    FlagFails("met", WitnessMet(run));
    FlagFails("met", OneReservationMet(run));
    FlagFails("met", ForeignMet(run));
    NotPerformedPasses();
    ArmFails(run.armOn);
    ArmFails(run.armOff);
    ScenariosFail(run);
    MeasuresFail(run);
    TopFails(run);
  }

  lemma TopFails(run: Run)
    ensures Fails(DocumentOf(run))
            <==> || Fails(Flag("met", StabilityMet(run)))
                 || Fails(Object([Field("installed", Flag("passed", ArmPasses(run.armOn)))]))
                 || Fails(Object([Field("installed", Flag("passed", ArmPasses(run.armOff)))]))
                 || Fails(Object(ScenarioFields(run, SCENARIOS)))
                 || Fails(Flag("met", ContainmentMet(run)))
                 || Fails(WitnessDoc(run))
                 || Fails(Object(MeasureFields(run)))
                 || Fails(Flag("met", OneReservationMet(run))) || Fails(Flag("met", ForeignMet(run)))
  {
    hide Fails, Flag, ArmPasses, ScenarioFields, MeasureFields, WitnessDoc, StabilityMet, ContainmentMet,
         OneReservationMet, ForeignMet, SCENARIOS;
    var on := Object([Field("installed", Flag("passed", ArmPasses(run.armOn)))]);
    var off := Object([Field("installed", Flag("passed", ArmPasses(run.armOff)))]);
    TwoFail("on", on, "off", off);
    TwoFail("oneReservationPerTurn", Flag("met", OneReservationMet(run)),
            "foreignRegistrationSurvives", Flag("met", ForeignMet(run)));
    var fields := DocumentOf(run).fields;
    FieldsFail(fields);
    assert fields[0].value == Flag("met", StabilityMet(run));
    assert fields[1].value == Object([Field("on", on), Field("off", off)]);
    assert fields[2].value == Object(ScenarioFields(run, SCENARIOS));
    assert fields[3].value == Flag("met", ContainmentMet(run));
    assert fields[4].value == WitnessDoc(run);
    assert fields[5].value == Object(MeasureFields(run));
    assert fields[6].value == Object([Field("oneReservationPerTurn", Flag("met", OneReservationMet(run))),
                                      Field("foreignRegistrationSurvives", Flag("met", ForeignMet(run)))]);
  }

  // ------------------------------------------------------------ unread readings never help

  lemma ScenariosNeverGain(run: Run, dim: Run)
    requires DimmerRun(run, dim)
    ensures ScenariosPass(dim) ==> ScenariosPass(run)
  {
    if ScenariosPass(dim) {
      forall i | 0 <= i < |SCENARIOS|
        ensures RowsPass(Named(run.on, SCENARIOS[i]), false) && RowsPass(Named(run.off, SCENARIOS[i]), true)
      {
        RowsOfNameNeverGain(run.on, dim.on, SCENARIOS[i], false);
        RowsOfNameNeverGain(run.off, dim.off, SCENARIOS[i], true);
      }
    }
  }

  lemma RowsOfNameNeverGain(fired: map<string, seq<Fired>>, dim: map<string, seq<Fired>>, name: string, off: bool)
    requires DimmerByName(fired, dim)
    ensures RowsPass(Named(dim, name), off) ==> RowsPass(Named(fired, name), off)
  {
    var firings, dimmed := Named(fired, name), Named(dim, name);
    assert DimmerFirings(firings, dimmed);
    hide RowPasses, OffRowPasses, DimmerFired;
    forall i | 0 <= i < |firings|
      ensures RowPasses(dimmed[i]) ==> RowPasses(firings[i])
      ensures OffRowPasses(dimmed[i]) ==> OffRowPasses(firings[i])
    {
      RowsNeverGain(firings[i], dimmed[i]);
    }
  }

  /** Whatever cells, digests and containment answers were not taken, no failed document passes for it. */
  lemma UnreadNeverHelps(run: Run, dim: Run)
    requires DimmerRun(run, dim)
    ensures Passes(DocumentOf(dim)) ==> Passes(DocumentOf(run))
  {
    hide *;
    PassesExactly(run);
    PassesExactly(dim);
    AllMetNeverGains(run, dim);
  }

  lemma AllMetNeverGains(run: Run, dim: Run)
    requires DimmerRun(run, dim)
    ensures AllMet(dim) ==> AllMet(run)
  {
    assert dim.tracer == run.tracer;
    StabilityNeverGains(run, dim);
    ArmsNeverGain(run, dim);
    ScenariosNeverGain(run, dim);
    ContainmentNeverGains(run, dim);
    WitnessNeverGains(run, dim);
    DetectionNeverGains(run, dim, "undeclared_turn_end", STATE_AND_RECEIPT);
    DetectionNeverGains(run, dim, "receipt_missing", ["receipt_missing"]);
    DetectionNeverGains(run, dim, "managed_unregistered", ["managed_unregistered"]);
    WrongBlockNeverGains(run, dim);
    LatencyNeverGains(run, dim);
    ReservationNeverGains(run, dim);
    hide StabilityMet, ArmPasses, ScenariosPass, ContainmentMet, WitnessMet, DetectionMet, WrongBlockMet,
         LatencyMet, OneReservationMet, ForeignMet, DimmerRun;
  }

  /** The one answer that does help: with no tracer the witness carries no verdict, so a run it alone
      failed passes. */
  lemma NoTracerIsNoVerdict(run: Run)
    requires run.tracer
    ensures Passes(DocumentOf(run)) <==> Passes(DocumentOf(run.(tracer := false))) && WitnessMet(run)
  {
    PassesExactly(run);
    PassesExactly(run.(tracer := false));
    SameBesides(run);
    hide StabilityMet, ArmPasses, ScenariosPass, ContainmentMet, WitnessMet, MeasuresMet, OneReservationMet,
         ForeignMet, Passes, DocumentOf;
  }

  lemma SameBesides(run: Run)
    ensures var none := run.(tracer := false);
            && StabilityMet(none) == StabilityMet(run) && ContainmentMet(none) == ContainmentMet(run)
            && ScenariosPass(none) == ScenariosPass(run) && MeasuresMet(none) == MeasuresMet(run)
            && OneReservationMet(none) == OneReservationMet(run) && ForeignMet(none) == ForeignMet(run)
  {
    var none := run.(tracer := false);
    FiringsBesides(run, SCENARIOS);
    FiringsBesides(run, WATCHED);
    FiringsBesides(run, STATE_AND_RECEIPT);
    FiringsBesides(run, ["receipt_missing"]);
    FiringsBesides(run, ["managed_unregistered"]);
    FiringsBesides(run, ["duplicate"]);
    hide FiringsOf, RowsPass, SCENARIOS, Percentile, Latencies, Reports, SomeUnread;
  }

  lemma {:induction false} FiringsBesides(run: Run, names: seq<string>)
    ensures FiringsOf(run.(tracer := false), names) == FiringsOf(run, names)
  {
    if names != [] { FiringsBesides(run, names[1..]); }
  }

  // ------------------------------------------------------------ a run the witness alone failed

  /** A firing that reported and reserved, whose writes the witness did not see. */
  function Unseen(observation: string, record: string): Fired {
    Fired(true, map[],
          map["adapterOutcome" := Cell(Said(GUARD_ANSWERED), ""), "observation" := Cell(Said(Word(observation)), ""),
              "recordedAs" := Cell(Said(Word(record)), ""), "heldFile" := Cell(Said(RESERVED), ""),
              "processWallMs" := Cell(Said(Number(1)), "")],
          None)
  }

  const ARM := Arm(map["foreignRegistration" := Said(FOREIGN_PRESENT)], map[])
  const SOURCE := map["source" := Said(Word("digest"))]
  const UNWITNESSED := Run(
    map["receipt_missing" := [Unseen("receipt_missing", "a")],
        "managed_unregistered" := [Unseen("managed_unregistered", "b")],
        "duplicate" := [Unseen("undeclared_turn_end", "c"), Unseen("undeclared_turn_end", "d")]],
    map[], ARM, ARM, map[], SOURCE, SOURCE, true, map[])

  predicate IsUnseen(fired: Fired) {
    && fired.cells.Keys == Unseen("", "").cells.Keys
    && fired == Unseen(TextAt(fired, "observation"), TextAt(fired, "recordedAs"))
    && TextAt(fired, "recordedAs") != ""
  }

  function TextAt(fired: Fired, cell: string): string {
    match At(fired, cell) case Said(Word(text)) => text case _ => ""
  }

  lemma UnseenIsUnseen(observation: string, record: string)
    requires record != ""
    ensures IsUnseen(Unseen(observation, record))
  {
  }

  lemma UnseenByName(name: string)
    requires name in UNWITNESSED.on
    ensures UNWITNESSED.on[name] != [] && forall i | 0 <= i < |UNWITNESSED.on[name]| :: IsUnseen(UNWITNESSED.on[name][i])
  {
    UnseenIsUnseen("receipt_missing", "a");
    UnseenIsUnseen("managed_unregistered", "b");
    UnseenIsUnseen("undeclared_turn_end", "c");
    UnseenIsUnseen("undeclared_turn_end", "d");
    hide IsUnseen, Unseen;
  }

  lemma {:induction false} AllUnseen(names: seq<string>)
    ensures var firings := FiringsOf(UNWITNESSED, names);
            && (forall i | 0 <= i < |firings| :: IsUnseen(firings[i]))
            && (names != [] && names[0] in UNWITNESSED.on ==> firings != [])
    decreases |names|
  {
    hide IsUnseen, Unseen, UNWITNESSED;
    if names != [] {
      if names[0] in UNWITNESSED.on { UnseenByName(names[0]); }
      AllUnseen(names[1..]);
    }
  }

  lemma {:induction false} OneEach(firings: seq<Fired>)
    requires forall i | 0 <= i < |firings| :: IsUnseen(firings[i])
    ensures var latencies := Latencies(firings);
            |latencies| == |firings| && forall i | 0 <= i < |latencies| :: latencies[i] == 1
  {
    if firings != [] {
      assert At(firings[0], "processWallMs") == Said(Number(1));
      hide IsUnseen;
      OneEach(firings[1..]);
    }
  }

  lemma {:induction false} InsertOne(into: seq<int>)
    requires forall i | 0 <= i < |into| :: into[i] == 1
    ensures forall i | 0 <= i < |InsertInt(1, into)| :: InsertInt(1, into)[i] == 1
  {
  }

  lemma {:induction false} SortOnes(values: seq<int>)
    requires forall i | 0 <= i < |values| :: values[i] == 1
    ensures forall i | 0 <= i < |values| :: SortInts(values)[i] == 1
  {
    if values != [] {
      SortOnes(values[1..]);
      InsertOne(SortInts(values[1..]));
    }
  }

  lemma AtMostOne(latencies: seq<int>, part: nat, whole: nat)
    requires latencies != [] && 0 < part <= whole
    requires forall i | 0 <= i < |latencies| :: latencies[i] == 1
    ensures Percentile(latencies, part, whole) == 1
  {
    hide Rounded, SortInts;
    SortOnes(latencies);
    RoundedStays(|latencies| - 1, part, whole);
  }

  lemma UnseenIsFast(run: Run)
    requires var firings := FiringsOf(run, SCENARIOS);
             firings != [] && forall i | 0 <= i < |firings| :: IsUnseen(firings[i])
    ensures LatencyMet(run) && !WitnessMet(run)
  {
    hide FiringsOf, SCENARIOS, Latencies, Percentile, IsUnseen;
    var firings := FiringsOf(run, SCENARIOS);
    OneEach(firings);
    AtMostOne(Latencies(firings), 1, 2);
    AtMostOne(Latencies(firings), 95, 100);
    UnseenWritesNothing(firings[0]);
  }

  lemma UnseenWritesNothing(fired: Fired)
    requires IsUnseen(fired)
    ensures fired.writesInside == None
  {
  }

  lemma UnwitnessedLatency()
    ensures LatencyMet(UNWITNESSED) && !WitnessMet(UNWITNESSED)
  {
    assert SCENARIOS[0] == "receipt_missing" && "receipt_missing" in UNWITNESSED.on;
    AllUnseen(SCENARIOS);
    hide UNWITNESSED, SCENARIOS, LatencyMet, WitnessMet, FiringsOf, IsUnseen;
    UnseenIsFast(UNWITNESSED);
  }

  lemma OneName(run: Run, name: string)
    ensures FiringsOf(run, [name]) == Named(run.on, name)
  {
    assert FiringsOf(run, [name][1..]) == [];
  }

  lemma NextName(run: Run, name: string, names: seq<string>)
    ensures FiringsOf(run, [name] + names) == Named(run.on, name) + FiringsOf(run, names)
  {
    assert ([name] + names)[1..] == names;
  }

  lemma UnwitnessedLists()
    ensures var run := UNWITNESSED;
            && FiringsOf(run, STATE_AND_RECEIPT) == FiringsOf(run, ["duplicate"]) == run.on["duplicate"]
            && FiringsOf(run, ["receipt_missing"]) == run.on["receipt_missing"]
            && FiringsOf(run, ["managed_unregistered"]) == run.on["managed_unregistered"]
            && FiringsOf(run, WATCHED) == []
  {
    var run := UNWITNESSED;
    hide FiringsOf, Unseen;
    OneName(run, "receipt_missing");
    OneName(run, "managed_unregistered");
    OneName(run, "duplicate");
    OneName(run, "unmanaged");
    NextName(run, "cxc_concurrent", ["duplicate"]);
    NextName(run, "undeclared_turn_end", ["cxc_concurrent", "duplicate"]);
    NextName(run, "declared_interrupted", ["unmanaged"]);
    NextName(run, "declared_blocked_needs_input", ["declared_interrupted", "unmanaged"]);
    assert STATE_AND_RECEIPT == ["undeclared_turn_end"] + ["cxc_concurrent", "duplicate"];
    assert ["cxc_concurrent"] + ["duplicate"] == ["cxc_concurrent", "duplicate"];
    assert WATCHED == ["declared_blocked_needs_input"] + ["declared_interrupted", "unmanaged"];
    assert ["declared_interrupted"] + ["unmanaged"] == ["declared_interrupted", "unmanaged"];
  }

  lemma UnseenDetects(run: Run, observation: string, names: seq<string>)
    requires var injected := FiringsOf(run, names);
             injected != [] && forall i | 0 <= i < |injected| :: Reports(injected[i], observation)
    ensures DetectionMet(run, observation, names)
  {
    hide FiringsOf;
  }

  lemma UnseenReports(observation: string, record: string)
    ensures Reports(Unseen(observation, record), observation)
  {
  }

  lemma UnwitnessedDetections()
    ensures var run := UNWITNESSED;
            && DetectionMet(run, "undeclared_turn_end", STATE_AND_RECEIPT)
            && DetectionMet(run, "receipt_missing", ["receipt_missing"])
            && DetectionMet(run, "managed_unregistered", ["managed_unregistered"])
            && WrongBlockMet(run)
  {
    UnwitnessedLists();
    UnseenReports("receipt_missing", "a");
    UnseenReports("managed_unregistered", "b");
    UnseenReports("undeclared_turn_end", "c");
    UnseenReports("undeclared_turn_end", "d");
    hide FiringsOf, Unseen, Reports, DetectionMet, STATE_AND_RECEIPT, WATCHED;
    UnseenDetects(UNWITNESSED, "undeclared_turn_end", STATE_AND_RECEIPT);
    UnseenDetects(UNWITNESSED, "receipt_missing", ["receipt_missing"]);
    UnseenDetects(UNWITNESSED, "managed_unregistered", ["managed_unregistered"]);
  }

  lemma UnwitnessedReservation()
    ensures OneReservationMet(UNWITNESSED)
  {
    UnwitnessedLists();
    hide FiringsOf;
  }

  lemma UnwitnessedMeasures()
    ensures MeasuresMet(UNWITNESSED)
  {
    hide LatencyMet, WitnessMet, DetectionMet, WrongBlockMet, UNWITNESSED;
    UnwitnessedLatency();
    UnwitnessedDetections();
  }

  lemma UnwitnessedRest()
    ensures var run := UNWITNESSED;
            && StabilityMet(run) && ArmPasses(run.armOn) && ArmPasses(run.armOff) && ContainmentMet(run) && ForeignMet(run)
            && run.tracer
  {
    hide Unseen;
    assert "source" in SOURCE;
  }

  lemma UnwitnessedRows()
    ensures ScenariosPass(UNWITNESSED)
  {
    forall i | 0 <= i < |SCENARIOS|
      ensures RowsPass(Named(UNWITNESSED.on, SCENARIOS[i]), false) && RowsPass(Named(UNWITNESSED.off, SCENARIOS[i]), true)
    {
      var name := SCENARIOS[i];
      if name in UNWITNESSED.on { UnseenByName(name); }
      assert UNWITNESSED.off == map[];
      hide UNWITNESSED, SCENARIOS;
      forall k | 0 <= k < |Named(UNWITNESSED.on, name)| ensures RowPasses(Named(UNWITNESSED.on, name)[k]) {
        UnseenPasses(Named(UNWITNESSED.on, name)[k]);
      }
    }
  }

  lemma UnseenPasses(fired: Fired)
    requires IsUnseen(fired)
    ensures RowPasses(fired)
  {
  }

  /** So it happens: everything in this run but the witness is met, its document fails, and without the
      tracer it passes. */
  lemma TheWitnessAloneFails()
    ensures !Passes(DocumentOf(UNWITNESSED)) && Passes(DocumentOf(UNWITNESSED.(tracer := false)))
  {
    hide *;
    UnwitnessedRest();
    UnwitnessedLatency();
    UnwitnessedMeasures();
    UnwitnessedReservation();
    UnwitnessedRows();
    AllButTheWitness(UNWITNESSED);
  }

  lemma AllButTheWitness(run: Run)
    requires StabilityMet(run) && ArmPasses(run.armOn) && ArmPasses(run.armOff) && ContainmentMet(run) && ForeignMet(run)
    requires ScenariosPass(run) && MeasuresMet(run) && OneReservationMet(run) && run.tracer && !WitnessMet(run)
    ensures !Passes(DocumentOf(run)) && Passes(DocumentOf(run.(tracer := false)))
  {
    hide Passes, DocumentOf, StabilityMet, ArmPasses, ContainmentMet, ForeignMet, ScenariosPass, MeasuresMet,
         OneReservationMet, WitnessMet;
    SameBesides(run);
    PassesExactly(run);
    PassesExactly(run.(tracer := false));
  }
}
