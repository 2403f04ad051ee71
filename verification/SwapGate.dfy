/** Whether a runtime may be replaced: three cells, each answered by its own reading, and a verdict
    that a missing reading never makes favourable. */
module SwapGate {
  import opened Wrappers
  import opened SqlText

  // ------------------------------------------------------------ what a reading carries

  /** A parsed JSON value. */
  datatype Json = Null | Bool(flag: bool) | Int(number: int) | Real(amount: real) | Str(text: string)
                | List(items: seq<Json>) | Object(fields: map<string, Json>)

  /** What `if value` decides. */
  predicate Truthy(value: Json) {
    match value
    case Null => false
    case Bool(flag) => flag
    case Int(number) => number != 0
    case Real(amount) => amount != 0.0
    case Str(text) => text != ""
    case List(items) => items != []
    case Object(fields) => fields != map[]
  }

  /** A field, and null where it is absent. */
  function Field(fields: map<string, Json>, name: string): Json {
    if name in fields then fields[name] else Null
  }

  /** One relay command: whether it succeeded, and the payload it printed. */
  datatype Envelope = Envelope(ok: bool, payload: Json)

  /** A schema or presence reading: whether it could be taken, whether a store is there, and the
      objects it lists. */
  datatype Looked = Looked(readable: Json, present: Json, tables: Json)

  datatype Answer = Running | Stopped | AccessError | Unreadable | Attempts(count: int)
                  | Agrees | Extends | Narrows | Differs | NoStore

  datatype Cell = Cell(answer: Answer, readable: bool)

  /** A reading that raises leaves no cell and no verdict at all. */
  type Taken = Option<Cell>

  // ------------------------------------------------------------ the three cells

  function DaemonCell(service: Option<Envelope>): Cell {
    if service == None || !service.value.ok then Cell(AccessError, false)
    else
      match service.value.payload
      case Object(fields) =>
        (match Field(fields, "running")
         case Bool(running) => Cell(if running then Running else Stopped, true)
         case _ => Cell(Unreadable, false))
      case _ => Cell(Unreadable, false)
  }

  /** The fields of the payload's contents when both are objects; None where asking them raises. */
  function ContentsOf(payload: Json): Option<map<string, Json>> {
    if !Truthy(payload) then Some(map[])
    else if !payload.Object? then None
    else
      var contents := Field(payload.fields, "contents");
      if !Truthy(contents) then Some(map[])
      else if contents.Object? then Some(contents.fields) else None
  }

  function CountedCell(doctor: Option<Envelope>): Cell {
    if doctor == None || !doctor.value.ok then Cell(AccessError, false)
    else
      match doctor.value.payload
      case Object(fields) =>
        (match Field(fields, "contents")
         case Object(contents) =>
           if !Truthy(Field(contents, "available")) then Cell(Unreadable, false)
           else
             (match Field(contents, "openAttempts")
              case Int(number) => Cell(Attempts(number), true)
              case _ => Cell(Unreadable, false))
         case _ => Cell(Unreadable, false))
      case _ => Cell(Unreadable, false)
  }

  function InFlightCell(doctor: Option<Envelope>, presence: Option<Looked>): Taken {
    if presence == None then Some(CountedCell(doctor))
    else if !Truthy(presence.value.readable) then Some(Cell(AccessError, false))
    else if presence.value.present == Bool(false) then
      var payload := match doctor case Some(envelope) => envelope.payload case None => Null;
      match ContentsOf(payload)
      case None => None
      case Some(contents) =>
        if Truthy(Field(contents, "available")) then Some(Cell(Unreadable, false))
        else Some(Cell(Attempts(0), true))
    else Some(CountedCell(doctor))
  }

  /** A statement as it is compared: nothing where there is none. `shown` is how a value that is not
      text is written out. */
  function Compared(value: Json, shown: Json -> string): Option<string> {
    match value
    case Null => None
    case Str(text) => Some(Normalised(text))
    case _ => Some(Normalised(shown(value)))
  }

  function Statement(value: Json, shown: Json -> string): Option<string> {
    match value
    case Null => None
    case Str(text) => Some(text)
    case _ => Some(shown(value))
  }

  function SchemaAnswer(held: map<string, Json>, candidate: map<string, Json>, shown: Json -> string): Answer {
    if held.Keys - candidate.Keys != {} then Narrows
    else if (set name | name in held.Keys * candidate.Keys
                        && Compared(held[name], shown) != Compared(candidate[name], shown)) != {} then Differs
    else if candidate.Keys - held.Keys != {} then Extends
    else Agrees
  }

  function TablesCell(store: Option<Looked>, candidate: Option<Looked>, shown: Json -> string): Cell {
    if store == None || candidate == None then Cell(Unreadable, false)
    else if !Truthy(candidate.value.readable) || !Truthy(store.value.readable) then Cell(Unreadable, false)
    else if !candidate.value.tables.Object? then Cell(Unreadable, false)
    else if store.value.present == Bool(false) then Cell(NoStore, true)
    else if !store.value.tables.Object? then Cell(Unreadable, false)
    else Cell(SchemaAnswer(store.value.tables.fields, candidate.value.tables.fields, shown), true)
  }

  // ------------------------------------------------------------ the verdict

  datatype Verdict = Allowed | Blocked | Unestablished

  const DAEMON := "daemon"
  const IN_FLIGHT := "inFlight"
  const STORE_TABLES := "storeTables"
  const GATE_CELLS: seq<string> := [DAEMON, IN_FLIGHT, STORE_TABLES]

  predicate Blocks(name: string, answer: Answer) {
    if name == DAEMON then answer == Running
    else if name == IN_FLIGHT then answer != Attempts(0)
    else answer in {Narrows, Extends, Differs}
  }

  function CellNamed(cells: map<string, Cell>, name: string): Cell {
    if name in cells then cells[name] else Cell(AccessError, false)
  }

  predicate Refuses(cells: map<string, Cell>, name: string) {
    CellNamed(cells, name).readable && Blocks(name, CellNamed(cells, name).answer)
  }

  function Decide(cells: map<string, Cell>): Verdict {
    if exists name :: name in GATE_CELLS && Refuses(cells, name) then Blocked
    else if exists name :: name in GATE_CELLS && !CellNamed(cells, name).readable then Unestablished
    else Allowed
  }

  /** One pass over the declared cells, collecting what refuses and what could not be read. */
  method ReachVerdict(cells: map<string, Cell>) returns (verdict: Verdict, blockers: seq<string>, unread: seq<string>)
    ensures verdict == Decide(cells)
    ensures forall name :: name in blockers <==> name in GATE_CELLS && Refuses(cells, name)
    ensures forall name :: name in unread <==> name in GATE_CELLS && !CellNamed(cells, name).readable
  {
    blockers, unread := [], [];
    var i := 0;
    while i < |GATE_CELLS|
      invariant 0 <= i <= |GATE_CELLS|
      invariant forall name :: name in blockers <==> name in GATE_CELLS[..i] && Refuses(cells, name)
      invariant forall name :: name in unread <==> name in GATE_CELLS[..i] && !CellNamed(cells, name).readable
    {
      var name := GATE_CELLS[i];
      var cell := CellNamed(cells, name);
      if !cell.readable {
        unread := unread + [name];
      } else if Blocks(name, cell.answer) {
        blockers := blockers + [name];
      }
      i := i + 1;
    }
    assert GATE_CELLS[..i] == GATE_CELLS;
    if blockers != [] {
      assert blockers[0] in blockers;
      verdict := Blocked;
    } else if unread != [] {
      assert unread[0] in unread;
      verdict := Unestablished;
    } else {
      verdict := Allowed;
    }
  }

  // ------------------------------------------------------------ what an answer rests on

  /** The same statement: none on either side, or the same quoted segments and words. */
  predicate SameStatement(a: Option<string>, b: Option<string>) {
    match (a, b)
    case (None, None) => true
    case (Some(x), Some(y)) => Pieces(x) == Pieces(y)
    case _ => false
  }

  lemma ComparedAsStatements(a: Json, b: Json, shown: Json -> string)
    ensures Compared(a, shown) == Compared(b, shown) <==> SameStatement(Statement(a, shown), Statement(b, shown))
  {
    var x, y := Statement(a, shown), Statement(b, shown);
    if x.Some? && y.Some? { ComparesPieces(x.value, y.value); }
  }

  /** Every object on both sides, each defined by the same pieces. */
  ghost predicate SameSchema(held: map<string, Json>, candidate: map<string, Json>, shown: Json -> string) {
    && held.Keys == candidate.Keys
    && forall name | name in held :: SameStatement(Statement(held[name], shown), Statement(candidate[name], shown))
  }

  lemma AgreesExactlyWhen(held: map<string, Json>, candidate: map<string, Json>, shown: Json -> string)
    ensures SchemaAnswer(held, candidate, shown) == Agrees <==> SameSchema(held, candidate, shown)
    ensures SchemaAnswer(held, candidate, shown) == Narrows <==> !(held.Keys <= candidate.Keys)
  {
    var changed := set name | name in held.Keys * candidate.Keys
                              && Compared(held[name], shown) != Compared(candidate[name], shown);
    forall name | name in held.Keys * candidate.Keys
      ensures name in changed <==> !SameStatement(Statement(held[name], shown), Statement(candidate[name], shown))
    {
      ComparedAsStatements(held[name], candidate[name], shown);
    }
    if SameSchema(held, candidate, shown) {
      assert held.Keys - candidate.Keys == {} && candidate.Keys - held.Keys == {};
      assert changed == {};
    } else if held.Keys == candidate.Keys {
      var name :| name in held && !SameStatement(Statement(held[name], shown), Statement(candidate[name], shown));
      assert name in changed;
    } else if !(held.Keys <= candidate.Keys) {
      var name :| name in held && name !in candidate;
      assert name in held.Keys - candidate.Keys;
    } else {
      var name :| name in candidate && name !in held;
      assert name in candidate.Keys - held.Keys;
    }
  }

  /** What the other two answers say: that some object both sides have is defined differently, and that the
      candidate only adds. Which answer is given where several would do is the order of these. */
  lemma ChangesExactlyWhen(held: map<string, Json>, candidate: map<string, Json>, shown: Json -> string)
    ensures SchemaAnswer(held, candidate, shown) == Differs
            <==> && (forall name | name in held :: name in candidate)
                 && exists name :: name in held && name in candidate
                      && !SameStatement(Statement(held[name], shown), Statement(candidate[name], shown))
    ensures SchemaAnswer(held, candidate, shown) == Extends
            <==> && (forall name | name in held :: name in candidate
                       && SameStatement(Statement(held[name], shown), Statement(candidate[name], shown)))
                 && exists name :: name in candidate && name !in held
  {
    var changed := set name | name in held.Keys * candidate.Keys
                              && Compared(held[name], shown) != Compared(candidate[name], shown);
    forall name | name in held.Keys * candidate.Keys
      ensures name in changed <==> !SameStatement(Statement(held[name], shown), Statement(candidate[name], shown))
    {
      ComparedAsStatements(held[name], candidate[name], shown);
    }
    hide Compared, Statement, SameStatement;
    if name :| name in held && name !in candidate { assert name in held.Keys - candidate.Keys; }
    if name :| name in candidate && name !in held { assert name in candidate.Keys - held.Keys; }
    if name :| name in held && name in candidate && name in changed { assert changed != {}; }
  }

  // ------------------------------------------------------------ the gate

  /** The readings the gate is asked with. */
  datatype Readings = Readings(service: Option<Envelope>, doctor: Option<Envelope>, presence: Option<Looked>,
                               store: Option<Looked>, candidate: Option<Looked>)

  function Gate(readings: Readings, shown: Json -> string): Option<Verdict> {
    match InFlightCell(readings.doctor, readings.presence)
    case None => None
    case Some(inFlight) =>
      Some(Decide(map[DAEMON := DaemonCell(readings.service), IN_FLIGHT := inFlight,
                      STORE_TABLES := TablesCell(readings.store, readings.candidate, shown)]))
  }

  /** The object a successful command printed. */
  function Printed(envelope: Option<Envelope>): Option<map<string, Json>> {
    if envelope.Some? && envelope.value.ok && envelope.value.payload.Object?
    then Some(envelope.value.payload.fields) else None
  }

  predicate NotRunning(readings: Readings) {
    var printed := Printed(readings.service);
    printed.Some? && Field(printed.value, "running") == Bool(false)
  }

  predicate SaysAbsent(looked: Looked) {
    Truthy(looked.readable) && looked.present == Bool(false)
  }

  /** The relay printed readable contents with no open attempt. */
  predicate CountsNone(readings: Readings) {
    var printed := Printed(readings.doctor);
    printed.Some? && Field(printed.value, "contents").Object?
    && var contents := Field(printed.value, "contents").fields;
       Truthy(Field(contents, "available")) && Field(contents, "openAttempts") == Int(0)
  }

  /** The path was looked at and nothing is there, and the relay does not say otherwise; or it was
      not looked at or something is there, and the relay counted none. */
  predicate NothingOpen(readings: Readings) {
    if readings.presence.Some? && SaysAbsent(readings.presence.value) then
      var contents := ContentsOf(match readings.doctor case Some(envelope) => envelope.payload case None => Null);
      contents.Some? && !Truthy(Field(contents.value, "available"))
    else
      (readings.presence.Some? ==> Truthy(readings.presence.value.readable)) && CountsNone(readings)
  }

  ghost predicate SchemaKept(readings: Readings, shown: Json -> string) {
    && readings.store.Some? && readings.candidate.Some?
    && Truthy(readings.candidate.value.readable) && Truthy(readings.store.value.readable)
    && readings.candidate.value.tables.Object?
    && (readings.store.value.present == Bool(false)
        || (readings.store.value.tables.Object?
            && SameSchema(readings.store.value.tables.fields, readings.candidate.value.tables.fields, shown)))
  }

  lemma DaemonAllows(readings: Readings)
    ensures var cell := DaemonCell(readings.service);
            cell.readable && !Blocks(DAEMON, cell.answer) <==> NotRunning(readings)
  {
  }

  lemma InFlightAllows(readings: Readings)
    ensures var cell := InFlightCell(readings.doctor, readings.presence);
            cell.Some? && cell.value.readable && !Blocks(IN_FLIGHT, cell.value.answer) <==> NothingOpen(readings)
  {
    assert IN_FLIGHT != DAEMON;
  }

  lemma TablesAllow(readings: Readings, shown: Json -> string)
    ensures var cell := TablesCell(readings.store, readings.candidate, shown);
            cell.readable && !Blocks(STORE_TABLES, cell.answer) <==> SchemaKept(readings, shown)
  {
    assert STORE_TABLES != DAEMON && STORE_TABLES != IN_FLIGHT;
    if readings.store.Some? && readings.candidate.Some?
       && readings.store.value.tables.Object? && readings.candidate.value.tables.Object? {
      AgreesExactlyWhen(readings.store.value.tables.fields, readings.candidate.value.tables.fields, shown);
    }
  }

  lemma DecideAllows(daemon: Cell, inFlight: Cell, tables: Cell)
    ensures Decide(map[DAEMON := daemon, IN_FLIGHT := inFlight, STORE_TABLES := tables]) == Allowed
            <==> && daemon.readable && !Blocks(DAEMON, daemon.answer)
                 && inFlight.readable && !Blocks(IN_FLIGHT, inFlight.answer)
                 && tables.readable && !Blocks(STORE_TABLES, tables.answer)
  {
    var cells := map[DAEMON := daemon, IN_FLIGHT := inFlight, STORE_TABLES := tables];
    assert DAEMON != IN_FLIGHT && DAEMON != STORE_TABLES && IN_FLIGHT != STORE_TABLES;
    assert GATE_CELLS[0] == DAEMON && GATE_CELLS[1] == IN_FLIGHT && GATE_CELLS[2] == STORE_TABLES;
    assert CellNamed(cells, DAEMON) == daemon && CellNamed(cells, IN_FLIGHT) == inFlight
           && CellNamed(cells, STORE_TABLES) == tables;
    hide Blocks, CellNamed;
    assert DAEMON in GATE_CELLS && IN_FLIGHT in GATE_CELLS && STORE_TABLES in GATE_CELLS;
    assert Refuses(cells, DAEMON) <==> daemon.readable && Blocks(DAEMON, daemon.answer);
    assert Refuses(cells, IN_FLIGHT) <==> inFlight.readable && Blocks(IN_FLIGHT, inFlight.answer);
    assert Refuses(cells, STORE_TABLES) <==> tables.readable && Blocks(STORE_TABLES, tables.answer);
    assert forall name :: name in GATE_CELLS ==> name == DAEMON || name == IN_FLIGHT || name == STORE_TABLES;
  }

  /** The gate opens exactly on three answers that were given: not running, nothing open, and the
      same schema or no store. */
  lemma AllowedExactlyWhen(readings: Readings, shown: Json -> string)
    ensures Gate(readings, shown) == Some(Allowed)
            <==> NotRunning(readings) && NothingOpen(readings) && SchemaKept(readings, shown)
  {
    hide *;
    DaemonAllows(readings);
    InFlightAllows(readings);
    TablesAllow(readings, shown);
    var inFlight := InFlightCell(readings.doctor, readings.presence);
    GateDecides(readings, shown);
    if inFlight.Some? {
      DecideAllows(DaemonCell(readings.service), inFlight.value,
                   TablesCell(readings.store, readings.candidate, shown));
    }
  }

  lemma GateDecides(readings: Readings, shown: Json -> string)
    ensures var inFlight := InFlightCell(readings.doctor, readings.presence);
            Gate(readings, shown) == if inFlight == None then None
              else Some(Decide(map[DAEMON := DaemonCell(readings.service), IN_FLIGHT := inFlight.value,
                                   STORE_TABLES := TablesCell(readings.store, readings.candidate, shown)]))
  {
  }

  /** Two statements that differ only inside a segment quoted in any of the four ways are no agreement, and
      with such a pair in a store that is there the gate stays shut whatever else was read. */
  lemma QuotedChangeKeepsItShut(readings: Readings, shown: Json -> string, name: string, before: string, start: char,
                                a: string, b: string, close: char, after: string)
    requires readings.store.Some? && readings.candidate.Some?
    requires readings.store.value.tables.Object? && readings.candidate.value.tables.Object?
    requires name in readings.store.value.tables.fields && name in readings.candidate.value.tables.fields
    requires readings.store.value.tables.fields[name] == Str(before + ([start] + a + [close]) + after)
    requires readings.candidate.value.tables.fields[name] == Str(before + ([start] + b + [close]) + after)
    requires Awaited(before, None) == None && Delimits(start, close) && close !in a && close !in b && a != b
    ensures SchemaAnswer(readings.store.value.tables.fields, readings.candidate.value.tables.fields, shown)
            in {Differs, Narrows}
    ensures readings.store.value.present != Bool(false) ==> Gate(readings, shown) != Some(Allowed)
  {
    hide *;
    QuotedTextIsCompared(before, start, a, b, close, after);
    DifferingStatements(readings.store.value.tables.fields, readings.candidate.value.tables.fields, shown, name,
                        before + ([start] + a + [close]) + after, before + ([start] + b + [close]) + after);
    AllowedExactlyWhen(readings, shown);
    if SchemaKept(readings, shown) && readings.store.value.present != Bool(false) {
      KeptSchemaAgrees(readings, shown);
    }
  }

  lemma DifferingStatements(held: map<string, Json>, candidate: map<string, Json>, shown: Json -> string,
                            name: string, x: string, y: string)
    requires name in held && name in candidate && held[name] == Str(x) && candidate[name] == Str(y)
    requires Normalised(x) != Normalised(y)
    ensures SchemaAnswer(held, candidate, shown) in {Differs, Narrows}
  {
    hide Normalised;
    var changed := set other | other in held.Keys * candidate.Keys
                               && Compared(held[other], shown) != Compared(candidate[other], shown);
    assert name in changed;
  }

  lemma KeptSchemaAgrees(readings: Readings, shown: Json -> string)
    requires SchemaKept(readings, shown)
    requires readings.store.Some? && readings.store.value.tables.Object? && readings.store.value.present != Bool(false)
    ensures readings.candidate.Some? && readings.candidate.value.tables.Object?
            && SchemaAnswer(readings.store.value.tables.fields, readings.candidate.value.tables.fields, shown) == Agrees
  {
    hide SchemaAnswer, SameSchema;
    AgreesExactlyWhen(readings.store.value.tables.fields, readings.candidate.value.tables.fields, shown);
  }

  /** A cell that could not be read, or was not read at all, never opens the gate, and never turns a
      refusal into anything else. */
  lemma UnreadNeverHelps(cells: map<string, Cell>, name: string, answer: Answer)
    requires name in GATE_CELLS
    ensures var unread := cells[name := Cell(answer, false)];
            && Decide(unread) != Allowed && Decide(cells - {name}) != Allowed
            && Decide(unread) == Decide(cells - {name})
            && (Decide(unread) == Blocked <==>
                  exists other :: other in GATE_CELLS && other != name && Refuses(cells, other))
  {
    var unread, gone := cells[name := Cell(answer, false)], cells - {name};
    assert !CellNamed(unread, name).readable && !CellNamed(gone, name).readable;
    forall other | other in GATE_CELLS
      ensures Refuses(unread, other) <==> other != name && Refuses(cells, other)
      ensures Refuses(gone, other) <==> other != name && Refuses(cells, other)
    {
    }
  }
}
