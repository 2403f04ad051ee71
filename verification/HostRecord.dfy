/** The private host record: what is installed, what is selected, and who placed the pointer.
    Every write goes through one set of narrow deltas applied to the record as it stands. */
module HostRecord {
  import opened Wrappers
  import opened Paths
  import Chars

  /** A value found under a key of the ownership entry. Path texts are kept as the path they
      spell; anything that is not text at all is NotText. */
  datatype Value = Named(path: Path) | Text(words: string) | NotText

  type Entry = map<string, Value>

  const PATH := "path"
  const RECORDED_AT := "recordedAt"
  const RECORDED_BY := "recordedBy"
  const PLACEMENT: set<string> := {RECORDED_AT, RECORDED_BY}

  datatype Install = Install(location: Path, environment: Path)
  datatype Point = Point(evidence: string)
  datatype Component = Component(installs: seq<Install>, points: seq<Point>)

  datatype Record = Record(
    selected: map<string, Path>,
    components: map<string, Component>,
    pointer: Option<Entry>)

  const EMPTY := Record(map[], map[], None)

  // ------------------------------------------------------------ what an ownership entry says

  /** A value a record actually states: text with something in it. */
  predicate Stated(value: Value) {
    value.Named? || (value.Text? && !Chars.Blank(value.words))
  }

  predicate StatedAt(entry: Entry, key: string) {
    key in entry && Stated(entry[key])
  }

  /** Whether the record says that a link this command placed is at the pointer path. */
  predicate PlacementRecorded(entry: Option<Entry>) {
    && entry.Some?
    && StatedAt(entry.value, PATH)
    && forall key | key in PLACEMENT :: StatedAt(entry.value, key)
  }

  function WithoutPlacement(entry: Entry): Entry {
    entry - PLACEMENT
  }

  predicate IsAbout(entry: Entry, path: Path) {
    PATH in entry && entry[PATH] == Named(path)
  }

  /** The ownership entry, and only when it is about this path. */
  function PointerEntryFor(entry: Option<Entry>, path: Path): Option<Entry> {
    if entry.Some? && IsAbout(entry.value, path) then entry else None
  }

  // ------------------------------------------------------------ the deltas

  datatype Restore = Restore(wrote: Path, found: Entry)

  datatype Delta = Delta(
    installs: seq<(string, Install)>,
    points: seq<(string, Point)>,
    dropEnvironment: Option<Path>,
    pointer: Entry,
    select: map<string, Path>,
    deselect: map<string, Path>,
    dropPointer: Option<Path>,
    restorePointer: Option<Restore>)

  const NOTHING := Delta([], [], None, map[], map[], map[], None, None)

  function ComponentOf(record: Record, name: string): Component {
    if name in record.components then record.components[name] else Component([], [])
  }

  function Elsewhere(installs: seq<Install>, location: Path): (rest: seq<Install>)
    ensures forall i :: i in rest <==> i in installs && i.location != location
  {
    if installs == [] then []
    else if installs[0].location == location then Elsewhere(installs[1..], location)
    else [installs[0]] + Elsewhere(installs[1..], location)
  }

  function Outside(installs: seq<Install>, environment: Path): (rest: seq<Install>)
    ensures forall i :: i in rest <==> i in installs && i.environment != environment
  {
    if installs == [] then []
    else if installs[0].environment == environment then Outside(installs[1..], environment)
    else [installs[0]] + Outside(installs[1..], environment)
  }

  /** One location, one current reading: the entry for this location is replaced. */
  function PutInstall(record: Record, name: string, install: Install): Record {
    var was := ComponentOf(record, name);
    var now := was.(installs := Elsewhere(was.installs, install.location) + [install]);
    record.(components := record.components[name := now])
  }

  function PutInstalls(record: Record, installs: seq<(string, Install)>): Record
    decreases |installs|
  {
    if installs == [] then record
    else PutInstalls(PutInstall(record, installs[0].0, installs[0].1), installs[1..])
  }

  /** A point is appended and never replaced. */
  function AddPoint(record: Record, name: string, point: Point): Record {
    var was := ComponentOf(record, name);
    record.(components := record.components[name := was.(points := was.points + [point])])
  }

  function AddPoints(record: Record, points: seq<(string, Point)>): Record
    decreases |points|
  {
    if points == [] then record
    else AddPoints(AddPoint(record, points[0].0, points[0].1), points[1..])
  }

  function DropEnvironment(record: Record, environment: Path): Record {
    record.(components := map name | name in record.components ::
      record.components[name].(installs := Outside(record.components[name].installs, environment)))
  }

  /** The entries still naming what this run wrote are taken away; others stay. */
  function Deselected(selected: map<string, Path>, gone: map<string, Path>): map<string, Path> {
    map name | name in selected && !(name in gone && gone[name] == selected[name]) :: selected[name]
  }

  function DropPointer(entry: Option<Entry>, path: Path): Option<Entry> {
    if PointerEntryFor(entry, path).Some? then None else entry
  }

  function RestoredPointer(entry: Option<Entry>, restore: Restore): Option<Entry> {
    if PointerEntryFor(entry, restore.wrote).Some? then Some(restore.found) else entry
  }

  /** Every delta, in the order the single writer applies them. */
  function Updated(record: Record, delta: Delta): Record {
    var installed := AddPoints(PutInstalls(record, delta.installs), delta.points);
    var kept := if delta.dropEnvironment.Some?
                then DropEnvironment(installed, delta.dropEnvironment.value) else installed;
    var stamped := if delta.pointer == map[] then kept.pointer
                   else Some(kept.pointer.GetOr(map[]) + delta.pointer);
    var selected := Deselected(kept.selected + delta.select, delta.deselect);
    var dropped := if delta.dropPointer.Some? then DropPointer(stamped, delta.dropPointer.value)
                   else stamped;
    var restored := if delta.restorePointer.Some?
                    then RestoredPointer(dropped, delta.restorePointer.value) else dropped;
    kept.(selected := selected, pointer := restored)
  }

  // ------------------------------------------------------------ questions asked of the record

  /** Whether some selected location lies inside this environment. */
  predicate SelectsInside(record: Record, environment: Path) {
    exists name :: name in record.selected && Within(record.selected[name], environment)
  }

  predicate HoldsInstall(component: Component, target: Path) {
    exists i :: i in component.installs && (i.environment == target || i.location == target)
  }

  /** Whether a link target equals an environment or a location some component records. */
  predicate TargetIsRecorded(components: seq<string>, record: Record, target: Path) {
    exists name :: name in components && name in record.components
                   && HoldsInstall(record.components[name], target)
  }

  /** Whether every component is selected and every selection lies inside this environment. */
  predicate NamesEnvironment(components: seq<string>, record: Record, environment: Path) {
    forall name | name in components ::
      name in record.selected && Within(record.selected[name], environment)
  }

  // ------------------------------------------------------------ what the deltas keep

  /** Installing never disturbs an install at any other location, nor any selection or entry. */
  lemma {:induction false} PutInstallsKeep(record: Record, installs: seq<(string, Install)>,
                                           name: string, kept: Install)
    requires name in record.components && kept in record.components[name].installs
    requires forall k | 0 <= k < |installs| ::
               installs[k].0 != name || installs[k].1.location != kept.location
    ensures var after := PutInstalls(record, installs);
            && name in after.components && kept in after.components[name].installs
    decreases |installs|
  {
    if installs != [] {
      var first := PutInstall(record, installs[0].0, installs[0].1);
      assert kept in first.components[name].installs;
      PutInstallsKeep(first, installs[1..], name, kept);
    }
  }

  lemma {:induction false} PutInstallsFrame(record: Record, installs: seq<(string, Install)>)
    ensures var after := PutInstalls(record, installs);
            && after.selected == record.selected && after.pointer == record.pointer
            && record.components.Keys <= after.components.Keys
            && forall name | name in record.components ::
                 after.components[name].points == record.components[name].points
    decreases |installs|
  {
    if installs != [] {
      PutInstallsFrame(PutInstall(record, installs[0].0, installs[0].1), installs[1..]);
    }
  }

  /** The last install of a batch is recorded as it was given. */
  lemma {:induction false} PutInstallsRecord(record: Record, installs: seq<(string, Install)>, k: nat)
    requires k < |installs|
    requires forall j | k < j < |installs| ::
               installs[j].0 != installs[k].0 || installs[j].1.location != installs[k].1.location
    ensures var after := PutInstalls(record, installs);
            && installs[k].0 in after.components
            && installs[k].1 in after.components[installs[k].0].installs
    decreases |installs|
  {
    var first := PutInstall(record, installs[0].0, installs[0].1);
    if k == 0 {
      PutInstallsKeep(first, installs[1..], installs[0].0, installs[0].1);
    } else {
      assert installs[1..][k - 1] == installs[k];
      PutInstallsRecord(first, installs[1..], k - 1);
    }
  }

  /** Appending points keeps every install, every earlier point, the selection and the entry. */
  lemma {:induction false} AddPointsFrame(record: Record, points: seq<(string, Point)>)
    ensures var after := AddPoints(record, points);
            && after.selected == record.selected && after.pointer == record.pointer
            && record.components.Keys <= after.components.Keys
            && forall name | name in record.components ::
                 && after.components[name].installs == record.components[name].installs
                 && record.components[name].points <= after.components[name].points
    decreases |points|
  {
    if points != [] {
      AddPointsFrame(AddPoint(record, points[0].0, points[0].1), points[1..]);
    }
  }

  /** No later install of the batch goes to the same location of the same component. */
  predicate LastAt(installs: seq<(string, Install)>, k: nat)
    requires k < |installs|
  {
    forall j | k < j < |installs| ::
      installs[j].0 != installs[k].0 || installs[j].1.location != installs[k].1.location
  }

  predicate Untouched(installs: seq<(string, Install)>, name: string, location: Path) {
    forall k | 0 <= k < |installs| :: installs[k].0 != name || installs[k].1.location != location
  }

  predicate Given(installs: seq<(string, Install)>, name: string, install: Install) {
    exists k :: 0 <= k < |installs| && installs[k] == (name, install) && LastAt(installs, k)
  }

  /** What a batch leaves recorded: of each location the last install the batch gave it, and where the
      batch gave it none, what was there. An older install at the same location is gone. */
  lemma {:induction false} PutInstallsExactly(record: Record, installs: seq<(string, Install)>, name: string,
                                              install: Install)
    ensures install in ComponentOf(PutInstalls(record, installs), name).installs
            <==> Given(installs, name, install)
                 || (install in ComponentOf(record, name).installs && Untouched(installs, name, install.location))
    decreases |installs|
  {
    if installs != [] {
      var rest := installs[1..];
      var first := PutInstall(record, installs[0].0, installs[0].1);
      PutInstallsExactly(first, rest, name, install);
      assert install in ComponentOf(first, name).installs
             <==> (installs[0] == (name, install))
                  || (install in ComponentOf(record, name).installs
                      && (installs[0].0 != name || installs[0].1.location != install.location));
      hide PutInstall, PutInstalls, ComponentOf;
      GivenFirst(installs, name, install);
    }
  }

  lemma GivenFirst(installs: seq<(string, Install)>, name: string, install: Install)
    requires installs != []
    ensures var rest := installs[1..];
            && (Untouched(installs, name, install.location)
                <==> Untouched(rest, name, install.location)
                     && (installs[0].0 != name || installs[0].1.location != install.location))
            && (Given(installs, name, install)
                <==> Given(rest, name, install)
                     || (installs[0] == (name, install) && Untouched(rest, name, install.location)))
  {
    var rest := installs[1..];
    assert forall k | 1 <= k < |installs| :: installs[k] == rest[k - 1];
    assert forall k | 0 <= k < |rest| :: rest[k] == installs[k + 1];
    forall k | 0 <= k < |rest| ensures LastAt(rest, k) == LastAt(installs, k + 1) {
    }
    if Given(installs, name, install) {
      var k :| 0 <= k < |installs| && installs[k] == (name, install) && LastAt(installs, k);
      if k > 0 { assert rest[k - 1] == (name, install) && LastAt(rest, k - 1); }
    }
    if Given(rest, name, install) {
      var k :| 0 <= k < |rest| && rest[k] == (name, install) && LastAt(rest, k);
      assert installs[k + 1] == (name, install) && LastAt(installs, k + 1);
    }
    if installs[0] == (name, install) && Untouched(rest, name, install.location) {
      assert LastAt(installs, 0);
    }
  }

  /** The points of a batch for one component, as they come. */
  function PointsFor(points: seq<(string, Point)>, name: string): seq<Point> {
    if points == [] then []
    else (if points[0].0 == name then [points[0].1] else []) + PointsFor(points[1..], name)
  }

  /** After a batch every component has the points it had and then the batch's for it, in their order. */
  lemma {:induction false} AddPointsExactly(record: Record, points: seq<(string, Point)>, name: string)
    ensures ComponentOf(AddPoints(record, points), name).points
            == ComponentOf(record, name).points + PointsFor(points, name)
    decreases |points|
  {
    if points != [] {
      AddPointsExactly(AddPoint(record, points[0].0, points[0].1), points[1..], name);
    }
  }

  /** What counts as evidence that a link was placed: a path, a time and an author, each of them text
      with a character in it that is not blank. */
  lemma PlacementExactlyWhen(entry: Entry)
    ensures PlacementRecorded(Some(entry))
            <==> && "path" in entry && "recordedAt" in entry && "recordedBy" in entry
                 && Says(entry["path"]) && Says(entry["recordedAt"]) && Says(entry["recordedBy"])
    ensures !PlacementRecorded(None)
  {
    if PlacementRecorded(Some(entry)) {
      assert "recordedAt" in PLACEMENT && "recordedBy" in PLACEMENT;
    }
  }

  predicate Says(value: Value) {
    value.Named? || (value.Text? && exists i :: 0 <= i < |value.words| && !Chars.IsSpace(value.words[i]))
  }

  /** Withdrawing the evidence takes those two keys and no other. */
  lemma WithoutPlacementExactly(entry: Entry, key: string)
    ensures key in WithoutPlacement(entry) <==> key in entry && key != "recordedAt" && key != "recordedBy"
    ensures key in WithoutPlacement(entry) ==> WithoutPlacement(entry)[key] == entry[key]
  {
  }

  // ------------------------------------------------------------ what each narrow write does

  lemma WritesInstalls(record: Record, installs: seq<(string, Install)>)
    ensures Updated(record, NOTHING.(installs := installs)) == PutInstalls(record, installs)
  {
    var after := PutInstalls(record, installs);
    assert Deselected(after.selected + map[], map[]) == after.selected;
  }

  lemma WritesPoints(record: Record, points: seq<(string, Point)>)
    ensures Updated(record, NOTHING.(points := points)) == AddPoints(record, points)
  {
    var after := AddPoints(record, points);
    assert Deselected(after.selected + map[], map[]) == after.selected;
  }

  lemma WritesDrop(record: Record, environment: Path)
    ensures Updated(record, NOTHING.(dropEnvironment := Some(environment)))
            == DropEnvironment(record, environment)
  {
    assert Deselected(record.selected + map[], map[]) == record.selected;
  }

  /** A commit: the selection is overlaid and the entry is merged, key by key. */
  lemma WritesCommit(record: Record, select: map<string, Path>, pointer: Entry)
    requires pointer != map[]
    ensures Updated(record, NOTHING.(select := select, pointer := pointer))
            == record.(selected := record.selected + select,
                       pointer := Some(record.pointer.GetOr(map[]) + pointer))
  {
    assert Deselected(record.selected + select, map[]) == record.selected + select;
  }

  lemma WritesSelection(record: Record, select: map<string, Path>, deselect: map<string, Path>)
    ensures Updated(record, NOTHING.(select := select, deselect := deselect))
            == record.(selected := Deselected(record.selected + select, deselect))
  {
  }

  /** Both entry deltas compare the path this run wrote and nothing else. */
  lemma WritesEntry(record: Record, path: Path, found: Entry)
    ensures Updated(record, NOTHING.(dropPointer := Some(path)))
            == record.(pointer := DropPointer(record.pointer, path))
    ensures Updated(record, NOTHING.(restorePointer := Some(Restore(path, found))))
            == record.(pointer := RestoredPointer(record.pointer, Restore(path, found)))
  {
    assert Deselected(record.selected + map[], map[]) == record.selected;
  }
}
