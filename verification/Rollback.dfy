/** What a failed promotion puts back, on a record and a link that others may have moved on. */
module Rollback {
  import opened Wrappers
  import opened Paths
  import opened HostRecord
  import opened Staging
  import opened Promotion
  import Recovery

  // ------------------------------------------------------------ the answer a rollback reports

  datatype Answer = Dropped | Withdrawn | Restored | MovedOn | Unreadable

  /** `written` is the entry the record reads back as, and None when it could not be read. */
  function OwnershipAnswer(written: Option<Option<Entry>>, wanted: Option<Entry>, wrote: Path): Answer {
    match written
    case None => Unreadable
    case Some(after) =>
      if after == wanted then
        if wanted == None then Dropped
        else if PlacementRecorded(after) then Restored
        else Withdrawn
      else if PointerEntryFor(after, wrote) == None then MovedOn
      else Unreadable
  }

  /** A rollback delta that landed is never reported as one that did not: the answer names the
      wanted state exactly when the record holds it, and otherwise says another path is recorded
      there now. One that did not land is outstanding exactly while the record still speaks of
      this run's path and not as wanted. */
  lemma AnswersWhatTheRecordSays(site: Site, record: Record, found: Found)
    ensures var wanted := WantedEntry(found);
            var after := Updated(record, EntryRollback(site, found)).pointer;
            var answer := OwnershipAnswer(Some(after), wanted, site.pointer);
            && answer != Unreadable
            && (answer in {Dropped, Withdrawn, Restored} <==> after == wanted)
            && (answer == MovedOn <==> PointerEntryFor(record.pointer, site.pointer) == None
                                       && record.pointer != wanted)
    ensures OwnershipAnswer(Some(record.pointer), WantedEntry(found), site.pointer) == Unreadable
            <==> PointerEntryFor(record.pointer, site.pointer).Some? && record.pointer != WantedEntry(found)
    ensures found.link == Absent ==>
              OwnershipAnswer(Some(WantedEntry(found)), WantedEntry(found), site.pointer) != Restored
  {
    WritesEntry(record, site.pointer, WantedEntry(found).GetOr(map[]));
  }

  // ------------------------------------------------------------ both halves of the record

  function RolledBack(site: Site, record: Record, run: Run, found: Found): Record {
    var disowned := Updated(record, EntryRollback(site, found));
    Updated(disowned, SelectionRollback(disowned, run, found.selected))
  }

  /** Whether this run's own write of a selection is still the one in the record. */
  predicate StillMine(record: Record, run: Run, name: string) {
    name in run.located && name in record.selected && record.selected[name] == run.located[name]
  }

  predicate SameSelection(a: Record, b: map<string, Path>, name: string) {
    (name in a.selected <==> name in b) && (name in b ==> a.selected[name] == b[name])
  }

  /** On any record whatever: selections this run wrote and nobody moved go back to what was
      found, absence included; an entry about this path becomes the wanted one; everything else
      another run wrote stays. */
  lemma RollbackTouchesOnlyItsOwn(site: Site, record: Record, run: Run, found: Found)
    ensures var after := RolledBack(site, record, run, found);
            && after.components == record.components
            && after.pointer == (if PointerEntryFor(record.pointer, site.pointer).Some?
                                 then WantedEntry(found) else record.pointer)
            && forall name ::
                 if StillMine(record, run, name) then SameSelection(after, found.selected, name)
                 else SameSelection(after, record.selected, name)
  {
    WritesEntry(record, site.pointer, WantedEntry(found).GetOr(map[]));
    var disowned := Updated(record, EntryRollback(site, found));
    assert disowned.selected == record.selected && disowned.components == record.components;
    var delta := SelectionRollback(disowned, run, found.selected);
    WritesSelection(disowned, delta.select, delta.deselect);
  }

  /** Another run's entry survives a rollback exactly when it speaks of another path, or already
      says what the rollback means to leave: a second stamp on the same path is not told apart. */
  lemma EntrySurvivesExactlyWhen(site: Site, record: Record, run: Run, found: Found)
    ensures RolledBack(site, record, run, found).pointer == record.pointer
            <==> PointerEntryFor(record.pointer, site.pointer) == None
                 || record.pointer == WantedEntry(found)
  {
    RollbackTouchesOnlyItsOwn(site, record, run, found);
  }

  /** What a commit writes: every location of its own, over whatever was selected, and an entry
      about the pointer path. */
  lemma CommitWrites(site: Site, host: Host, run: Run)
    requires RunOk(site, run)
    ensures var after := Commit(site, host, run).record;
            && after == host.record.(selected := host.record.selected + run.located,
                                     pointer := after.pointer)
            && PointerEntryFor(after.pointer, site.pointer).Some?
  {
    var stamp := Stamp(site, run);
    assert PATH in stamp;
    WritesCommit(host.record, run.located, stamp);
    assert (host.record.pointer.GetOr(map[]) + stamp)[PATH] == Named(site.pointer);
  }

  /** With all of this run's writes still standing, the selection is the found one again. */
  lemma SelectionsAllGoBack(site: Site, record: Record, run: Run, found: Found)
    requires record.selected == found.selected + run.located
    ensures RolledBack(site, record, run, found).selected == found.selected
  {
    var after := RolledBack(site, record, run, found);
    RollbackTouchesOnlyItsOwn(site, record, run, found);
    hide RolledBack;
    forall name ensures SameSelection(after, found.selected, name) {
      assert name in run.located <==> StillMine(record, run, name);
      assert name !in run.located ==> SameSelection(after, record.selected, name);
    }
    assert after.selected.Keys == found.selected.Keys by {
      forall name ensures name in after.selected <==> name in found.selected {
        assert SameSelection(after, found.selected, name);
      }
    }
    forall name | name in found.selected ensures after.selected[name] == found.selected[name] {
      assert SameSelection(after, found.selected, name);
    }
  }

  /** A commit taken back: the record is the one the promotion found, and its entry is the wanted
      one. */
  lemma RollbackUndoesTheCommit(site: Site, host: Host, run: Run)
    requires RunOk(site, run)
    ensures RolledBack(site, Commit(site, host, run).record, run, FoundAt(host))
            == host.record.(pointer := WantedEntry(FoundAt(host)))
  {
    var committed := Commit(site, host, run).record;
    CommitWrites(site, host, run);
    hide Commit, RolledBack;
    SelectionsAllGoBack(site, committed, run, FoundAt(host));
    RollbackTouchesOnlyItsOwn(site, committed, run, FoundAt(host));
  }

  /** Key by key: an entry found beside a link goes back whole, one found beside none loses its two keys
      of evidence and no other, and one that said nothing is not put back. */
  lemma WantedKeyByKey(found: Found, key: string)
    ensures var was, wanted := found.entry.GetOr(map[]), WantedEntry(found);
            && (wanted == None <==> was == map[])
            && (wanted.Some? ==>
                  && (key in wanted.value
                      <==> key in was && (found.link == Absent ==> key != "recordedAt" && key != "recordedBy"))
                  && (key in wanted.value ==> wanted.value[key] == was[key]))
  {
  }

  /** The wanted entry is the found one unless a found-absent link costs it placement evidence
      (or it held nothing at all and is dropped). */
  lemma WantedIsFoundExactlyWhen(host: Host)
    ensures WantedEntry(FoundAt(host)) == host.record.pointer
            <==> host.record.pointer == None
                 || (host.record.pointer.value != map[]
                     && (host.link == Absent ==> host.record.pointer.value.Keys !! PLACEMENT))
  {
    if host.record.pointer.Some? {
      var was := host.record.pointer.value;
      assert was.Keys !! PLACEMENT ==> was - PLACEMENT == was;
      assert was - PLACEMENT == was ==> was.Keys !! PLACEMENT;
    }
  }

  // ------------------------------------------------------------ what others record meanwhile

  function Bookkept(record: Record, installs: seq<(string, Install)>, points: seq<(string, Point)>): Record {
    AddPoints(PutInstalls(record, installs), points)
  }

  /** Installs and points are recorded the same whatever is selected and whoever owns the link. */
  lemma {:induction false} InstallsIgnoreTheRest(record: Record, other: Record, installs: seq<(string, Install)>)
    requires other == record.(selected := other.selected, pointer := other.pointer)
    ensures PutInstalls(other, installs)
            == PutInstalls(record, installs).(selected := other.selected, pointer := other.pointer)
    decreases |installs|
  {
    if installs != [] {
      InstallsIgnoreTheRest(PutInstall(record, installs[0].0, installs[0].1),
                            PutInstall(other, installs[0].0, installs[0].1), installs[1..]);
    }
  }

  lemma {:induction false} PointsIgnoreTheRest(record: Record, other: Record, points: seq<(string, Point)>)
    requires other == record.(selected := other.selected, pointer := other.pointer)
    ensures AddPoints(other, points)
            == AddPoints(record, points).(selected := other.selected, pointer := other.pointer)
    decreases |points|
  {
    if points != [] {
      PointsIgnoreTheRest(AddPoint(record, points[0].0, points[0].1),
                          AddPoint(other, points[0].0, points[0].1), points[1..]);
    }
  }

  /** What other runs installed and measured between the commit and its rollback is exactly what
      the record would hold had the commit never happened. */
  lemma OthersWorkSurvives(site: Site, host: Host, run: Run,
                           installs: seq<(string, Install)>, points: seq<(string, Point)>)
    requires RunOk(site, run)
    ensures var meanwhile := Bookkept(Commit(site, host, run).record, installs, points);
            RolledBack(site, meanwhile, run, FoundAt(host))
            == Bookkept(host.record, installs, points).(pointer := WantedEntry(FoundAt(host)))
  {
    var found := FoundAt(host);
    var committed := Commit(site, host, run).record;
    CommitWrites(site, host, run);
    hide Commit, RolledBack, PointerEntryFor;
    InstallsIgnoreTheRest(host.record, committed, installs);
    PointsIgnoreTheRest(PutInstalls(host.record, installs), PutInstalls(committed, installs), points);
    PutInstallsFrame(host.record, installs);
    AddPointsFrame(PutInstalls(host.record, installs), points);
    var meanwhile := Bookkept(committed, installs, points);
    assert meanwhile == Bookkept(host.record, installs, points).(selected := committed.selected,
                                                                 pointer := committed.pointer);
    SelectionsAllGoBack(site, meanwhile, run, found);
    RollbackTouchesOnlyItsOwn(site, meanwhile, run, found);
  }

  // ------------------------------------------------------------ the whole rollback

  /** Where the link ends up when every rollback write lands, whatever it leads to by then. */
  function LinkPutBack(host: Host, run: Run, found: Found): Link {
    match found.link
    case Absent => if host.link == To(run.env) then Absent else host.link
    case To(_) => found.link
    case NotALink => host.link
  }

  /** The entry goes back only after the link verifiably has. */
  predicate LinkIsBack(host: Host, run: Run, found: Found) {
    match found.link
    case Absent => host.link == Absent || host.link == To(run.env)
    case To(_) => true
    case NotALink => false
  }

  /** What a whole rollback makes of the record. */
  function RecordPutBack(site: Site, host: Host, run: Run, found: Found): Record {
    if LinkIsBack(host, run, found) then RolledBack(site, host.record, run, found)
    else Updated(host.record, SelectionRollback(host.record, run, found.selected))
  }

  /** Past a rollback the candidate is released unless something still uses it. */
  function Released(host: Host, run: Run): Host {
    if Keeps(host, run, true) then host
    else Gone(Apply(host, NOTHING.(dropEnvironment := Some(run.env))), run.env)
  }

  lemma ReleasesAtLast(site: Site, host: Host, run: Run)
    requires RunOk(site, run)
    ensures Recovery.Finished(site, host, run, Releasing(true)) == Released(host, run)
  {
    hide Updated, Keeps;
    var dropped := Apply(host, NOTHING.(dropEnvironment := Some(run.env)));
    assert Act(site, host, run, Releasing(true), Fine)
           == if Keeps(host, run, true) then (host, Done) else (dropped, Removing);
    assert Act(site, dropped, run, Removing, Fine) == (Gone(dropped, run.env), Done);
    hide Act;
    assert Recovery.Finished(site, dropped, run, Removing) == Gone(dropped, run.env);
  }

  /** A rollback nothing interrupts, from any host its run may find by then: link, entry and
      selection go back as above, and then the candidate is released. */
  lemma RollbackExactly(site: Site, host: Host, run: Run, found: Found)
    requires RunOk(site, run)
    ensures Recovery.Finished(site, host, run, Unlinking(found))
            == Released(host.(link := LinkPutBack(host, run, found),
                              record := RecordPutBack(site, host, run, found)), run)
  {
    var h1 := host.(link := LinkPutBack(host, run, found));
    var h2 := if LinkIsBack(host, run, found) then Apply(h1, EntryRollback(site, found)) else h1;
    var h3 := Apply(h2, SelectionRollback(h2.record, run, found.selected));
    hide Updated, EntryRollback, SelectionRollback, Keeps;
    assert h3 == host.(link := LinkPutBack(host, run, found), record := RecordPutBack(site, host, run, found));
    assert Act(site, host, run, Unlinking(found), Fine)
           == (h1, if LinkIsBack(host, run, found) then Disowning(found) else Deselecting(found));
    assert LinkIsBack(host, run, found) ==>
             Act(site, h1, run, Disowning(found), Fine) == (h2, Deselecting(found));
    assert Act(site, h2, run, Deselecting(found), Fine) == (h3, Releasing(true));
    hide Act, Released;
    ReleasesAtLast(site, h3, run);
    assert Recovery.Finished(site, h2, run, Deselecting(found)) == Released(h3, run);
    if LinkIsBack(host, run, found) {
      assert Recovery.Finished(site, h1, run, Disowning(found)) == Released(h3, run);
    }
  }

  /** The same promotion, failed at its link and rolled back: the host is the one it found, but
      for the candidate and the evidence an absent link costs the entry. */
  lemma FailedPromotionLeavesNothing(site: Site, host: Host, run: Run, placed: bool)
    requires RunOk(site, run) && host.link != NotALink
    ensures var committed := Commit(site, host, run);
            var failed := if placed then committed.(link := To(run.env)) else committed;
            Recovery.Finished(site, failed, run, Unlinking(FoundAt(host)))
            == Released(host.(record := host.record.(pointer := WantedEntry(FoundAt(host)))), run)
  {
    var committed := Commit(site, host, run);
    var failed := if placed then committed.(link := To(run.env)) else committed;
    assert committed == host.(record := committed.record);
    RollbackUndoesTheCommit(site, host, run);
    hide Commit, RolledBack, Released;
    RollbackExactly(site, failed, run, FoundAt(host));
  }

  // ------------------------------------------------------------ a failed resume

  /** What a failed resume makes of the record: it moved the entry and nothing else. */
  function RecordHandedBack(site: Site, host: Host, run: Run, found: Found): Record {
    if LinkIsBack(host, run, found) then Updated(host.record, EntryRollback(site, found)) else host.record
  }

  /** The same of finishing a promotion, from any host its run may find by then: link and entry go
      back, and selection and directories are what they were. */
  lemma ResumeRollbackExactly(site: Site, host: Host, run: Run, found: Found)
    requires RunOk(site, run)
    ensures Recovery.Finished(site, host, run, Returning(found))
            == host.(link := LinkPutBack(host, run, found), record := RecordHandedBack(site, host, run, found))
  {
    var h1 := host.(link := LinkPutBack(host, run, found));
    var h2 := Apply(h1, EntryRollback(site, found));
    hide Updated, EntryRollback;
    assert Act(site, host, run, Returning(found), Fine)
           == (h1, if LinkIsBack(host, run, found) then Relinquishing(found) else Done);
    assert LinkIsBack(host, run, found) ==> Act(site, h1, run, Relinquishing(found), Fine) == (h2, Done);
    hide Act;
    assert LinkIsBack(host, run, found) ==> Recovery.Finished(site, h1, run, Relinquishing(found)) == h2;
  }

  /** A resume that failed at its link, with the link placed or not, leaves the host it found but for
      the evidence an absent link costs the entry. */
  lemma FailedResumeLeavesNothing(site: Site, host: Host, run: Run, placed: bool)
    requires RunOk(site, run) && host.link != NotALink
    ensures var owned := Own(site, host, run);
            var failed := if placed then owned.(link := To(run.env)) else owned;
            Recovery.Finished(site, failed, run, Returning(FoundAt(host)))
            == host.(record := host.record.(pointer := WantedEntry(FoundAt(host))))
  {
    var owned := Own(site, host, run);
    var failed := if placed then owned.(link := To(run.env)) else owned;
    var found := FoundAt(host);
    OwnedEntry(site, host, run);
    EntryGoesBack(site, failed.record, found);
    hide Own, Updated, EntryRollback, WantedEntry;
    ResumeRollbackExactly(site, failed, run, found);
  }

  lemma OwnedEntry(site: Site, host: Host, run: Run)
    ensures var owned := Own(site, host, run);
            && owned == host.(record := host.record.(pointer := owned.record.pointer))
            && PointerEntryFor(owned.record.pointer, site.pointer).Some?
  {
    assert PATH in Stamp(site, run);
    WritesCommit(host.record, map[], Stamp(site, run));
    assert host.record.selected + map[] == host.record.selected;
  }

  lemma EntryGoesBack(site: Site, record: Record, found: Found)
    requires PointerEntryFor(record.pointer, site.pointer).Some?
    ensures Updated(record, EntryRollback(site, found)) == record.(pointer := WantedEntry(found))
  {
    WritesEntry(record, site.pointer, WantedEntry(found).GetOr(map[]));
  }
}
