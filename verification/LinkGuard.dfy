/** Which links a run may replace or remove, over runs that somebody else's edits come between. */
module LinkGuard {
  import opened Wrappers
  import opened Paths
  import opened HostRecord
  import opened Staging
  import opened Promotion

  /** Somebody else's edit may change anything, at any time no promotion holds its lock. */
  datatype Step = Ours(move: Move) | Edit(host: Host)

  predicate Guarded(phase: Phase) {
    !(phase.Deciding? || phase.Done? || Builds(phase))
  }

  function Advanced(site: Site, system: System, step: Step): System
    requires system.run.Some? ==> RunOk(site, system.run.value.0)
  {
    match step
    case Ours(move) => Moved(site, system, move)
    case Edit(host) =>
      if system.run.Some? && Guarded(system.run.value.1) then system else system.(host := host)
  }

  function Along(site: Site, system: System, steps: seq<Step>): (after: System)
    requires system.run.Some? ==> RunOk(site, system.run.value.0)
    ensures after.run.Some? ==> RunOk(site, after.run.value.0)
  {
    if steps == [] then system
    else Advanced(site, Along(site, system, steps[..|steps| - 1]), steps[|steps| - 1])
  }

  // ------------------------------------------------------------ what a change of the link needs

  /** A link a promotion may replace: this command recorded placing one, and every selected
      runtime lies inside what the link leads to. */
  predicate MayBeReplaced(site: Site, found: Found) {
    match found.link
    case Absent => true
    case NotALink => false
    case To(target) =>
      && PlacementRecorded(found.entry)
      && (exists name :: name in site.components && name in found.selected)
      && forall name | name in site.components && name in found.selected ::
           Within(found.selected[name], target)
  }

  /** A link a resume may replace: its target is a recorded environment or location, and where an
      entry speaks of this path it records a placement. */
  predicate MayBeResumed(site: Site, record: Record, found: Found) {
    match found.link
    case Absent => true
    case NotALink => false
    case To(target) =>
      && TargetIsRecorded(site.components, record, target)
      && (PointerEntryFor(found.entry, site.pointer).Some? ==> PlacementRecorded(found.entry))
  }

  /** What holds of the link inside a promotion, a resume and either rollback. */
  predicate LinkHeld(site: Site, host: Host, run: Run, phase: Phase) {
    match phase
    case Committed(found) => host.link == found.link && MayBeReplaced(site, found)
    case Owning(found) =>
      host.link == found.link && MayBeResumed(site, host.record, found) && found.entry == host.record.pointer
    case Pointing(found) => host.link == found.link && MayBeResumed(site, host.record, found)
    case Unlinking(found) => host.link == found.link || host.link == To(run.env)
    case Returning(found) => host.link == found.link || host.link == To(run.env)
    case _ => true
  }

  /** Every change of the link, and what makes it this command's to make. */
  predicate Justified(site: Site, host: Host, run: Run, phase: Phase, after: Link) {
    match phase
    case Committed(found) => found.link == host.link && MayBeReplaced(site, found) && after == To(run.env)
    case Pointing(found) =>
      found.link == host.link && MayBeResumed(site, host.record, found) && after == To(run.env)
    case Unlinking(found) => host.link == To(run.env) && after == found.link
    case Returning(found) => host.link == To(run.env) && after == found.link
    case _ => false
  }

  lemma OwningKeepsInstalls(site: Site, host: Host, run: Run)
    requires RunOk(site, run)
    ensures Own(site, host, run).record.components == host.record.components
  {
    var stamp := Stamp(site, run);
    assert PATH in stamp;
    WritesCommit(host.record, map[], stamp);
  }

  /** Which targets are recorded is a matter of the installs alone. */
  lemma KnownTargets(site: Site, record: Record, after: Record, found: Found)
    requires record.components == after.components
    ensures MayBeResumed(site, record, found) == MayBeResumed(site, after, found)
  {
  }

  lemma GatesMean(site: Site, host: Host, env: Path)
    ensures MayPromote(site, host) ==> MayBeReplaced(site, FoundAt(host))
    ensures MayResume(site, host, env) ==> MayBeResumed(site, host.record, FoundAt(host))
  {
  }

  /** A promotion goes ahead over no link, and over a link only if the entry states a path, a time and an author
      and something is selected and all of it lies inside what the link leads to. */
  lemma PromotesExactlyWhen(site: Site, host: Host)
    ensures MayPromote(site, host)
            <==> || host.link == Absent
                 || (&& host.link.To? && host.record.pointer.Some?
                     && var entry := host.record.pointer.value;
                        && "path" in entry && Says(entry["path"])
                        && "recordedAt" in entry && Says(entry["recordedAt"])
                        && "recordedBy" in entry && Says(entry["recordedBy"])
                        && (exists name :: name in site.components && name in host.record.selected)
                        && forall name | name in site.components && name in host.record.selected ::
                             host.link.target <= host.record.selected[name])
  {
    if host.record.pointer.Some? { PlacementExactlyWhen(host.record.pointer.value); }
    hide Says;
  }

  /** A resume goes ahead if every component is selected inside the environment, and over a link only if some
      component records an install there and an entry about this pointer path, where there is one, states all
      three. */
  lemma ResumesExactlyWhen(site: Site, host: Host, env: Path)
    ensures MayResume(site, host, env)
            <==> && (forall name | name in site.components ::
                       name in host.record.selected && env <= host.record.selected[name])
                 && (|| host.link == Absent
                     || (&& host.link.To?
                         && (exists name, i :: name in site.components && name in host.record.components
                               && 0 <= i < |host.record.components[name].installs|
                               && (host.record.components[name].installs[i].environment == host.link.target
                                   || host.record.components[name].installs[i].location == host.link.target))
                         && (host.record.pointer.Some? ==>
                               var entry := host.record.pointer.value;
                               "path" in entry && entry["path"] == Named(site.pointer) ==>
                                 && "recordedAt" in entry && Says(entry["recordedAt"])
                                 && "recordedBy" in entry && Says(entry["recordedBy"]))))
  {
    if host.record.pointer.Some? { PlacementExactlyWhen(host.record.pointer.value); }
    if host.link.To? { RecordedByPosition(site.components, host.record, host.link.target); }
    hide TargetIsRecorded, PlacementRecorded;
  }

  lemma RecordedByPosition(components: seq<string>, record: Record, target: Path)
    ensures TargetIsRecorded(components, record, target)
            <==> exists name, i :: name in components && name in record.components
                   && 0 <= i < |record.components[name].installs|
                   && (record.components[name].installs[i].environment == target
                       || record.components[name].installs[i].location == target)
  {
    if TargetIsRecorded(components, record, target) {
      var name :| name in components && name in record.components && HoldsInstall(record.components[name], target);
      var install :| install in record.components[name].installs
                     && (install.environment == target || install.location == target);
      var i :| 0 <= i < |record.components[name].installs| && record.components[name].installs[i] == install;
    }
    if name, i :| name in components && name in record.components
                  && 0 <= i < |record.components[name].installs|
                  && (record.components[name].installs[i].environment == target
                      || record.components[name].installs[i].location == target) {
      assert record.components[name].installs[i] in record.components[name].installs;
      assert HoldsInstall(record.components[name], target);
    }
  }

  /** Building, recording and releasing never touch the link. */
  lemma BuildingHoldsLink(site: Site, host: Host, run: Run, phase: Phase, outcome: Outcome)
    requires RunOk(site, run) && Builds(phase)
    ensures var written := BuildWrite(site, host, run, phase, outcome);
            written.0.link == host.link && (Builds(written.1) || written.1 in {Promoting, Done})
  {
    hide Updated, Keeps;
  }

  lemma RollbackHoldsLink(site: Site, host: Host, run: Run, phase: Phase, outcome: Outcome)
    requires RunOk(site, run) && RollsBack(phase) && LinkHeld(site, host, run, phase)
    ensures var written := RollbackWrite(site, host, run, phase, outcome);
            && LinkHeld(site, written.0, run, written.1)
            && (written.0.link != host.link ==> Justified(site, host, run, phase, written.0.link))
  {
    hide Updated, EntryRollback, SelectionRollback, MayBeReplaced, MayBeResumed;
  }

  lemma WriteHoldsLink(site: Site, host: Host, run: Run, phase: Phase, outcome: Outcome)
    requires RunOk(site, run) && LinkHeld(site, host, run, phase)
    ensures var written := Act(site, host, run, phase, outcome);
            LinkHeld(site, written.0, run, written.1)
    ensures var written := Act(site, host, run, phase, outcome);
            written.0.link != host.link ==> Justified(site, host, run, phase, written.0.link)
  {
    hide BuildWrite, RollbackWrite, Updated, Standing, MayPromote, MayResume, Stamp, MayBeReplaced,
         MayBeResumed;
    if Builds(phase) {
      BuildingHoldsLink(site, host, run, phase, outcome);
    } else if RollsBack(phase) {
      RollbackHoldsLink(site, host, run, phase, outcome);
    } else {
      OwningKeepsInstalls(site, host, run);
      GatesMean(site, host, run.env);
      if phase.Owning? {
        KnownTargets(site, host.record, Own(site, host, run).record, phase.found);
      }
    }
  }

  lemma {:induction false} AlwaysHeld(site: Site, start: System, steps: seq<Step>)
    requires start.run == None
    ensures var system := Along(site, start, steps);
            system.run.Some? ==> LinkHeld(site, system.host, system.run.value.0, system.run.value.1)
    decreases |steps|
  {
    if steps != [] {
      var last := |steps| - 1;
      AlwaysHeld(site, start, steps[..last]);
      var before := Along(site, start, steps[..last]);
      if steps[last].Ours? && steps[last].move.Write? && before.run.Some? {
        var (run, phase) := before.run.value;
        WriteHoldsLink(site, before.host, run, phase, steps[last].move.outcome);
      }
    }
  }

  /** The link guard: from any host whatever, after any runs, kills and edits, the one write that
      changes the link is a promotion of a link it found and may replace, a resume over a link it
      found and may resume, or a rollback that takes this run's own link back to what was found. */
  lemma LinkGuarded(site: Site, start: System, steps: seq<Step>, outcome: Outcome)
    requires start.run == None
    ensures var system := Along(site, start, steps);
            system.run.Some? ==>
              var (run, phase) := system.run.value;
              var after := Act(site, system.host, run, phase, outcome).0.link;
              after != system.host.link ==> Justified(site, system.host, run, phase, after)
  {
    AlwaysHeld(site, start, steps);
    var system := Along(site, start, steps);
    if system.run.Some? {
      var (run, phase) := system.run.value;
      WriteHoldsLink(site, system.host, run, phase, outcome);
    }
  }

  // ------------------------------------------------------------ a link nobody recorded placing

  /** Something is at the pointer path and the record either holds the path without evidence of a
      placement, or what is there is no link at all. */
  predicate NotOurs(site: Site, host: Host) {
    || host.link == NotALink
    || (host.link.To? && host.record.pointer.Some?
        && IsAbout(host.record.pointer.value, site.pointer) && !PlacementRecorded(host.record.pointer))
  }

  /** Phases in which a promotion or a resume has already passed its guards. */
  predicate PastTheGuards(phase: Phase) {
    Guarded(phase) && !phase.Promoting?
  }

  lemma NotOursStays(site: Site, host: Host, run: Run, phase: Phase, outcome: Outcome)
    requires RunOk(site, run) && NotOurs(site, host) && !PastTheGuards(phase)
    ensures var written := Act(site, host, run, phase, outcome);
            && written.0.link == host.link && written.0.record.pointer == host.record.pointer
            && written.0.record.selected == host.record.selected
            && !PastTheGuards(written.1)
  {
    hide Keeps, Standing, TargetIsRecorded, NamesEnvironment, LinkAgrees;
    BuildingHoldsLink(site, host, run, if Builds(phase) then phase else Making, outcome);
    match phase
    case Built =>
      WritesInstalls(host.record, InstallsOf(site, run));
      PutInstallsFrame(host.record, InstallsOf(site, run));
    case Measured =>
      WritesPoints(host.record, run.points);
      AddPointsFrame(host.record, run.points);
    case Releasing(_) => WritesDrop(host.record, run.env);
    case _ =>
  }

  /** While the record lacks the evidence, no number of runs, however they end, replaces or
      removes what is at the pointer path, or moves the selection or the entry. */
  lemma {:induction false} UnownedLinkIsNeverTouched(site: Site, host: Host, moves: seq<Move>)
    requires NotOurs(site, host)
    ensures var after := After(site, System(host, None, true), moves);
            && after.host.link == host.link && after.host.record.pointer == host.record.pointer
            && after.host.record.selected == host.record.selected
            && (after.run.Some? ==> !PastTheGuards(after.run.value.1))
    decreases |moves|
  {
    if moves != [] {
      var last := |moves| - 1;
      UnownedLinkIsNeverTouched(site, host, moves[..last]);
      var before := After(site, System(host, None, true), moves[..last]);
      if moves[last].Write? && before.run.Some? {
        var (run, phase) := before.run.value;
        NotOursStays(site, before.host, run, phase, moves[last].outcome);
      }
    }
  }
}
