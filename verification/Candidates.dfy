/** What becomes of the environment a run built: kept exactly while the record selects something in it
    or the link leads to it, and otherwise gone, directory and records. */
module Candidates {
  import opened Wrappers
  import opened Paths
  import opened HostRecord
  import opened Staging
  import opened Promotion
  import Recovery
  import Rollback

  // ------------------------------------------------------------ what is in use, and what is recorded

  predicate Selected(record: Record, env: Path) {
    exists name :: name in record.selected && env <= record.selected[name]
  }

  predicate InUse(host: Host, env: Path) {
    Selected(host.record, env) || host.link == To(env)
  }

  /** No component records an install of this environment. */
  predicate Unrecorded(record: Record, env: Path) {
    forall name | name in record.components ::
      forall i | 0 <= i < |record.components[name].installs| ::
        record.components[name].installs[i].environment != env
  }

  /** Forgetting an environment leaves no install of it, every install of any other, every point, every
      component, the selection and the entry. */
  lemma ForgetsExactlyOne(record: Record, env: Path)
    ensures var after := DropEnvironment(record, env);
            && Unrecorded(after, env)
            && after.selected == record.selected && after.pointer == record.pointer
            && after.components.Keys == record.components.Keys
            && forall name | name in record.components ::
                 && after.components[name].points == record.components[name].points
                 && forall install :: install in after.components[name].installs
                                      <==> install in record.components[name].installs && install.environment != env
  {
    var after := DropEnvironment(record, env);
    forall name, i | name in after.components && 0 <= i < |after.components[name].installs|
      ensures after.components[name].installs[i].environment != env
    {
      assert after.components[name].installs[i] in Outside(record.components[name].installs, env);
    }
  }

  // ------------------------------------------------------------ the release

  /** From any host: a release that nothing interrupts removes the directory and forgets its installs if
      nothing selected lies in it and the link, where it is looked at, does not lead to it; and otherwise
      leaves the host as it is. */
  lemma ReleasesExactlyWhatNothingUses(site: Site, host: Host, run: Run, looks: bool)
    requires RunOk(site, run)
    ensures var last := Recovery.Finished(site, host, run, Releasing(looks));
            if (exists name :: name in host.record.selected && run.env <= host.record.selected[name])
               || (looks && host.link == To(run.env))
            then last == host
            else last == host.(record := DropEnvironment(host.record, run.env), dirs := host.dirs - {run.env})
                 && Unrecorded(last.record, run.env)
  {
    ForgetsExactlyOne(host.record, run.env);
    WritesDrop(host.record, run.env);
    hide Updated, DropEnvironment, Unrecorded;
    var used := Selected(host.record, run.env) || (looks && host.link == To(run.env));
    assert SelectsInside(host.record, run.env) == Selected(host.record, run.env);
    var dropped := Apply(host, NOTHING.(dropEnvironment := Some(run.env)));
    assert Act(site, host, run, Releasing(looks), Fine) == if used then (host, Done) else (dropped, Removing);
    assert Act(site, dropped, run, Removing, Fine) == (Gone(dropped, run.env), Done);
    hide Act;
    assert Recovery.Finished(site, dropped, run, Removing) == Gone(dropped, run.env);
  }

  // ------------------------------------------------------------ a whole run

  /** Where a run is after its writes went as listed. */
  function Reached(site: Site, host: Host, run: Run, phase: Phase, outcomes: seq<Outcome>): (Host, Phase)
    requires RunOk(site, run)
    decreases |outcomes|
  {
    if outcomes == [] then (host, phase)
    else
      var written := Act(site, host, run, phase, outcomes[0]);
      Reached(site, written.0, run, written.1, outcomes[1..])
  }

  /** Every write with which a failed run cleans up lands. */
  predicate CleansUp(site: Site, host: Host, run: Run, phase: Phase, outcomes: seq<Outcome>)
    requires RunOk(site, run)
    decreases |outcomes|
  {
    outcomes == []
    || (&& (RollsBack(phase) || phase.Releasing? || phase.Removing? ==> outcomes[0] == Fine)
        && var written := Act(site, host, run, phase, outcomes[0]);
           CleansUp(site, written.0, run, written.1, outcomes[1..]))
  }

  /** What holds of the run's environment from the moment the run made its directory. */
  predicate AtWork(host: Host, run: Run, phase: Phase) {
    match phase
    case Done =>
      && (run.env in host.dirs <==> InUse(host, run.env))
      && (!InUse(host, run.env) ==> Unrecorded(host.record, run.env))
    case Removing => !InUse(host, run.env) && Unrecorded(host.record, run.env)
    case Releasing(looks) =>
      run.env in host.dirs && (!looks && host.link == To(run.env) ==> Selected(host.record, run.env))
    case Settling => run.env in host.dirs && InUse(host, run.env) && Selected(host.record, run.env)
    case Committed(_) => run.env in host.dirs && Selected(host.record, run.env)
    case Unlinking(_) => run.env in host.dirs
    case Disowning(_) => run.env in host.dirs
    case Deselecting(_) => run.env in host.dirs
    case Locking => run.env in host.dirs && !InUse(host, run.env)
    case Claiming => run.env in host.dirs && !InUse(host, run.env)
    case Building => run.env in host.dirs && !InUse(host, run.env)
    case Built => run.env in host.dirs && !InUse(host, run.env)
    case Measured => run.env in host.dirs && !InUse(host, run.env)
    case Promoting => run.env in host.dirs && !InUse(host, run.env)
    case _ => false
  }

  lemma UseIsOfSelectionAndLink(host: Host, after: Host, env: Path)
    requires after.record.selected == host.record.selected && after.link == host.link
    ensures InUse(after, env) == InUse(host, env) && Selected(after.record, env) == Selected(host.record, env)
  {
  }

  lemma BuildingWorks(site: Site, host: Host, run: Run, phase: Phase, outcome: Outcome)
    requires RunOk(site, run) && AtWork(host, run, phase)
    requires phase.Locking? || phase.Claiming? || phase.Building? || phase.Built? || phase.Measured?
    ensures var written := Act(site, host, run, phase, outcome);
            AtWork(written.0, run, written.1)
  {
    var written := Act(site, host, run, phase, outcome);
    if phase.Built? {
      WritesInstalls(host.record, InstallsOf(site, run));
      PutInstallsFrame(host.record, InstallsOf(site, run));
    }
    if phase.Measured? {
      WritesPoints(host.record, run.points);
      AddPointsFrame(host.record, run.points);
    }
    hide Updated, Unrecorded, InUse, Selected;
    UseIsOfSelectionAndLink(host, written.0, run.env);
    hide Act;
    NotInUse(written.0, run.env);
  }

  lemma NotInUse(host: Host, env: Path)
    ensures !InUse(host, env) ==> host.link != To(env) && !Selected(host.record, env)
  {
  }

  lemma ReleasingWorks(site: Site, host: Host, run: Run, phase: Phase)
    requires RunOk(site, run) && AtWork(host, run, phase) && (phase.Releasing? || phase.Removing?)
    ensures var written := Act(site, host, run, phase, Fine);
            AtWork(written.0, run, written.1)
  {
    var written := Act(site, host, run, phase, Fine);
    if phase.Releasing? {
      assert SelectsInside(host.record, run.env) == Selected(host.record, run.env);
      WritesDrop(host.record, run.env);
      ForgetsExactlyOne(host.record, run.env);
    }
    hide Updated, DropEnvironment, Unrecorded, Selected;
    UseIsOfSelectionAndLink(host, written.0, run.env);
  }

  lemma GoingBackWorks(site: Site, host: Host, run: Run, phase: Phase)
    requires RunOk(site, run) && AtWork(host, run, phase)
    requires phase.Unlinking? || phase.Disowning? || phase.Deselecting?
    ensures var written := Act(site, host, run, phase, Fine);
            AtWork(written.0, run, written.1)
  {
    hide Updated, EntryRollback, SelectionRollback, InUse, Selected, Unrecorded;
  }

  lemma PromotingWorks(site: Site, host: Host, run: Run, phase: Phase, outcome: Outcome)
    requires SiteOk(site) && RunOk(site, run) && AtWork(host, run, phase)
    requires phase.Promoting? || phase.Committed? || phase.Settling?
    ensures var written := Act(site, host, run, phase, outcome);
            AtWork(written.0, run, written.1)
  {
    hide Commit, MayPromote, Unrecorded, Selected, SetClaim;
    if phase.Promoting? { CommitIsSelected(site, host, run); }
    ClaimTouchesOne(host, run.env, Complete);
  }

  lemma ClaimTouchesOne(host: Host, env: Path, claim: Claim)
    ensures var after := SetClaim(host, env, claim);
            && after.record == host.record && after.link == host.link && env in after.dirs
  {
  }

  lemma CommitIsSelected(site: Site, host: Host, run: Run)
    requires SiteOk(site) && RunOk(site, run)
    ensures var after := Commit(site, host, run);
            Selected(after.record, run.env) && after.dirs == host.dirs
  {
    assert PATH in Stamp(site, run);
    WritesCommit(host.record, run.located, Stamp(site, run));
    var after := Commit(site, host, run).record;
    var name := site.components[0];
    assert name in Names(site) && name in run.located;
    assert name in after.selected && run.env <= after.selected[name];
  }

  lemma {:induction false} WorksOn(site: Site, host: Host, run: Run, phase: Phase, outcomes: seq<Outcome>)
    requires SiteOk(site) && RunOk(site, run) && AtWork(host, run, phase) && CleansUp(site, host, run, phase, outcomes)
    ensures var (last, end) := Reached(site, host, run, phase, outcomes);
            AtWork(last, run, end)
    decreases |outcomes|
  {
    if outcomes != [] {
      var outcome := outcomes[0];
      if phase.Releasing? || phase.Removing? {
        ReleasingWorks(site, host, run, phase);
      } else if phase.Unlinking? || phase.Disowning? || phase.Deselecting? {
        GoingBackWorks(site, host, run, phase);
      } else if phase.Promoting? || phase.Committed? || phase.Settling? {
        PromotingWorks(site, host, run, phase, outcome);
      } else if phase == Done {
        assert Act(site, host, run, phase, outcome) == (host, Done);
      } else {
        assert !(phase.Clearing? || phase.Emptying? || phase.Reclaiming? || phase.Making?);
        BuildingWorks(site, host, run, phase, outcome);
      }
      hide Act, AtWork;
      var written := Act(site, host, run, phase, outcome);
      WorksOn(site, written.0, run, written.1, outcomes[1..]);
    }
  }

  /** A run that just made its directory, which nothing selects and nothing leads to: whatever becomes of
      its writes, if those with which it cleans up land, then at its end its directory is there if and
      only if something selected lies in it or the link leads to it, and where it is not there, no
      component records an install of it. */
  lemma CandidateStaysExactlyWhileUsed(site: Site, host: Host, run: Run, outcomes: seq<Outcome>)
    requires SiteOk(site) && RunOk(site, run) && run.env in host.dirs
    requires !InUse(host, run.env) && CleansUp(site, host, run, Locking, outcomes)
    ensures var (last, end) := Reached(site, host, run, Locking, outcomes);
            end == Done ==>
              && (run.env in last.dirs
                  <==> (exists name :: name in last.record.selected && run.env <= last.record.selected[name])
                       || last.link == To(run.env))
              && (run.env !in last.dirs ==> Unrecorded(last.record, run.env))
  {
    WorksOn(site, host, run, Locking, outcomes);
    hide Reached, CleansUp;
  }

  /** A promotion that failed at its link, from a host that did not use its environment: the host is the
      one it found, the entry the one a rollback leaves, and of the environment nothing is left. */
  lemma FailedPromotionReleases(site: Site, host: Host, run: Run, placed: bool)
    requires RunOk(site, run) && host.link != NotALink && !InUse(host, run.env)
    ensures var committed := Commit(site, host, run);
            var failed := if placed then committed.(link := To(run.env)) else committed;
            var last := Recovery.Finished(site, failed, run, Unlinking(FoundAt(host)));
            && last == Host(DropEnvironment(host.record.(pointer := WantedEntry(FoundAt(host))), run.env),
                            host.link, host.dirs - {run.env})
            && run.env !in last.dirs && Unrecorded(last.record, run.env)
  {
    var back := host.(record := host.record.(pointer := WantedEntry(FoundAt(host))));
    ForgetsExactlyOne(back.record, run.env);
    WritesDrop(back.record, run.env);
    assert SelectsInside(back.record, run.env) == Selected(host.record, run.env);
    hide Commit, Updated, DropEnvironment, Unrecorded, WantedEntry;
    Rollback.FailedPromotionLeavesNothing(site, host, run, placed);
  }

  /** A promotion turned away because something that is no link is at the pointer path leaves neither
      its directory nor its installs. */
  lemma TurnedAwayLeavesNothing(site: Site, host: Host, run: Run)
    requires RunOk(site, run) && host.link == NotALink && host.record.selected == map[] && run.env in host.dirs
    ensures var last := Recovery.Finished(site, host, run, Promoting);
            run.env !in last.dirs && Unrecorded(last.record, run.env)
  {
    assert Act(site, host, run, Promoting, Fine) == (host, Releasing(true));
    hide Act, Unrecorded;
    ReleasesExactlyWhatNothingUses(site, host, run, true);
  }
}
