/** What one further uninterrupted run makes of whatever earlier runs left behind. */
module Recovery {
  import opened Wrappers
  import opened Paths
  import opened HostRecord
  import opened Staging
  import opened Promotion
  import opened CrashSafety

  // ------------------------------------------------------------ runs that nothing interrupts

  /** How many writes are at most left in a run. */
  function Left(phase: Phase): nat {
    match phase
    case Deciding => 17
    case Clearing => 16 case Emptying => 15 case Reclaiming => 15
    case Making => 14 case Locking => 13 case Claiming => 12
    case Building => 11 case Built => 10 case Measured => 9 case Promoting => 8
    case Committed(_) => 7 case Settling => 4
    case Unlinking(_) => 6 case Disowning(_) => 5 case Deselecting(_) => 4
    case Releasing(_) => 3 case Removing => 2
    case Owning(_) => 10 case Pointing(_) => 9 case Completing => 4
    case Returning(_) => 8 case Relinquishing(_) => 7
    case Done => 0
  }

  lemma BuildingAdvances(site: Site, host: Host, run: Run, phase: Phase, outcome: Outcome)
    requires RunOk(site, run) && Builds(phase)
    ensures Left(BuildWrite(site, host, run, phase, outcome).1) < Left(phase)
  {
    hide Apply, Keeps;
  }

  lemma RollingBackAdvances(site: Site, host: Host, run: Run, phase: Phase, outcome: Outcome)
    requires RunOk(site, run) && RollsBack(phase)
    ensures Left(RollbackWrite(site, host, run, phase, outcome).1) < Left(phase)
  {
    hide Apply, EntryRollback, SelectionRollback;
  }

  /** Every write moves a run on, whatever becomes of the write: no run goes on for ever. */
  lemma EveryWriteAdvances(site: Site, host: Host, run: Run, phase: Phase, outcome: Outcome)
    requires RunOk(site, run) && phase != Done
    ensures Left(Act(site, host, run, phase, outcome).1) < Left(phase)
  {
    hide Apply, Commit, Own, MayPromote, MayResume, Keeps, Standing, BuildWrite, RollbackWrite;
    if Builds(phase) { BuildingAdvances(site, host, run, phase, outcome); }
    else if RollsBack(phase) { RollingBackAdvances(site, host, run, phase, outcome); }
  }

  /** A run whose checks all pass and whose writes all land, taken to its end. */
  function Finished(site: Site, host: Host, run: Run, phase: Phase): Host
    requires RunOk(site, run)
    decreases Left(phase)
  {
    if phase == Done then host
    else
      EveryWriteAdvances(site, host, run, phase, Fine);
      var written := Act(site, host, run, phase, Fine);
      Finished(site, written.0, run, written.1)
  }

  /** The environment is selected for every component, the pointer leads to it, and its claim
      says it finished. */
  predicate Installed(site: Site, host: Host, env: Path) {
    && Selects(site, host.record, env)
    && host.link == To(env)
    && Look(host, env).claim == Complete
  }

  // ------------------------------------------------------------ building from nothing

  /** No promotion is half done: there is no link, or it leads to what is selected. */
  predicate Settled(site: Site, host: Host) {
    host.link == Absent || (host.link.To? && Selects(site, host.record, host.link.target))
  }

  /** Among hosts runs leave behind, that is exactly when a promotion may replace the link. */
  lemma SettledMayPromote(site: Site, host: Host)
    requires SiteOk(site) && Sound(site, host) && Consistent(site, host)
    ensures MayPromote(site, host) <==> Settled(site, host)
  {
    if host.link.To? {
      var target := host.link.target;
      assert host.record.selected != map[];
      var chosen :| Selects(site, host.record, chosen) && Selectable(site, host, chosen);
      SelectsIsInside(site, host.record, chosen);
      var first := site.components[0];
      assert first in host.record.selected;
      if LinkAgrees(site, host.record, target) {
        SiblingsAreApart(host.record.selected[first], chosen, target);
      }
    }
  }

  /** Everything a run writes before its promotion. */
  function Candidate(site: Site, host: Host, run: Run): Host
    requires RunOk(site, run)
  {
    var made := host.(dirs := host.dirs[run.env := Env(Staged, true, true)]);
    Apply(Apply(made, NOTHING.(installs := InstallsOf(site, run))), NOTHING.(points := run.points))
  }

  lemma CandidateKeepsWhatIsSelected(site: Site, host: Host, run: Run)
    requires SiteOk(site) && RunOk(site, run)
    ensures var ready := Candidate(site, host, run);
            && ready.record.selected == host.record.selected
            && ready.record.pointer == host.record.pointer
            && ready.link == host.link
            && ready.dirs == host.dirs[run.env := Env(Staged, true, true)]
  {
    var installs := InstallsOf(site, run);
    WritesInstalls(host.record, installs);
    PutInstallsFrame(host.record, installs);
    var recorded := PutInstalls(host.record, installs);
    WritesPoints(recorded, run.points);
    AddPointsFrame(recorded, run.points);
  }

  lemma BuildsToTheGate(site: Site, host: Host, run: Run)
    requires RunOk(site, run) && run.env !in host.dirs
    ensures Finished(site, host, run, Making)
            == Finished(site, Candidate(site, host, run), run, Promoting)
  {
    hide Apply, MayPromote, Commit;
    var h1 := Put(host, run.env, Env(NoClaim, false, false));
    var h2 := Put(h1, run.env, Env(NoClaim, true, false));
    var h3 := Put(h2, run.env, Env(Staged, true, false));
    var h4 := Put(h3, run.env, Env(Staged, true, true));
    assert Act(site, host, run, Making, Fine) == (h1, Locking);
    assert Act(site, h1, run, Locking, Fine) == (h2, Claiming);
    assert Act(site, h2, run, Claiming, Fine) == (h3, Building);
    assert Act(site, h3, run, Building, Fine) == (h4, Built);
    assert h4 == host.(dirs := host.dirs[run.env := Env(Staged, true, true)]);
    var h5 := Apply(h4, NOTHING.(installs := InstallsOf(site, run)));
    assert Act(site, h4, run, Built, Fine) == (h5, Measured);
    var h6 := Apply(h5, NOTHING.(points := run.points));
    assert Act(site, h5, run, Measured, Fine) == (h6, Promoting);
    calc {
      Finished(site, host, run, Making);
      Finished(site, h1, run, Locking);
      Finished(site, h2, run, Claiming);
      Finished(site, h3, run, Building);
      Finished(site, h4, run, Built);
      Finished(site, h5, run, Measured);
      Finished(site, h6, run, Promoting);
    }
  }

  function Promoted(site: Site, host: Host, run: Run): Host {
    SetClaim(Commit(site, host, run).(link := To(run.env)), run.env, Complete)
  }

  lemma PromotedIsInstalled(site: Site, host: Host, run: Run)
    requires SiteOk(site) && RunOk(site, run) && host.record.selected.Keys <= Names(site)
    ensures Installed(site, Promoted(site, host, run), run.env)
  {
    CommitSelects(site, host, run);
    assert host.record.selected + run.located == run.located;
  }

  /** Past the gate a run ends installed. */
  lemma PromotesToTheEnd(site: Site, host: Host, run: Run)
    requires SiteOk(site) && RunOk(site, run) && MayPromote(site, host)
    requires host.record.selected.Keys <= Names(site)
    ensures Installed(site, Finished(site, host, run, Promoting), run.env)
  {
    PromotedIsInstalled(site, host, run);
    var found := FoundAt(host);
    var chosen := Commit(site, host, run);
    var placed := chosen.(link := To(run.env));
    hide MayPromote, Commit, Installed, BuildWrite, RollbackWrite, SiteOk, Names;
    assert Act(site, host, run, Promoting, Fine) == (chosen, Committed(found));
    assert Act(site, chosen, run, Committed(found), Fine) == (placed, Settling);
    assert Act(site, placed, run, Settling, Fine) == (Promoted(site, host, run), Done);
    hide Act, SetClaim, Promoted;
    assert Finished(site, placed, run, Settling) == Promoted(site, host, run);
  }

  /** Turned away at the gate, a run leaves the link alone and removes what it built. */
  lemma TurnedAway(site: Site, host: Host, run: Run)
    requires RunOk(site, run) && !MayPromote(site, host)
    ensures Finished(site, host, run, Promoting).link == host.link
  {
    hide MayPromote, Updated, Keeps, RollbackWrite;
    var dropped := Apply(host, NOTHING.(dropEnvironment := Some(run.env)));
    assert Act(site, host, run, Promoting, Fine) == (host, Releasing(true));
    assert Act(site, host, run, Releasing(true), Fine) in {(host, Done), (dropped, Removing)};
    assert Act(site, dropped, run, Removing, Fine) == (Gone(dropped, run.env), Done);
    hide Act;
    assert Finished(site, dropped, run, Removing) == Finished(site, Gone(dropped, run.env), run, Done);
    assert Finished(site, host, run, Promoting) == Finished(site, host, run, Releasing(true));
  }

  lemma SelectionIsOfComponents(site: Site, host: Host)
    requires Sound(site, host)
    ensures host.record.selected.Keys <= Names(site)
  {
    if host.record.selected != map[] {
      var chosen :| Selects(site, host.record, chosen) && Selectable(site, host, chosen);
    }
  }

  /** Whether a promotion may go ahead is a matter of the selection, the entry and the link. */
  lemma GateReads(site: Site, host: Host, ready: Host)
    requires ready.record.selected == host.record.selected && ready.link == host.link
    requires ready.record.pointer == host.record.pointer
    ensures MayPromote(site, ready) == MayPromote(site, host)
  {
  }

  /** From a directory that is not there, a run installs exactly when the host is settled. */
  lemma InstallsFromNothing(site: Site, host: Host, run: Run)
    requires SiteOk(site) && RunOk(site, run)
    requires Sound(site, host) && Consistent(site, host) && run.env !in host.dirs
    ensures Installed(site, Finished(site, host, run, Making), run.env) <==> Settled(site, host)
  {
    var ready := Candidate(site, host, run);
    assert host.link != To(run.env);
    CandidateKeepsWhatIsSelected(site, host, run);
    SelectionIsOfComponents(site, host);
    hide Sound, Consistent, Candidate, MayPromote, Settled, Finished;
    BuildsToTheGate(site, host, run);
    SettledMayPromote(site, host);
    GateReads(site, host, ready);
    if MayPromote(site, ready) { PromotesToTheEnd(site, ready, run); } else { TurnedAway(site, ready, run); }
  }

  // ------------------------------------------------------------ from whatever is there

  /** What finishing one environment's promotion leaves of the rest of the host. */
  predicate MovesNothingElse(host: Host, last: Host, env: Path) {
    && last.record.selected == host.record.selected
    && last.dirs.Keys == host.dirs.Keys
    && forall path | path in host.dirs && path != env :: last.dirs[path] == host.dirs[path]
  }

  /** Finishing the promotion of the selected environment always succeeds, and touches no other
      directory and no selection. */
  lemma ResumesToTheEnd(site: Site, host: Host, run: Run)
    requires SiteOk(site) && RunOk(site, run)
    requires run.env in host.dirs && Selects(site, host.record, run.env)
    ensures var last := Finished(site, host, run, Owning(FoundAt(host)));
            Installed(site, last, run.env) && MovesNothingElse(host, last, run.env)
  {
    var found := FoundAt(host);
    var owned := Own(site, host, run);
    var placed := owned.(link := To(run.env));
    var last := SetClaim(placed, run.env, Complete);
    OwnStamps(site, host, run);
    assert Act(site, host, run, Owning(found), Fine) == (owned, Pointing(found));
    assert Act(site, owned, run, Pointing(found), Fine) == (placed, Completing);
    assert Act(site, placed, run, Completing, Fine) == (last, Done);
    assert Finished(site, host, run, Owning(found)) == last by {
      hide Act;
      assert Finished(site, placed, run, Completing) == Finished(site, last, run, Done);
    }
  }

  /** Under the invariant nothing stands in the way of resuming what is selected. */
  lemma SelectedMayResume(site: Site, host: Host, env: Path)
    requires SiteOk(site) && Sound(site, host) && Consistent(site, host)
    requires Selects(site, host.record, env)
    ensures MayResume(site, host, env)
  {
    SelectsIsInside(site, host.record, env);
    if host.link.To? {
      var name :| name in site.components && name in host.record.components
                  && HoldsInside(host.record.components[name], host.link.target);
      assert HoldsInstall(host.record.components[name], host.link.target);
    }
  }

  lemma SelectedStanding(site: Site, host: Host, env: Path)
    requires Selectable(site, host, env) && SelectsInside(host.record, env)
    ensures Standing(host, env) == match host.dirs[env].claim
                                   case Complete => Staging.Decision.Settled
                                   case Staged => Resume
                                   case _ => Recorded
  {
  }

  /** Under the invariant the selected environment is done with or can be resumed: its own link
      readings never stand in the way. */
  lemma SelectedDecision(site: Site, host: Host, run: Run)
    requires SiteOk(site) && RunOk(site, run)
    requires Sound(site, host) && Consistent(site, host)
    requires run.env in host.dirs && Selects(site, host.record, run.env)
    ensures Decided(site, host, run)
            == if host.dirs[run.env].claim == Complete then Done else Owning(FoundAt(host))
    ensures host.dirs[run.env].claim == Complete ==> Installed(site, host, run.env)
  {
    SelectsIsInside(site, host.record, run.env);
    ChosenIs(site, host, run.env);
    SelectedMayResume(site, host, run.env);
    SelectedStanding(site, host, run.env);
    hide Sound, SelectsInside, MayResume, Standing, Selects, LinkOwned, InstallRecorded;
  }

  /** Taking over or removing a directory nothing uses leads to the same start from nothing. */
  lemma ClearsTheWay(site: Site, host: Host, run: Run)
    requires RunOk(site, run) && run.env in host.dirs
    ensures Finished(site, host, run, Reclaiming) == Finished(site, Gone(host, run.env), run, Making)
    ensures host.dirs[run.env].claim == NoClaim && !host.dirs[run.env].occupied ==>
              Finished(site, host, run, Clearing) == Finished(site, Gone(host, run.env), run, Making)
  {
    var env := run.env;
    assert Act(site, host, run, Reclaiming, Fine) == (Gone(host, env), Making);
    if host.dirs[env].claim == NoClaim && !host.dirs[env].occupied {
      var cleared := Put(host, env, Env(NoClaim, false, false));
      assert Act(site, host, run, Clearing, Fine) == (cleared, Emptying);
      assert Act(site, cleared, run, Emptying, Fine) == (Gone(cleared, env), Making);
      assert Gone(cleared, env) == Gone(host, env);
      assert Finished(site, cleared, run, Emptying) == Finished(site, Gone(host, env), run, Making);
    }
  }

  /** What earlier runs left of this environment does not stop it from being installed. */
  predicate Clear(site: Site, host: Host, env: Path) {
    env in host.dirs && !Selects(site, host.record, env) ==>
      host.dirs[env].claim == Staged || host.dirs[env] == Env(NoClaim, host.dirs[env].lock, false)
  }

  lemma UnselectedStanding(site: Site, host: Host, env: Path)
    requires !SelectsInside(host.record, env)
    ensures var dir := Look(host, env);
            Standing(host, env) == match dir.claim
                                   case Complete => Keep
                                   case Garbled => Keep
                                   case Staged => if host.link == To(env) then Keep else Reclaim
                                   case NoClaim => if dir.occupied then Foreign
                                                   else if host.link == To(env) then Keep else Adopt
  {
  }

  lemma DecidesExactly(site: Site, host: Host, run: Run)
    requires SiteOk(site) && RunOk(site, run)
    requires Sound(site, host) && run.env in host.dirs && !Selects(site, host.record, run.env)
    ensures Decided(site, host, run)
            == if !Clear(site, host, run.env) || host.link == To(run.env) then Done
               else if host.dirs[run.env].claim == Staged then Reclaiming else Clearing
    ensures Idle(host, run.env) <==> host.link != To(run.env)
  {
    if SelectsInside(host.record, run.env) {
      ChosenIs(site, host, run.env);
    }
    UnselectedStanding(site, host, run.env);
    hide Sound, SelectsInside, Selects, Standing;
  }

  /** What nothing uses and can be cleared is built anew. */
  lemma ClearedAway(site: Site, host: Host, run: Run)
    requires SiteOk(site) && RunOk(site, run)
    requires Sound(site, host) && Consistent(site, host)
    requires run.env in host.dirs && !Selects(site, host.record, run.env)
    ensures Installed(site, Finished(site, host, run, Decided(site, host, run)), run.env)
            <==> Clear(site, host, run.env) && Settled(site, host)
  {
    var next := Decided(site, host, run);
    var gone := Gone(host, run.env);
    DecidesExactly(site, host, run);
    assert Settled(site, gone) == Settled(site, host);
    hide Sound, Consistent, Decided;
    if next == Done {
      assert !Installed(site, host, run.env) && !(Clear(site, host, run.env) && Settled(site, host));
    } else {
      ClearsTheWay(site, host, run);
      DirectoryStands(site, host, run.env, Look(host, run.env));
      hide Installed, Finished, Settled;
      InstallsFromNothing(site, gone, run);
    }
  }

  /** Recoverability, exactly: one further uninterrupted run ends installed if and only if its
      environment is already the selected one, or what is left of it can be cleared and no other
      promotion is half done. */
  lemma InstallsExactlyWhen(site: Site, host: Host, run: Run)
    requires SiteOk(site) && RunOk(site, run)
    requires Sound(site, host) && Consistent(site, host)
    ensures Installed(site, Finished(site, host, run, Deciding), run.env)
            <==> Clear(site, host, run.env)
                 && ((run.env in host.dirs && Selects(site, host.record, run.env)) || Settled(site, host))
  {
    var next := Decided(site, host, run);
    assert Finished(site, host, run, Deciding) == Finished(site, host, run, next);
    assert run.env !in host.dirs ==> next == Making;
    assert Finished(site, host, run, Done) == host;
    hide Act, Decided, Finished, Sound, Consistent, Installed, Selects, Settled;
    if run.env !in host.dirs {
      InstallsFromNothing(site, host, run);
    } else if Selects(site, host.record, run.env) {
      SelectedDecision(site, host, run);
      if next != Done { ResumesToTheEnd(site, host, run); }
    } else {
      ClearedAway(site, host, run);
    }
  }

  // ------------------------------------------------------------ two runs are always enough

  lemma {:induction false} FinishedKeeps(site: Site, host: Host, run: Run, phase: Phase)
    requires SiteOk(site) && RunOk(site, run) && Keeping(site, host, run, phase, true)
    ensures var last := Finished(site, host, run, phase);
            Sound(site, last) && Consistent(site, last)
    decreases Left(phase)
  {
    if phase != Done {
      WriteKeeps(site, host, run, phase, true, Fine);
      EveryWriteAdvances(site, host, run, phase, Fine);
      var written := Act(site, host, run, phase, Fine);
      hide Sound, Consistent, AtPhase, Act;
      FinishedKeeps(site, written.0, run, written.1);
    }
  }

  lemma FinishingMovesNothingElse(site: Site, host: Host, run: Run)
    requires SiteOk(site) && RunOk(site, run) && Sound(site, host) && Consistent(site, host)
    requires run.env in host.dirs && Selects(site, host.record, run.env)
    ensures MovesNothingElse(host, Finished(site, host, run, Deciding), run.env)
  {
    var next := Decided(site, host, run);
    assert Finished(site, host, run, Deciding) == Finished(site, host, run, next);
    hide Act, Decided, Finished;
    SelectedDecision(site, host, run);
    if next != Done { ResumesToTheEnd(site, host, run); }
  }

  /** With nothing selected the host is settled; otherwise one run of the selected sources
      settles it. Then any further run installs, whatever was killed before, unless its own
      directory was left in a state no run ever clears. */
  lemma TwoRunsInstall(site: Site, host: Host, again: Run, run: Run)
    requires SiteOk(site) && RunOk(site, again) && RunOk(site, run)
    requires Sound(site, host) && Consistent(site, host)
    requires host.record.selected != map[] ==> Selects(site, host.record, again.env)
    ensures var first := if host.record.selected == map[] then host
                         else Finished(site, host, again, Deciding);
            Installed(site, Finished(site, first, run, Deciding), run.env) <==> Clear(site, host, run.env)
  {
    var first := if host.record.selected == map[] then host else Finished(site, host, again, Deciding);
    if host.record.selected == map[] {
      assert site.components[0] !in host.record.selected;
    } else {
      SettlesFirst(site, host, again, run.env);
    }
    assert Settled(site, first);
    hide Sound, Consistent, Finished, Installed;
    InstallsExactlyWhen(site, first, run);
  }

  lemma OthersAreAsClear(site: Site, host: Host, last: Host, chosen: Path, env: Path)
    requires SiteOk(site) && IsEnv(site, chosen) && IsEnv(site, env)
    requires Selects(site, host.record, chosen) && chosen in host.dirs && MovesNothingElse(host, last, chosen)
    ensures Clear(site, last, env) == Clear(site, host, env)
    ensures Selects(site, last.record, chosen)
  {
    if Selects(site, host.record, env) {
      SelectsIsInside(site, host.record, env);
      OneSelected(site, host.record, chosen, env);
    }
  }

  /** One run of the selected sources settles the host, and changes nothing about whether any
      other environment can be cleared. */
  lemma SettlesFirst(site: Site, host: Host, again: Run, env: Path)
    requires SiteOk(site) && RunOk(site, again) && IsEnv(site, env)
    requires Sound(site, host) && Consistent(site, host)
    requires host.record.selected != map[] && Selects(site, host.record, again.env)
    ensures var first := Finished(site, host, again, Deciding);
            && Sound(site, first) && Consistent(site, first) && Settled(site, first)
            && Clear(site, first, env) == Clear(site, host, env)
  {
    SelectsIsInside(site, host.record, again.env);
    ChosenIs(site, host, again.env);
    SelectableIsThere(site, host, again.env);
    hide Sound, Consistent, Finished, Selectable, Selects, SelectsInside;
    assert Keeping(site, host, again, Deciding, true);
    FinishedKeeps(site, host, again, Deciding);
    FinishingMovesNothingElse(site, host, again);
    OthersAreAsClear(site, host, Finished(site, host, again, Deciding), again.env, env);
    InstallsExactlyWhen(site, host, again);
  }

  /** Nothing on the host but what these runs themselves leave. */
  predicate Tidy(host: Host) {
    forall path | path in host.dirs ::
      && host.dirs[path].claim != Garbled
      && (host.dirs[path].claim == NoClaim ==> !host.dirs[path].occupied)
  }

  predicate TidyAt(host: Host, run: Run, phase: Phase) {
    && Tidy(host)
    && (phase.Clearing? ==> Look(host, run.env).claim == NoClaim)
    && (phase.Building? ==> Look(host, run.env).claim == Staged)
  }

  lemma RollingBackMovesNoDirectory(site: Site, host: Host, run: Run, phase: Phase, outcome: Outcome)
    requires RunOk(site, run) && RollsBack(phase)
    ensures var written := RollbackWrite(site, host, run, phase, outcome);
            && written.0.dirs == host.dirs
            && (RollsBack(written.1) || written.1.Releasing? || written.1.Done?)
  {
    hide Updated, EntryRollback, SelectionRollback;
  }

  lemma BuildingKeepsTidy(site: Site, host: Host, run: Run, phase: Phase, outcome: Outcome)
    requires RunOk(site, run) && TidyAt(host, run, phase) && Builds(phase)
    ensures var written := BuildWrite(site, host, run, phase, outcome);
            TidyAt(written.0, run, written.1)
  {
    hide Updated, Keeps, RunOk;
  }

  lemma WriteKeepsTidy(site: Site, host: Host, run: Run, phase: Phase, outcome: Outcome)
    requires RunOk(site, run) && TidyAt(host, run, phase)
    ensures var written := Act(site, host, run, phase, outcome);
            TidyAt(written.0, run, written.1)
  {
    hide Updated, MayPromote, MayResume, Keeps, RollbackWrite, BuildWrite, RunOk;
    if Builds(phase) { BuildingKeepsTidy(site, host, run, phase, outcome); }
    if RollsBack(phase) { RollingBackMovesNoDirectory(site, host, run, phase, outcome); }
  }

  lemma {:induction false} StaysTidy(site: Site, moves: seq<Move>)
    requires SiteOk(site)
    ensures var after := After(site, System(CLEAN_HOST, None, true), moves);
            Tidy(after.host) && (after.run.Some? ==> TidyAt(after.host, after.run.value.0, after.run.value.1))
    decreases |moves|
  {
    if moves != [] {
      var last := |moves| - 1;
      StaysTidy(site, moves[..last]);
      var before := After(site, System(CLEAN_HOST, None, true), moves[..last]);
      if moves[last].Write? && before.run.Some? {
        var (run, phase) := before.run.value;
        WriteKeepsTidy(site, before.host, run, phase, moves[last].outcome);
      }
    }
  }

  /** No kill makes a destination refuse for ever: on a host only these runs ever touched, and on
      which no rollback write failed, the one thing a further pair of runs cannot install is a
      finished environment whose selection has since moved on. */
  lemma NothingRefusesForEver(site: Site, moves: seq<Move>, again: Run, run: Run)
    requires SiteOk(site) && RunOk(site, again) && RunOk(site, run)
    requires var after := After(site, System(CLEAN_HOST, None, true), moves);
             after.clean && (after.host.record.selected != map[] ==>
                               Selects(site, after.host.record, again.env))
    ensures var host := After(site, System(CLEAN_HOST, None, true), moves).host;
            var first := if host.record.selected == map[] then host
                         else Finished(site, host, again, Deciding);
            Installed(site, Finished(site, first, run, Deciding), run.env)
            <==> !(run.env in host.dirs && host.dirs[run.env].claim == Complete
                   && !Selects(site, host.record, run.env))
  {
    StartingPoints(site, [], map[], map[]);
    CrashSafe(site, System(CLEAN_HOST, None, true), moves);
    StaysTidy(site, moves);
    TwoRunsInstall(site, After(site, System(CLEAN_HOST, None, true), moves).host, again, run);
  }

  // ------------------------------------------------------------ one run is not always enough

  const FINE := Write(Fine)

  /** The moves of one run that takes a directory and claims it. */
  function Taking(run: Run): seq<Move> {
    [Start(run), FINE, FINE, FINE, FINE]
  }

  /** The moves of one run from its start to its promotion, every write landing. */
  function ToTheGate(run: Run): seq<Move> {
    Taking(run) + [FINE, FINE, FINE]
  }

  lemma {:induction false} AfterBoth(site: Site, system: System, first: seq<Move>, second: seq<Move>)
    requires system.run.Some? ==> RunOk(site, system.run.value.0)
    ensures After(site, system, first + second) == After(site, After(site, system, first), second)
    decreases |second|
  {
    if second == [] {
      assert first + second == first;
    } else {
      var last := |second| - 1;
      assert (first + second)[..|first| + last] == first + second[..last];
      AfterBoth(site, system, first, second[..last]);
    }
  }

  /** A list of moves starts with its first one. */
  lemma FirstMove(site: Site, system: System, moves: seq<Move>)
    requires system.run.Some? ==> RunOk(site, system.run.value.0)
    requires moves != []
    ensures After(site, system, moves) == After(site, Moved(site, system, moves[0]), moves[1..])
  {
    AfterBoth(site, system, moves[..1], moves[1..]);
    assert moves[..1] + moves[1..] == moves && moves[..1][..0] == [];
    assert After(site, system, moves[..1]) == Moved(site, system, moves[0]);
  }

  lemma TakesTheDirectory(site: Site, host: Host, run: Run)
    requires RunOk(site, run) && run.env !in host.dirs
    ensures After(site, System(host, None, true), Taking(run))
            == System(Put(host, run.env, Env(Staged, true, false)), Some((run, Building)), true)
  {
    var h1 := Put(host, run.env, Env(NoClaim, false, false));
    var h2 := Put(h1, run.env, Env(NoClaim, true, false));
    var s0 := System(host, None, true);
    var s1 := System(host, Some((run, Deciding)), true);
    var s2 := System(host, Some((run, Making)), true);
    var s3 := System(h1, Some((run, Locking)), true);
    var s4 := System(h2, Some((run, Claiming)), true);
    var s5 := System(Put(host, run.env, Env(Staged, true, false)), Some((run, Building)), true);
    assert Moved(site, s0, Start(run)) == s1 && Moved(site, s1, FINE) == s2;
    assert Moved(site, s2, FINE) == s3 && Moved(site, s3, FINE) == s4 && Moved(site, s4, FINE) == s5;
    hide Moved;
    FirstMove(site, s0, [Start(run), FINE, FINE, FINE, FINE]);
    FirstMove(site, s1, [FINE, FINE, FINE, FINE]);
    FirstMove(site, s2, [FINE, FINE, FINE]);
    FirstMove(site, s3, [FINE, FINE]);
    FirstMove(site, s4, [FINE]);
  }

  lemma ReachesTheGate(site: Site, host: Host, run: Run)
    requires RunOk(site, run) && run.env !in host.dirs
    ensures After(site, System(host, None, true), ToTheGate(run))
            == System(Candidate(site, host, run), Some((run, Promoting)), true)
  {
    hide Apply;
    var h3 := Put(host, run.env, Env(Staged, true, false));
    var h4 := Put(h3, run.env, Env(Staged, true, true));
    var h5 := Apply(h4, NOTHING.(installs := InstallsOf(site, run)));
    var s5 := System(h3, Some((run, Building)), true);
    var s6 := System(h4, Some((run, Built)), true);
    var s7 := System(h5, Some((run, Measured)), true);
    var s8 := System(Candidate(site, host, run), Some((run, Promoting)), true);
    assert h4 == host.(dirs := host.dirs[run.env := Env(Staged, true, true)]);
    assert Moved(site, s5, FINE) == s6 && Moved(site, s6, FINE) == s7 && Moved(site, s7, FINE) == s8;
    hide Moved;
    TakesTheDirectory(site, host, run);
    AfterBoth(site, System(host, None, true), Taking(run), [FINE, FINE, FINE]);
    FirstMove(site, s5, [FINE, FINE, FINE]);
    FirstMove(site, s6, [FINE, FINE]);
    FirstMove(site, s7, [FINE]);
  }

  /** Killed with its selection committed and its link not placed. */
  function CommitAndDie(run: Run): seq<Move> {
    ToTheGate(run) + [FINE, Kill]
  }

  /** Killed with its link placed and its claim not settled. */
  function PlaceAndDie(run: Run): seq<Move> {
    ToTheGate(run) + [FINE, FINE, Kill]
  }

  lemma DiesPromoting(site: Site, host: Host, run: Run)
    requires RunOk(site, run) && run.env !in host.dirs && MayPromote(site, Candidate(site, host, run))
    ensures var chosen := Commit(site, Candidate(site, host, run), run);
            && After(site, System(host, None, true), CommitAndDie(run)) == System(chosen, None, true)
            && After(site, System(host, None, true), PlaceAndDie(run))
               == System(chosen.(link := To(run.env)), None, true)
  {
    hide MayPromote, Commit, Candidate;
    var ready := Candidate(site, host, run);
    var chosen := Commit(site, ready, run);
    var s0 := System(host, None, true);
    var s1 := System(ready, Some((run, Promoting)), true);
    var s2 := System(chosen, Some((run, Committed(FoundAt(ready)))), true);
    var s3 := System(chosen.(link := To(run.env)), Some((run, Settling)), true);
    assert Moved(site, s1, FINE) == s2 && Moved(site, s2, FINE) == s3;
    assert Moved(site, s2, Kill) == System(chosen, None, true);
    assert Moved(site, s3, Kill) == System(chosen.(link := To(run.env)), None, true);
    hide Moved, ToTheGate;
    ReachesTheGate(site, host, run);
    AfterBoth(site, s0, ToTheGate(run), [FINE, Kill]);
    FirstMove(site, s1, [FINE, Kill]);
    FirstMove(site, s2, [Kill]);
    AfterBoth(site, s0, ToTheGate(run), [FINE, FINE, Kill]);
    FirstMove(site, s1, [FINE, FINE, Kill]);
    FirstMove(site, s2, [FINE, Kill]);
    FirstMove(site, s3, [Kill]);
  }

  /** What such a run leaves: its environment selected and still claimed, and nothing else moved
      but the link it did or did not place. */
  lemma DyingLeaves(site: Site, host: Host, run: Run)
    requires SiteOk(site) && RunOk(site, run) && run.env !in host.dirs && MayPromote(site, host)
    requires host.record.selected.Keys <= Names(site)
    ensures var chosen := After(site, System(host, None, true), CommitAndDie(run));
            && chosen.run == None && chosen.clean
            && chosen.host.link == host.link && chosen.host.record.selected == run.located
            && chosen.host.dirs == host.dirs[run.env := Env(Staged, true, true)]
    ensures var placed := After(site, System(host, None, true), PlaceAndDie(run));
            && placed.run == None && placed.clean && Stamped(site, placed.host)
            && placed.host.link == To(run.env) && placed.host.record.selected == run.located
            && placed.host.dirs == host.dirs[run.env := Env(Staged, true, true)]
  {
    CandidateKeepsWhatIsSelected(site, host, run);
    var ready := Candidate(site, host, run);
    assert MayPromote(site, ready) == MayPromote(site, host);
    hide MayPromote, PlaceAndDie, CommitAndDie, Candidate, Commit;
    DiesPromoting(site, host, run);
    CommitSelects(site, ready, run);
    assert host.record.selected + run.located == run.located;
  }

  /** The host two such kills leave: the second run's environment selected, the link still
      leading to the first's, neither claim settled. */
  lemma TwoKillsLeave(site: Site, first: Run, second: Run)
    requires SiteOk(site) && RunOk(site, first) && RunOk(site, second) && first.env != second.env
    ensures var after := After(site, System(CLEAN_HOST, None, true),
                               PlaceAndDie(first) + CommitAndDie(second));
            && after.run == None && after.clean
            && after.host.link == To(first.env)
            && after.host.record.selected == second.located
            && after.host.dirs == map[first.env := Env(Staged, true, true),
                                      second.env := Env(Staged, true, true)]
  {
    hide PlaceAndDie, CommitAndDie;
    AfterBoth(site, System(CLEAN_HOST, None, true), PlaceAndDie(first), CommitAndDie(second));
    DyingLeaves(site, CLEAN_HOST, first);
    var placed := After(site, System(CLEAN_HOST, None, true), PlaceAndDie(first)).host;
    assert site.components[0] in placed.record.selected;
    assert LinkAgrees(site, placed.record, first.env);
    DyingLeaves(site, placed, second);
  }

  /** Two kills leave a sound host whose link leads away from what is selected. */
  lemma TwoKillsUnsettle(site: Site, first: Run, second: Run)
    requires SiteOk(site) && RunOk(site, first) && RunOk(site, second) && first.env != second.env
    ensures var host := After(site, System(CLEAN_HOST, None, true),
                              PlaceAndDie(first) + CommitAndDie(second)).host;
            && Sound(site, host) && Consistent(site, host) && !Settled(site, host)
            && host.dirs.Keys == {first.env, second.env}
            && Clear(site, host, second.env)
            && Selects(site, host.record, second.env) && !Selects(site, host.record, first.env)
  {
    TwoKillsLeave(site, first, second);
    StartingPoints(site, [], map[], map[]);
    hide PlaceAndDie, CommitAndDie, Sound, Consistent, After, AtPhase;
    CrashSafe(site, System(CLEAN_HOST, None, true), PlaceAndDie(first) + CommitAndDie(second));
    var host := After(site, System(CLEAN_HOST, None, true), PlaceAndDie(first) + CommitAndDie(second)).host;
    SelectsIsInside(site, host.record, second.env);
    if Selects(site, host.record, first.env) { OneSelected(site, host.record, first.env, second.env); }
  }

  /** After those two kills one further run of the first sources is turned away, and so is one of
      any third sources: the host is waiting for the second's. */
  lemma OneRunIsNotEnough(site: Site, first: Run, second: Run, third: Run)
    requires SiteOk(site) && RunOk(site, first) && RunOk(site, second) && RunOk(site, third)
    requires first.env != second.env && third.env != first.env && third.env != second.env
    ensures var host := After(site, System(CLEAN_HOST, None, true),
                              PlaceAndDie(first) + CommitAndDie(second)).host;
            && !Installed(site, Finished(site, host, first, Deciding), first.env)
            && !Installed(site, Finished(site, host, third, Deciding), third.env)
            && Installed(site, Finished(site, host, second, Deciding), second.env)
  {
    hide *;
    TwoKillsUnsettle(site, first, second);
    var host := After(site, System(CLEAN_HOST, None, true), PlaceAndDie(first) + CommitAndDie(second)).host;
    InstallsExactlyWhen(site, host, first);
    InstallsExactlyWhen(site, host, second);
    InstallsExactlyWhen(site, host, third);
  }

  // ------------------------------------------------------------ why runs may not overlap

  /** The staging decision made on a record read earlier. */
  function StandingOn(earlier: Record, host: Host, env: Path): Decision {
    var selects := SelectsInside(earlier, env);
    Decide(Look(host, env).claim, Dead, Some(Look(host, env).occupied),
           Protected(Some(selects), Some(host.link == To(env))), Some(selects))
  }

  /** On any host whose record selects an environment, a run that decides on any earlier record removes
      it exactly when it is not settled yet, the link does not lead to it and the earlier record did
      not select it; a fresh reading would have resumed it, and without it the host is not sound. */
  lemma StaleRecordRemovesExactlyWhen(site: Site, earlier: Record, host: Host, env: Path)
    requires SiteOk(site) && IsEnv(site, env) && Sound(site, host) && Selects(site, host.record, env)
    ensures StandingOn(earlier, host, env) == Reclaim
            <==> Look(host, env).claim == Staged && !SelectsInside(earlier, env) && host.link != To(env)
    ensures StandingOn(earlier, host, env) == Reclaim ==>
              StandingOn(host.record, host, env) == Resume && !Sound(site, Gone(host, env))
  {
    SelectsIsInside(site, host.record, env);
    var gone := Gone(host, env);
    if Sound(site, gone) {
      ChosenIs(site, gone, env);
    }
  }

  /** So it happens: a run that read the record before another one committed and died removes the environment the
      record selects, where a fresh reading would have resumed it. */
  lemma StaleRecordRemovesWhatIsSelected(site: Site, run: Run)
    requires SiteOk(site) && RunOk(site, run)
    ensures var host := After(site, System(CLEAN_HOST, None, true), CommitAndDie(run)).host;
            && StandingOn(CLEAN_HOST.record, host, run.env) == Reclaim
            && StandingOn(host.record, host, run.env) == Resume
            && Sound(site, host) && !Sound(site, Gone(host, run.env))
  {
    StartingPoints(site, [], map[], map[]);
    CrashSafe(site, System(CLEAN_HOST, None, true), CommitAndDie(run));
    var host := After(site, System(CLEAN_HOST, None, true), CommitAndDie(run)).host;
    DyingLeaves(site, CLEAN_HOST, run);
    hide Sound, After, CommitAndDie, StandingOn;
    StaleRecordRemovesExactlyWhen(site, CLEAN_HOST.record, host, run.env);
  }
}
