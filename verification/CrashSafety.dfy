/** What every run, every kill and every rollback keeps. */
module CrashSafety {
  import opened Wrappers
  import opened Paths
  import opened HostRecord
  import opened Staging
  import opened Promotion

  // ------------------------------------------------------------ the invariant

  predicate HoldsInside(component: Component, env: Path) {
    exists i :: i in component.installs && i.environment == env && Within(i.location, env)
  }

  /** Some component records an install that belongs to this environment and lies inside it. */
  predicate InstallRecorded(site: Site, record: Record, env: Path) {
    exists name :: name in site.components && name in record.components
                   && HoldsInside(record.components[name], env)
  }

  /** The record selects exactly this environment, for every component and for nothing else. */
  predicate Selects(site: Site, record: Record, env: Path) {
    && record.selected.Keys == Names(site)
    && forall name | name in record.selected :: Within(record.selected[name], env)
  }

  /** An environment the record may select: it exists, it is recorded, and it is either claimed
      by this command or an installation older than claims. */
  predicate Selectable(site: Site, host: Host, env: Path) {
    && env in host.dirs
    && InstallRecorded(site, host.record, env)
    && host.dirs[env].claim != Garbled
    && (host.dirs[env].claim == NoClaim ==> host.dirs[env].occupied)
  }

  ghost predicate SelectionStands(site: Site, host: Host) {
    || host.record.selected == map[]
    || exists env :: Selects(site, host.record, env) && Selectable(site, host, env)
  }

  /** The selection names one environment for all components; the selected and the pointed-at
      environments exist and are recorded. */
  ghost predicate Sound(site: Site, host: Host) {
    && (forall path | path in host.dirs :: IsEnv(site, path))
    && host.link != NotALink
    && (host.link.To? ==> host.link.target in host.dirs
                          && InstallRecorded(site, host.record, host.link.target))
    && SelectionStands(site, host)
  }

  /** Record and pointer agree, unless the selected environment never finished: then the pointer
      is absent or still names the recorded install it was about to leave. */
  ghost predicate Agree(site: Site, host: Host) {
    && (host.record.selected == map[] ==> host.link == Absent)
    && forall env | env in host.dirs && Selects(site, host.record, env) ::
         host.link == To(env) || host.dirs[env].claim != Complete
  }

  /** The ownership entry speaks of the one pointer path, and a link is there only with evidence
      that this command placed it. */
  predicate LinkOwned(site: Site, host: Host) {
    && (host.record.pointer.Some? ==> IsAbout(host.record.pointer.value, site.pointer))
    && (host.link.To? ==> PlacementRecorded(host.record.pointer))
  }

  ghost predicate Consistent(site: Site, host: Host) {
    Agree(site, host) && LinkOwned(site, host)
  }

  /** Nothing selects this environment and the pointer does not name it. */
  predicate Idle(host: Host, env: Path) {
    !SelectsInside(host.record, env) && host.link != To(env)
  }

  /** The host as a promotion found it, seen from inside that promotion. */
  function Before(host: Host, found: Found): Host {
    host.(link := found.link,
          record := host.record.(selected := found.selected, pointer := found.entry))
  }

  /** The run's environment is the selected one and its claim is not settled yet. */
  predicate Unfinished(site: Site, host: Host, run: Run) {
    && Selectable(site, host, run.env)
    && Selects(site, host.record, run.env)
    && host.dirs[run.env].claim != Complete
  }

  /** What a promotion goes back to when its rollback lands. */
  ghost predicate CanGoBack(site: Site, host: Host, run: Run, found: Found, clean: bool) {
    && Unfinished(site, host, run)
    && host.record.selected == run.located
    && (host.link == found.link || host.link == To(run.env))
    && Sound(site, Before(host, found))
    && Idle(Before(host, found), run.env)
    && (clean ==> Consistent(site, Before(host, found)))
  }

  /** The ownership entry is this command's own record of a link at the pointer path. */
  predicate Stamped(site: Site, host: Host) {
    && host.record.pointer.Some?
    && IsAbout(host.record.pointer.value, site.pointer)
    && PlacementRecorded(host.record.pointer)
  }

  /** What finishing a promotion goes back to: its selection was there before it and stays. */
  predicate CanHandBack(site: Site, host: Host, run: Run, found: Found, clean: bool) {
    && Unfinished(site, host, run)
    && found.link != NotALink
    && (found.link.To? ==> found.link.target in host.dirs
                           && InstallRecorded(site, host.record, found.link.target))
    && (clean ==> LinkOwned(site, Before(host, found)))
    && (host.link == found.link || host.link == To(run.env))
  }

  /** A directory this run created: there, and neither selected nor pointed at. */
  predicate Mine(host: Host, run: Run) {
    run.env in host.dirs && Idle(host, run.env)
  }

  predicate Claimed(host: Host, run: Run) {
    Mine(host, run) && host.dirs[run.env].claim == Staged
  }

  ghost predicate AtBuild(site: Site, host: Host, run: Run, phase: Phase)
    requires Builds(phase)
  {
    match phase
    case Clearing => Mine(host, run)
    case Emptying => Mine(host, run)
    case Reclaiming => Idle(host, run.env)
    case Making => run.env !in host.dirs
    case Locking => Mine(host, run)
    case Claiming => Mine(host, run)
    case Building => Claimed(host, run)
    case Built => Claimed(host, run)
    case Measured => Claimed(host, run) && InstallRecorded(site, host.record, run.env)
    case Releasing(looks) =>
      looks || SelectsInside(host.record, run.env) || host.link != To(run.env)
    case Removing => Idle(host, run.env)
  }

  ghost predicate AtRollback(site: Site, host: Host, run: Run, phase: Phase, clean: bool)
    requires RollsBack(phase)
  {
    match phase
    case Unlinking(found) => CanGoBack(site, host, run, found, clean) && Stamped(site, host)
    case Disowning(found) =>
      && CanGoBack(site, host, run, found, clean) && Stamped(site, host)
      && (clean ==> host.link == found.link)
    case Deselecting(found) =>
      && CanGoBack(site, host, run, found, clean)
      && (clean ==> host.link == found.link && host.record.pointer == WantedEntry(found))
    case Returning(found) => CanHandBack(site, host, run, found, clean) && Stamped(site, host)
    case Relinquishing(found) =>
      && CanHandBack(site, host, run, found, clean) && Stamped(site, host)
      && (clean ==> host.link == found.link)
  }

  /** What a run between two of its writes can rely on. */
  ghost predicate AtPhase(site: Site, host: Host, run: Run, phase: Phase, clean: bool) {
    if Builds(phase) then AtBuild(site, host, run, phase)
    else if RollsBack(phase) then AtRollback(site, host, run, phase, clean)
    else
      match phase
      case Deciding => true
      case Promoting => Claimed(host, run) && InstallRecorded(site, host.record, run.env)
      case Committed(found) =>
        CanGoBack(site, host, run, found, clean) && host.link == found.link && Stamped(site, host)
      case Settling => Unfinished(site, host, run) && host.link == To(run.env)
      case Owning(found) => CanHandBack(site, host, run, found, clean) && found == FoundAt(host)
      case Pointing(found) =>
        CanHandBack(site, host, run, found, clean) && host.link == found.link && Stamped(site, host)
      case Completing => Unfinished(site, host, run) && host.link == To(run.env)
      case Done => true
  }

  ghost predicate Keeping(site: Site, host: Host, run: Run, phase: Phase, clean: bool) {
    && Sound(site, host)
    && (clean ==> Consistent(site, host))
    && AtPhase(site, host, run, phase, clean)
  }

  /** One write keeps what Keeping says; a rollback write that does not land ends the promise of
      agreement and nothing else. */
  ghost predicate Kept(site: Site, host: Host, run: Run, phase: Phase, clean: bool, outcome: Outcome)
    requires RunOk(site, run)
  {
    var written := Act(site, host, run, phase, outcome);
    Keeping(site, written.0, run, written.1, clean && (RollsBack(phase) ==> outcome == Fine))
  }

  ghost predicate Invariant(site: Site, system: System) {
    && Sound(site, system.host)
    && (system.clean ==> Consistent(site, system.host))
    && (system.run.Some? ==>
          && RunOk(site, system.run.value.0)
          && AtPhase(site, system.host, system.run.value.0, system.run.value.1, system.clean))
  }

  // ------------------------------------------------------------ selection facts

  /** Only one environment under the destination can hold every selection. */
  lemma OneSelected(site: Site, record: Record, a: Path, b: Path)
    requires SiteOk(site) && IsEnv(site, a) && IsEnv(site, b)
    requires Selects(site, record, a) && SelectsInside(record, b)
    ensures a == b
  {
    var name :| name in record.selected && Within(record.selected[name], b);
    SiblingsAreApart(record.selected[name], a, b);
  }

  lemma SelectsIsInside(site: Site, record: Record, env: Path)
    requires SiteOk(site) && Selects(site, record, env)
    ensures SelectsInside(record, env) && record.selected != map[]
    ensures NamesEnvironment(site.components, record, env)
  {
    assert site.components[0] in record.selected;
  }

  // ------------------------------------------------------------ one write at a time

  /** Two hosts differing at most in one directory. */
  ghost predicate SameBut(host: Host, after: Host, env: Path) {
    && after.record == host.record
    && after.link == host.link
    && forall path :: path != env ==>
         && (path in host.dirs <==> path in after.dirs)
         && (path in host.dirs ==> after.dirs[path] == host.dirs[path])
  }

  /** Whatever happens to a directory nothing uses changes nothing that matters. */
  lemma UnusedDirectory(site: Site, host: Host, after: Host, env: Path)
    requires SiteOk(site) && IsEnv(site, env)
    requires Sound(site, host) && Idle(host, env) && SameBut(host, after, env)
    ensures Sound(site, after) && Idle(after, env)
    ensures Consistent(site, host) ==> Consistent(site, after)
  {
    if host.record.selected != map[] {
      var chosen :| Selects(site, host.record, chosen) && Selectable(site, host, chosen);
      SelectsIsInside(site, host.record, chosen);
      assert Selectable(site, after, chosen);
    }
    forall path | path in after.dirs && Selects(site, after.record, path)
      ensures path in host.dirs && host.dirs[path] == after.dirs[path]
    {
      SelectsIsInside(site, host.record, path);
    }
  }

  lemma NotThereIsIdle(site: Site, host: Host, env: Path)
    requires SiteOk(site) && IsEnv(site, env) && Sound(site, host) && env !in host.dirs
    ensures Idle(host, env)
  {
    if SelectsInside(host.record, env) {
      var chosen :| Selects(site, host.record, chosen) && Selectable(site, host, chosen);
      OneSelected(site, host.record, chosen, env);
    }
  }

  lemma DirectoryStands(site: Site, host: Host, env: Path, dir: Env)
    requires SiteOk(site) && IsEnv(site, env) && Sound(site, host) && Idle(host, env)
    ensures Sound(site, Put(host, env, dir)) && Idle(Put(host, env, dir), env)
    ensures Sound(site, Gone(host, env)) && Idle(Gone(host, env), env)
    ensures Consistent(site, host) ==>
              Consistent(site, Put(host, env, dir)) && Consistent(site, Gone(host, env))
  {
    UnusedDirectory(site, host, Put(host, env, dir), env);
    UnusedDirectory(site, host, Gone(host, env), env);
  }

  // ------------------------------------------------------------ writes to the record

  /** Another environment's installs are not disturbed by recording this run's. */
  lemma InstallsKeepOthers(site: Site, record: Record, run: Run, env: Path)
    requires SiteOk(site) && RunOk(site, run) && IsEnv(site, env) && env != run.env
    requires InstallRecorded(site, record, env)
    ensures InstallRecorded(site, PutInstalls(record, InstallsOf(site, run)), env)
  {
    var name :| name in site.components && name in record.components
                && HoldsInside(record.components[name], env);
    var kept :| kept in record.components[name].installs
                && kept.environment == env && Within(kept.location, env);
    var installs := InstallsOf(site, run);
    forall k | 0 <= k < |installs| ensures installs[k].1.location != kept.location {
      if installs[k].1.location == kept.location {
        SiblingsAreApart(kept.location, env, run.env);
      }
    }
    PutInstallsKeep(record, installs, name, kept);
    assert HoldsInside(PutInstalls(record, installs).components[name], env);
  }

  /** This run's own environment is recorded once its installs are. */
  lemma InstallsRecordOwn(site: Site, record: Record, run: Run)
    requires SiteOk(site) && RunOk(site, run)
    ensures InstallRecorded(site, PutInstalls(record, InstallsOf(site, run)), run.env)
  {
    var installs := InstallsOf(site, run);
    var last := |installs| - 1;
    var name := site.components[last];
    PutInstallsRecord(record, installs, last);
    assert installs[last].1 in PutInstalls(record, installs).components[name].installs;
    assert Within(run.located[name], run.env);
    assert HoldsInside(PutInstalls(record, installs).components[name], run.env);
  }

  lemma PointsKeepInstalls(site: Site, record: Record, points: seq<(string, Point)>, env: Path)
    requires InstallRecorded(site, record, env)
    ensures InstallRecorded(site, AddPoints(record, points), env)
  {
    AddPointsFrame(record, points);
  }

  lemma DroppingKeepsOthers(site: Site, record: Record, env: Path, dropped: Path)
    requires InstallRecorded(site, record, env) && env != dropped
    ensures InstallRecorded(site, DropEnvironment(record, dropped), env)
  {
    var name :| name in site.components && name in record.components
                && HoldsInside(record.components[name], env);
    var kept :| kept in record.components[name].installs
                && kept.environment == env && Within(kept.location, env);
    assert kept in DropEnvironment(record, dropped).components[name].installs;
  }

  /** A record write that touches neither selection nor entry, and forgets no environment that
      is selected or pointed at, keeps everything. */
  lemma RecordBesides(site: Site, host: Host, after: Host)
    requires SiteOk(site) && Sound(site, host)
    requires after == host.(record := after.record)
    requires after.record.selected == host.record.selected && after.record.pointer == host.record.pointer
    requires forall env :: env in host.dirs && InstallRecorded(site, host.record, env)
                           && (Selects(site, host.record, env) || host.link == To(env))
                           ==> InstallRecorded(site, after.record, env)
    ensures Sound(site, after)
    ensures Consistent(site, host) ==> Consistent(site, after)
    ensures forall env :: Idle(host, env) ==> Idle(after, env)
  {
    if host.record.selected != map[] {
      var chosen :| Selects(site, host.record, chosen) && Selectable(site, host, chosen);
      assert Selects(site, after.record, chosen) && Selectable(site, after, chosen);
    }
    forall env | env in after.dirs && Selects(site, after.record, env)
      ensures Selects(site, host.record, env)
    {
    }
  }

  lemma RecordingStands(site: Site, host: Host, run: Run)
    requires SiteOk(site) && RunOk(site, run) && Sound(site, host)
    ensures var after := Apply(host, NOTHING.(installs := InstallsOf(site, run)));
            && Sound(site, after) && (Consistent(site, host) ==> Consistent(site, after))
            && (Idle(host, run.env) ==> Idle(after, run.env))
            && InstallRecorded(site, after.record, run.env) && after.dirs == host.dirs
  {
    var record, installs := host.record, InstallsOf(site, run);
    var written := PutInstalls(record, installs);
    WritesInstalls(record, installs);
    PutInstallsFrame(record, installs);
    InstallsRecordOwn(site, record, run);
    forall env | env in host.dirs && InstallRecorded(site, record, env)
      ensures InstallRecorded(site, written, env)
    {
      if env != run.env { InstallsKeepOthers(site, record, run, env); }
    }
    RecordBesides(site, host, host.(record := written));
  }

  lemma MeasuringStands(site: Site, host: Host, run: Run)
    requires SiteOk(site) && RunOk(site, run) && Sound(site, host)
    requires InstallRecorded(site, host.record, run.env)
    ensures var after := Apply(host, NOTHING.(points := run.points));
            && Sound(site, after) && (Consistent(site, host) ==> Consistent(site, after))
            && (Idle(host, run.env) ==> Idle(after, run.env))
            && InstallRecorded(site, after.record, run.env) && after.dirs == host.dirs
  {
    var record := host.record;
    var written := AddPoints(record, run.points);
    WritesPoints(record, run.points);
    AddPointsFrame(record, run.points);
    forall env | InstallRecorded(site, record, env)
      ensures InstallRecorded(site, written, env)
    {
      PointsKeepInstalls(site, record, run.points, env);
    }
    RecordBesides(site, host, host.(record := written));
  }

  lemma ReleasingStands(site: Site, host: Host, run: Run)
    requires SiteOk(site) && RunOk(site, run) && Sound(site, host) && Idle(host, run.env)
    ensures var after := Apply(host, NOTHING.(dropEnvironment := Some(run.env)));
            && Sound(site, after) && (Consistent(site, host) ==> Consistent(site, after))
            && Idle(after, run.env)
  {
    var record := host.record;
    var written := DropEnvironment(record, run.env);
    WritesDrop(record, run.env);
    forall env | env in host.dirs && InstallRecorded(site, record, env)
                 && (Selects(site, record, env) || host.link == To(env))
      ensures InstallRecorded(site, written, env)
    {
      if Selects(site, record, env) { SelectsIsInside(site, record, env); }
      DroppingKeepsOthers(site, record, env, run.env);
    }
    RecordBesides(site, host, host.(record := written));
  }

  // ------------------------------------------------------------ the promotion and its rollback

  /** Committing selects the candidate; nothing else moves. */
  lemma CommitSelects(site: Site, host: Host, run: Run)
    requires SiteOk(site) && RunOk(site, run)
    ensures var after := Commit(site, host, run);
            && after.record.components == host.record.components
            && after.record.selected == host.record.selected + run.located
            && after.link == host.link && after.dirs == host.dirs
            && Stamped(site, after)
  {
    var stamp := Stamp(site, run);
    assert PATH in stamp;
    WritesCommit(host.record, run.located, stamp);
    var entry := host.record.pointer.GetOr(map[]) + stamp;
    assert entry[PATH] == Named(site.pointer);
    assert entry[RECORDED_AT] == Text(run.recordedAt) && entry[RECORDED_BY] == Text(run.recordedBy);
  }

  /** A host whose selection is this run's environment stands, whatever its link names among the
      recorded environments. */
  lemma RunStands(site: Site, host: Host, run: Run)
    requires SiteOk(site) && RunOk(site, run)
    requires Selects(site, host.record, run.env) && Selectable(site, host, run.env)
    requires forall path | path in host.dirs :: IsEnv(site, path)
    requires host.link != NotALink
    requires host.link.To? ==> host.link.target in host.dirs
                               && InstallRecorded(site, host.record, host.link.target)
    ensures Sound(site, host)
    ensures host.link == To(run.env) || host.dirs[run.env].claim != Complete ==> Agree(site, host)
  {
    SelectsIsInside(site, host.record, run.env);
    forall env | env in host.dirs && Selects(site, host.record, env)
      ensures env == run.env
    {
      OneSelected(site, host.record, env, run.env);
    }
  }

  /** On a sound host a commit leaves exactly the run's own selection. */
  lemma CommitSelectsTheRun(site: Site, host: Host, run: Run)
    requires SiteOk(site) && RunOk(site, run) && Sound(site, host)
    ensures Commit(site, host, run).record.selected == run.located
    ensures Selects(site, Commit(site, host, run).record, run.env)
    ensures Before(Commit(site, host, run), FoundAt(host)) == host
  {
    CommitSelects(site, host, run);
    assert run.located.Keys >= host.record.selected.Keys by {
      if host.record.selected != map[] {
        var chosen :| Selects(site, host.record, chosen) && Selectable(site, host, chosen);
      }
    }
  }

  /** Everything a committed run needs in order to finish, or to go back. */
  lemma CommitStands(site: Site, host: Host, run: Run, clean: bool)
    requires SiteOk(site) && RunOk(site, run)
    requires Sound(site, host) && (clean ==> Consistent(site, host))
    requires Claimed(host, run) && InstallRecorded(site, host.record, run.env)
    ensures var after := Commit(site, host, run);
            && Sound(site, after) && Consistent(site, after) && Stamped(site, after)
            && CanGoBack(site, after, run, FoundAt(host), clean)
            && after.link == host.link && SelectsInside(after.record, run.env)
  {
    var after := Commit(site, host, run);
    CommitSelects(site, host, run);
    CommitSelectsTheRun(site, host, run);
    SelectsIsInside(site, after.record, run.env);
    hide Commit, Before, SelectsInside, Selects, SelectionStands;
    assert Selectable(site, after, run.env) && Unfinished(site, after, run);
    RunStands(site, after, run);
  }

  /** The link a selected run places, and the claim it settles on it, keep the host standing. */
  lemma PlacingStands(site: Site, host: Host, run: Run, clean: bool)
    requires SiteOk(site) && RunOk(site, run)
    requires Sound(site, host) && Unfinished(site, host, run)
    requires host.link == To(run.env) || Stamped(site, host)
    requires clean ==> Consistent(site, host)
    ensures var placed := host.(link := To(run.env));
            && Sound(site, placed) && Unfinished(site, placed, run)
            && (clean ==> Consistent(site, placed))
    ensures host.link == To(run.env) ==>
              var settled := SetClaim(host, run.env, Complete);
              && Sound(site, settled) && SelectsInside(settled.record, run.env)
              && SelectsInside(host.record, run.env)
              && (clean ==> Consistent(site, settled))
  {
    SelectsIsInside(site, host.record, run.env);
    RunStands(site, host.(link := To(run.env)), run);
    if host.link == To(run.env) {
      RunStands(site, SetClaim(host, run.env, Complete), run);
    }
  }

  /** Placing the link takes nothing away from a rollback that may follow. */
  lemma PlacingKeepsTheWayBack(site: Site, host: Host, run: Run, found: Found, clean: bool)
    ensures var placed := host.(link := To(run.env));
            && (CanGoBack(site, host, run, found, clean) ==> CanGoBack(site, placed, run, found, clean))
            && (CanHandBack(site, host, run, found, clean) ==> CanHandBack(site, placed, run, found, clean))
            && (Stamped(site, host) ==> Stamped(site, placed))
  {
    assert Before(host.(link := To(run.env)), found) == Before(host, found);
  }

  lemma EntryRollbackLands(site: Site, host: Host, found: Found)
    requires Stamped(site, host)
    ensures Apply(host, EntryRollback(site, found))
            == host.(record := host.record.(pointer := WantedEntry(found)))
  {
    WritesEntry(host.record, site.pointer, WantedEntry(found).GetOr(map[]));
  }

  /** The entry a rollback leaves still speaks of the pointer path, and keeps its evidence
      wherever the link it speaks of is there. */
  lemma WantedEntryOwned(site: Site, host: Host, found: Found)
    requires LinkOwned(site, host.(link := found.link, record := host.record.(pointer := found.entry)))
    ensures LinkOwned(site, host.(link := found.link, record := host.record.(pointer := WantedEntry(found))))
  {
  }

  /** Putting the link back leaves everything a rollback still needs. */
  lemma LinkBackStands(site: Site, host: Host, run: Run, found: Found, clean: bool)
    requires SiteOk(site) && RunOk(site, run)
    requires Sound(site, host) && CanGoBack(site, host, run, found, clean) && Stamped(site, host)
    ensures found.link != NotALink && (host.link == found.link || host.link == To(run.env))
    ensures var back := host.(link := found.link);
            && Sound(site, back) && Consistent(site, back)
            && CanGoBack(site, back, run, found, clean) && Stamped(site, back)
  {
    var back := host.(link := found.link);
    RunStands(site, back, run);
    assert Before(back, found) == Before(host, found);
  }

  lemma EntryBackStands(site: Site, host: Host, run: Run, found: Found, clean: bool)
    requires SiteOk(site) && RunOk(site, run)
    requires Sound(site, host) && CanGoBack(site, host, run, found, clean) && Stamped(site, host)
    ensures var back := Apply(host, EntryRollback(site, found));
            && Sound(site, back) && CanGoBack(site, back, run, found, clean)
            && back.record.pointer == WantedEntry(found) && back.link == host.link
            && (clean && host.link == found.link ==> Consistent(site, back))
  {
    EntryRollbackLands(site, host, found);
    var back := host.(record := host.record.(pointer := WantedEntry(found)));
    RunStands(site, back, run);
    assert Before(back, found) == Before(host, found);
    if clean { WantedEntryOwned(site, host, found); }
  }

  /** Where every selection is still this run's, the rollback puts back exactly what it found. */
  lemma SelectionRollbackLands(site: Site, host: Host, run: Run, previous: map<string, Path>)
    requires host.record.selected == run.located && previous.Keys <= run.located.Keys
    ensures Apply(host, SelectionRollback(host.record, run, previous))
            == host.(record := host.record.(selected := previous))
  {
    var delta := SelectionRollback(host.record, run, previous);
    WritesSelection(host.record, delta.select, delta.deselect);
    assert delta.select == previous;
    assert Deselected(host.record.selected + delta.select, delta.deselect) == previous;
  }

  /** With the selection back the host is the one the promotion found, but for the candidate's
      own bookkeeping and the evidence an absent link cost the entry. */
  lemma SelectionBackStands(site: Site, host: Host, run: Run, found: Found, clean: bool)
    requires SiteOk(site) && RunOk(site, run)
    requires Sound(site, host) && CanGoBack(site, host, run, found, clean)
    requires clean ==> host.link == found.link && host.record.pointer == WantedEntry(found)
    ensures var back := Apply(host, SelectionRollback(host.record, run, found.selected));
            && Sound(site, back) && (clean ==> Consistent(site, back))
            && back == host.(record := host.record.(selected := found.selected))
  {
    assert found.selected.Keys <= run.located.Keys by {
      if found.selected != map[] {
        var chosen :| Selects(site, Before(host, found).record, chosen);
      }
    }
    SelectionRollbackLands(site, host, run, found.selected);
    var after := host.(record := host.record.(selected := found.selected));
    var was := Before(host, found);
    if found.selected != map[] {
      var chosen :| Selects(site, was.record, chosen) && Selectable(site, was, chosen);
      assert Selects(site, after.record, chosen) && Selectable(site, after, chosen);
    }
    forall env | env in after.dirs && Selects(site, after.record, env)
      ensures Selects(site, was.record, env)
    {
    }
    if clean { WantedEntryOwned(site, host, found); }
  }

  lemma OwnStands(site: Site, host: Host, run: Run, found: Found, clean: bool)
    requires SiteOk(site) && RunOk(site, run) && Sound(site, host)
    requires CanHandBack(site, host, run, found, clean) && found == FoundAt(host)
    ensures var after := Own(site, host, run);
            && Sound(site, after) && Consistent(site, after) && Stamped(site, after)
            && CanHandBack(site, after, run, found, clean) && after.link == found.link
  {
    OwnStamps(site, host, run);
    RunStands(site, Own(site, host, run), run);
    assert Before(Own(site, host, run), found) == Before(host, found);
  }

  lemma LinkHandedBackStands(site: Site, host: Host, run: Run, found: Found, clean: bool)
    requires SiteOk(site) && RunOk(site, run)
    requires Sound(site, host) && CanHandBack(site, host, run, found, clean) && Stamped(site, host)
    ensures found.link != NotALink && (host.link == found.link || host.link == To(run.env))
    ensures var back := host.(link := found.link);
            && Sound(site, back) && Consistent(site, back)
            && CanHandBack(site, back, run, found, clean) && Stamped(site, back)
  {
    var back := host.(link := found.link);
    RunStands(site, back, run);
    assert Before(back, found) == Before(host, found);
  }

  lemma EntryHandedBackStands(site: Site, host: Host, run: Run, found: Found, clean: bool)
    requires SiteOk(site) && RunOk(site, run)
    requires Sound(site, host) && CanHandBack(site, host, run, found, clean) && Stamped(site, host)
    ensures var back := Apply(host, EntryRollback(site, found));
            && Sound(site, back) && (clean && host.link == found.link ==> Consistent(site, back))
  {
    EntryRollbackLands(site, host, found);
    RunStands(site, host.(record := host.record.(pointer := WantedEntry(found))), run);
    if clean { WantedEntryOwned(site, host, found); }
  }

  lemma OwnStamps(site: Site, host: Host, run: Run)
    requires RunOk(site, run)
    ensures var after := Own(site, host, run);
            && after == host.(record := host.record.(pointer := after.record.pointer))
            && Stamped(site, after)
  {
    var stamp := Stamp(site, run);
    assert PATH in stamp;
    WritesCommit(host.record, map[], stamp);
    assert host.record.selected + map[] == host.record.selected;
    var entry := host.record.pointer.GetOr(map[]) + stamp;
    assert entry[PATH] == Named(site.pointer);
    assert entry[RECORDED_AT] == Text(run.recordedAt) && entry[RECORDED_BY] == Text(run.recordedBy);
  }

  /** A selection inside one environment is a selection of that environment. */
  lemma ChosenIs(site: Site, host: Host, env: Path)
    requires SiteOk(site) && IsEnv(site, env) && Sound(site, host) && SelectsInside(host.record, env)
    ensures Selects(site, host.record, env) && Selectable(site, host, env)
  {
    var chosen :| Selects(site, host.record, chosen) && Selectable(site, host, chosen);
    OneSelected(site, host.record, chosen, env);
  }

  lemma OwningStands(site: Site, host: Host, run: Run, clean: bool)
    requires Sound(site, host) && (clean ==> Consistent(site, host))
    requires Selects(site, host.record, run.env) && Selectable(site, host, run.env)
    requires host.dirs[run.env].claim != Complete
    ensures AtPhase(site, host, run, Owning(FoundAt(host)), clean)
  {
    assert Before(host, FoundAt(host)) == host;
  }

  /** What the staging decision goes on to do, and where. */
  lemma DecidesOnWhatItReads(site: Site, host: Host, run: Run)
    ensures var next := Decided(site, host, run);
            && (next.Owning? ==> next.found == FoundAt(host) && SelectsInside(host.record, run.env)
                                 && Look(host, run.env).claim != Complete)
            && (next.Clearing? || next.Reclaiming? ==> run.env in host.dirs && Idle(host, run.env))
            && (next.Making? ==> run.env !in host.dirs)
            && (next.Owning? || next.Clearing? || next.Reclaiming? || next.Making? || next.Done?)
  {
  }

  /** Resuming is decided only for the environment the record selects, and a directory is taken
      over or removed only where nothing uses it. */
  lemma DecisionStands(site: Site, host: Host, run: Run, clean: bool)
    requires SiteOk(site) && RunOk(site, run)
    requires Sound(site, host) && (clean ==> Consistent(site, host))
    ensures AtPhase(site, host, run, Decided(site, host, run), clean)
  {
    DecidesOnWhatItReads(site, host, run);
    hide Sound, Consistent, Decided, SelectsInside, Selects, Selectable, CanHandBack;
    if Decided(site, host, run).Owning? {
      ChosenIs(site, host, run.env);
      SelectableIsThere(site, host, run.env);
      OwningStands(site, host, run, clean);
    }
  }

  lemma SelectableIsThere(site: Site, host: Host, env: Path)
    requires Selectable(site, host, env)
    ensures env in host.dirs
  {
  }

  // ------------------------------------------------------------ every run, every kill

  /** Taking a directory, claiming it and building in it. */
  lemma TakingKeeps(site: Site, host: Host, run: Run, phase: Phase, clean: bool, outcome: Outcome)
    requires SiteOk(site) && RunOk(site, run) && Keeping(site, host, run, phase, clean)
    requires phase.Clearing? || phase.Emptying? || phase.Reclaiming? || phase.Making? || phase.Locking?
             || phase.Claiming? || phase.Building? || phase.Removing?
    ensures Kept(site, host, run, phase, clean, outcome)
  {
    hide Sound, Consistent, InstallRecorded, Apply, SelectsInside, IsEnv, RollbackWrite, AtRollback;
    var env, dir := run.env, Look(host, run.env);
    match phase
    case Making =>
      NotThereIsIdle(site, host, env);
      DirectoryStands(site, host, env, Env(NoClaim, false, false));
    case Clearing => DirectoryStands(site, host, env, dir.(claim := NoClaim, lock := false));
    case Locking => DirectoryStands(site, host, env, dir.(lock := true));
    case Claiming => DirectoryStands(site, host, env, dir.(claim := Staged));
    case Building => DirectoryStands(site, host, env, dir.(occupied := true));
    case _ => DirectoryStands(site, host, env, dir);
  }

  /** Recording installs and points, and dropping a candidate's. */
  lemma BookkeepingKeeps(site: Site, host: Host, run: Run, phase: Phase, clean: bool, outcome: Outcome)
    requires SiteOk(site) && RunOk(site, run) && Keeping(site, host, run, phase, clean)
    requires phase.Built? || phase.Measured? || phase.Releasing?
    ensures Kept(site, host, run, phase, clean, outcome)
  {
    hide Sound, Consistent, InstallRecorded, Apply, SelectsInside, IsEnv, RollbackWrite, AtRollback;
    match phase
    case Built => RecordingStands(site, host, run);
    case Measured => MeasuringStands(site, host, run);
    case Releasing(looks) =>
      if !Keeps(host, run, looks) {
        NotKeptIsIdle(site, host, run, looks);
        ReleasingStands(site, host, run);
      }
  }

  lemma NotKeptIsIdle(site: Site, host: Host, run: Run, looks: bool)
    requires !Keeps(host, run, looks)
    requires looks || SelectsInside(host.record, run.env) || host.link != To(run.env)
    ensures Idle(host, run.env)
  {
  }

  lemma PromotionKeeps(site: Site, host: Host, run: Run, phase: Phase, clean: bool, outcome: Outcome)
    requires SiteOk(site) && RunOk(site, run) && Keeping(site, host, run, phase, clean)
    requires phase.Promoting? || phase.Committed? || phase.Settling?
    ensures Kept(site, host, run, phase, clean, outcome)
  {
    hide Sound, Consistent, InstallRecorded, SelectsInside, IsEnv, Unfinished, CanGoBack, CanHandBack,
         Stamped, Commit, Own, Decided, MayPromote, SetClaim, BuildWrite, RollbackWrite;
    match phase
    case Promoting => CommitStands(site, host, run, clean);
    case Committed(found) =>
      WayBackIsUnfinished(site, host, run, found, clean);
      PlacingStands(site, host, run, clean);
      PlacingKeepsTheWayBack(site, host, run, found, clean);
    case Settling => PlacingStands(site, host, run, clean);
  }

  lemma ResumeKeeps(site: Site, host: Host, run: Run, phase: Phase, clean: bool, outcome: Outcome)
    requires SiteOk(site) && RunOk(site, run) && Keeping(site, host, run, phase, clean)
    requires phase.Owning? || phase.Pointing? || phase.Completing?
    ensures Kept(site, host, run, phase, clean, outcome)
  {
    hide Sound, Consistent, InstallRecorded, SelectsInside, IsEnv, Unfinished, CanGoBack, CanHandBack,
         Stamped, Commit, Own, Decided, MayPromote, SetClaim, BuildWrite, RollbackWrite;
    match phase
    case Owning(found) => OwnStands(site, host, run, found, clean);
    case Pointing(found) =>
      WayBackIsUnfinished(site, host, run, found, clean);
      PlacingStands(site, host, run, clean);
      PlacingKeepsTheWayBack(site, host, run, found, clean);
    case Completing => PlacingStands(site, host, run, clean);
  }

  lemma WayBackIsUnfinished(site: Site, host: Host, run: Run, found: Found, clean: bool)
    requires CanGoBack(site, host, run, found, clean) || CanHandBack(site, host, run, found, clean)
    ensures Unfinished(site, host, run)
  {
  }

  /** What a rollback can still reach does not depend on the rollback having gone well so far. */
  lemma UncleanWayBack(site: Site, host: Host, run: Run, found: Found, clean: bool)
    ensures CanGoBack(site, host, run, found, clean) ==> CanGoBack(site, host, run, found, false)
    ensures CanHandBack(site, host, run, found, clean) ==> CanHandBack(site, host, run, found, false)
  {
  }

  lemma GoingBackKeeps(site: Site, host: Host, run: Run, phase: Phase, clean: bool, outcome: Outcome)
    requires SiteOk(site) && RunOk(site, run) && Keeping(site, host, run, phase, clean)
    requires phase.Unlinking? || phase.Disowning? || phase.Deselecting?
    ensures Kept(site, host, run, phase, clean, outcome)
  {
    hide Sound, Consistent, CanGoBack, CanHandBack, Stamped, Apply, WantedEntry, BuildWrite;
    UncleanWayBack(site, host, run, phase.found, clean);
    UncleanWayBack(site, RollbackWrite(site, host, run, phase, outcome).0, run, phase.found, clean);
    match phase
    case Unlinking(found) => LinkBackStands(site, host, run, found, clean);
    case Disowning(found) => EntryBackStands(site, host, run, found, clean);
    case Deselecting(found) => SelectionBackStands(site, host, run, found, clean);
  }

  lemma HandingBackKeeps(site: Site, host: Host, run: Run, phase: Phase, clean: bool, outcome: Outcome)
    requires SiteOk(site) && RunOk(site, run) && Keeping(site, host, run, phase, clean)
    requires phase.Returning? || phase.Relinquishing?
    ensures Kept(site, host, run, phase, clean, outcome)
  {
    hide Sound, Consistent, CanGoBack, CanHandBack, Stamped, Apply, WantedEntry, BuildWrite;
    UncleanWayBack(site, host, run, phase.found, clean);
    UncleanWayBack(site, RollbackWrite(site, host, run, phase, outcome).0, run, phase.found, clean);
    match phase
    case Returning(found) => LinkHandedBackStands(site, host, run, found, clean);
    case Relinquishing(found) => EntryHandedBackStands(site, host, run, found, clean);
  }

  lemma DecidingKeeps(site: Site, host: Host, run: Run, phase: Phase, clean: bool, outcome: Outcome)
    requires SiteOk(site) && RunOk(site, run) && Keeping(site, host, run, phase, clean)
    requires phase.Deciding? || phase.Done?
    ensures Kept(site, host, run, phase, clean, outcome)
  {
    hide Sound, Consistent, Decided;
    DecisionStands(site, host, run, clean);
    assert AtPhase(site, host, run, Done, clean);
    hide AtPhase;
  }

  lemma WriteKeeps(site: Site, host: Host, run: Run, phase: Phase, clean: bool, outcome: Outcome)
    requires SiteOk(site) && RunOk(site, run) && Keeping(site, host, run, phase, clean)
    ensures Kept(site, host, run, phase, clean, outcome)
  {
    hide Keeping, Kept;
    if phase.Built? || phase.Measured? || phase.Releasing? {
      BookkeepingKeeps(site, host, run, phase, clean, outcome);
    } else if Builds(phase) { TakingKeeps(site, host, run, phase, clean, outcome); }
    else if phase.Returning? || phase.Relinquishing? {
      HandingBackKeeps(site, host, run, phase, clean, outcome);
    } else if RollsBack(phase) { GoingBackKeeps(site, host, run, phase, clean, outcome); }
    else if phase.Promoting? || phase.Committed? || phase.Settling? {
      PromotionKeeps(site, host, run, phase, clean, outcome);
    } else if phase.Owning? || phase.Pointing? || phase.Completing? {
      ResumeKeeps(site, host, run, phase, clean, outcome);
    } else {
      DecidingKeeps(site, host, run, phase, clean, outcome);
    }
  }

  lemma MoveKeeps(site: Site, system: System, move: Move)
    requires SiteOk(site) && Invariant(site, system)
    ensures Invariant(site, Moved(site, system, move))
  {
    hide Sound, Consistent, Act;
    if move.Write? && system.run.Some? {
      var (run, phase) := system.run.value;
      WriteKeeps(site, system.host, run, phase, system.clean, move.outcome);
    }
  }

  /** The crash invariant: after any starts, writes and kills in any order, the selection names
      one existing environment for all components, the owned link leads to an existing recorded one,
      and -- as long as no rollback write has failed -- the two agree or the selected environment
      is the unfinished one. */
  lemma {:induction false} CrashSafe(site: Site, system: System, moves: seq<Move>)
    requires SiteOk(site) && Invariant(site, system)
    ensures Invariant(site, After(site, system, moves))
    decreases |moves|
  {
    if moves != [] {
      var last := |moves| - 1;
      CrashSafe(site, system, moves[..last]);
      MoveKeeps(site, After(site, system, moves[..last]), moves[last]);
    }
  }

  const CLEAN_HOST := Host(EMPTY, Absent, map[])

  /** A host nothing was ever installed on satisfies the invariant, and so does one holding a
      single selected installation older than claims and no pointer. */
  lemma StartingPoints(site: Site, env: Path, located: map<string, Path>, installs: map<string, Component>)
    requires SiteOk(site)
    ensures Invariant(site, System(CLEAN_HOST, None, true))
    ensures var record := Record(located, installs, None);
            var host := Host(record, Absent, map[env := Env(NoClaim, false, true)]);
            IsEnv(site, env) && Selects(site, record, env) && InstallRecorded(site, record, env) ==>
              Invariant(site, System(host, None, true))
  {
    var record := Record(located, installs, None);
    var host := Host(record, Absent, map[env := Env(NoClaim, false, true)]);
    if IsEnv(site, env) && Selects(site, record, env) && InstallRecorded(site, record, env) {
      SelectsIsInside(site, record, env);
      assert Selectable(site, host, env);
      assert SelectionStands(site, host);
    }
    assert site.components[0] !in CLEAN_HOST.record.selected;
  }
}
