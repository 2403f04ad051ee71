/** The install and promotion protocol, one atomic write at a time.

    A run is a program counter over its own writes. Each write either lands, fails without
    landing, or lands and raises all the same; the run then goes on or takes its failure path.
    A kill may fall between any two writes. */
module Promotion {
  import opened Wrappers
  import opened Paths
  import opened HostRecord
  import opened Staging

  // ------------------------------------------------------------ the host

  datatype Link = Absent | To(target: Path) | NotALink

  /** An environment directory: its claim, whether a lock file is in it, whether it holds
      anything besides those two. */
  datatype Env = Env(claim: Claim, lock: bool, occupied: bool)

  datatype Host = Host(record: Record, link: Link, dirs: map<Path, Env>)

  /** What the definition and the command line fix for every run. */
  datatype Site = Site(components: seq<string>, destination: Path, pointer: Path)

  /** What one run works with: the environment its sources name, the locations it reads back,
      the points it measures, and the evidence it stamps on the ownership entry. */
  datatype Run = Run(env: Path, located: map<string, Path>, points: seq<(string, Point)>,
                     recordedAt: string, recordedBy: string)

  predicate SiteOk(site: Site) {
    site.components != []
  }

  function Names(site: Site): set<string> {
    set name | name in site.components
  }

  /** A directory directly under the destination. */
  predicate IsEnv(site: Site, path: Path) {
    Within(path, site.destination) && |path| == |site.destination| + 1
  }

  /** Every component is located inside the environment, and the stamp says something: the
      command refuses a blank issue before it reads anything. */
  predicate RunOk(site: Site, run: Run) {
    && IsEnv(site, run.env)
    && run.located.Keys == Names(site)
    && (forall name | name in run.located :: Within(run.located[name], run.env))
    && Stated(Text(run.recordedAt)) && Stated(Text(run.recordedBy))
  }

  function Look(host: Host, path: Path): Env {
    if path in host.dirs then host.dirs[path] else Env(NoClaim, false, false)
  }

  function Put(host: Host, path: Path, env: Env): Host {
    host.(dirs := host.dirs[path := env])
  }

  function Gone(host: Host, path: Path): Host {
    host.(dirs := host.dirs - {path})
  }

  function SetClaim(host: Host, path: Path, claim: Claim): Host {
    Put(host, path, Look(host, path).(claim := claim))
  }

  // ------------------------------------------------------------ readings

  /** Whether every recorded selection lies inside the root the link names. With nothing
      selected there is nothing the link could agree with. */
  predicate LinkAgrees(site: Site, record: Record, root: Path) {
    && (exists name :: name in site.components && name in record.selected)
    && forall name | name in site.components && name in record.selected ::
         Within(record.selected[name], root)
  }

  /** What a promotion asks about the pointer before it commits anything. */
  predicate MayPromote(site: Site, host: Host) {
    match host.link
    case Absent => true
    case NotALink => false
    case To(target) => PlacementRecorded(host.record.pointer) && LinkAgrees(site, host.record, target)
  }

  /** What finishing an interrupted promotion asks. */
  predicate MayResume(site: Site, host: Host, env: Path) {
    && NamesEnvironment(site.components, host.record, env)
    && match host.link
       case Absent => true
       case NotALink => false
       case To(target) =>
         && TargetIsRecorded(site.components, host.record, target)
         && var here := PointerEntryFor(host.record.pointer, site.pointer);
            here.Some? ==> PlacementRecorded(here)
  }

  /** What the staging decision reads for an existing directory. Nobody is alive: runs here
      follow one another, and the operating system drops a dead run's lock. */
  function Standing(host: Host, env: Path): Decision {
    var selects := SelectsInside(host.record, env);
    Decide(Look(host, env).claim, Dead, Some(Look(host, env).occupied),
           Protected(Some(selects), Some(host.link == To(env))), Some(selects))
  }

  // ------------------------------------------------------------ the writes

  function InstallsOf(site: Site, run: Run): seq<(string, Install)>
    requires RunOk(site, run)
  {
    seq(|site.components|, i requires 0 <= i < |site.components| =>
      (site.components[i], Install(run.located[site.components[i]], run.env)))
  }

  function Stamp(site: Site, run: Run): Entry {
    map[PATH := Named(site.pointer), RECORDED_AT := Text(run.recordedAt),
        RECORDED_BY := Text(run.recordedBy)]
  }

  function Apply(host: Host, delta: Delta): Host {
    host.(record := Updated(host.record, delta))
  }

  function Commit(site: Site, host: Host, run: Run): Host {
    Apply(host, NOTHING.(select := run.located, pointer := Stamp(site, run)))
  }

  function Own(site: Site, host: Host, run: Run): Host {
    Apply(host, NOTHING.(pointer := Stamp(site, run)))
  }

  /** What stands in the entry once a promotion or a resume has written it: the path under its key, the
      evidence under its two, and under every other what was there; a promotion selects its own locations
      over what was selected, a resume selects nothing. */
  lemma StampsEachKey(site: Site, host: Host, run: Run, key: string)
    ensures var was, committed, owned := host.record.pointer.GetOr(map[]), Commit(site, host, run), Own(site, host, run);
            && committed.record.pointer.Some? && owned.record.pointer == committed.record.pointer
            && var entry := committed.record.pointer.value;
               && "path" in entry && entry["path"] == Named(site.pointer)
               && "recordedAt" in entry && entry["recordedAt"] == Text(run.recordedAt)
               && "recordedBy" in entry && entry["recordedBy"] == Text(run.recordedBy)
               && (key != "path" && key != "recordedAt" && key != "recordedBy" ==>
                     (key in entry <==> key in was) && (key in was ==> entry[key] == was[key]))
    ensures Commit(site, host, run).record.selected == host.record.selected + run.located
    ensures Own(site, host, run).record.selected == host.record.selected
  {
    assert PATH in Stamp(site, run);
    WritesCommit(host.record, run.located, Stamp(site, run));
    WritesCommit(host.record, map[], Stamp(site, run));
    assert host.record.selected + map[] == host.record.selected;
  }

  /** What a promotion found, read inside the promotion lock before it wrote anything. */
  datatype Found = Found(link: Link, entry: Option<Entry>, selected: map<string, Path>)

  function FoundAt(host: Host): Found {
    Found(host.link, host.record.pointer, host.record.selected)
  }

  /** The entry a rollback means to leave: an inherited entry loses its placement evidence when
      the link it spoke of is established absent. */
  function WantedEntry(found: Found): Option<Entry> {
    var entry := found.entry.GetOr(map[]);
    if entry == map[] then None
    else Some(if found.link == Absent then WithoutPlacement(entry) else entry)
  }

  function EntryRollback(site: Site, found: Found): Delta {
    match WantedEntry(found)
    case None => NOTHING.(dropPointer := Some(site.pointer))
    case Some(entry) => NOTHING.(restorePointer := Some(Restore(site.pointer, entry)))
  }

  /** The selections still naming what this run wrote, sent back to what they were. */
  function SelectionRollback(record: Record, run: Run, previous: map<string, Path>): Delta {
    var mine := set name | name in run.located && name in record.selected
                           && record.selected[name] == run.located[name];
    NOTHING.(select := map name | name in mine && name in previous :: previous[name],
             deselect := map name | name in mine && name !in previous :: run.located[name])
  }

  // ------------------------------------------------------------ the run

  datatype Outcome = Fine | Fails | Raises

  datatype Phase =
    | Deciding
    | Clearing | Emptying                    // ADOPT: own files out, then rmdir
    | Reclaiming                             // RECLAIM: the abandoned staging is removed
    | Making | Locking | Claiming            // mkdir, lock file, STAGING claim
    | Building | Built | Measured            // packages; installs recorded; points recorded
    | Promoting                              // gate and guards; the selection is committed
    | Committed(found: Found)                // the link is placed
    | Settling                               // the COMPLETE claim is written
    | Unlinking(found: Found)                // rollback: the link
    | Disowning(found: Found)                // rollback: the ownership entry
    | Deselecting(found: Found)              // rollback: the selection
    | Releasing(looks: bool)                 // the candidate's installs are dropped
    | Removing                               // the candidate's directory is removed
    | Owning(found: Found) | Pointing(found: Found) | Completing   // finishing a promotion
    | Returning(found: Found) | Relinquishing(found: Found)        // its rollback
    | Done

  /** A single write: it lands and the run goes on, or the run takes its failure path with the
      write landed or not. */
  function Go(outcome: Outcome, before: Host, after: Host, next: Phase, failed: Phase): (Host, Phase) {
    match outcome
    case Fine => (after, next)
    case Fails => (before, failed)
    case Raises => (after, failed)
  }

  function Decided(site: Site, host: Host, run: Run): Phase {
    if run.env !in host.dirs then Making
    else
      match Standing(host, run.env)
      case Resume => if MayResume(site, host, run.env) then Owning(FoundAt(host)) else Done
      case Recorded => if MayResume(site, host, run.env) then Owning(FoundAt(host)) else Done
      case Adopt => Clearing
      case Reclaim => Reclaiming
      case _ => Done
  }

  /** Taking away the link this run placed, and only while it still names what it placed. */
  function Unlinked(outcome: Outcome, host: Host, run: Run, next: Phase, failed: Phase): (Host, Phase) {
    match host.link
    case Absent => (host, if outcome == Fine then next else failed)
    case To(target) =>
      if target == run.env then Go(outcome, host, host.(link := Absent), next, failed)
      else (host, failed)
    case NotALink => (host, failed)
  }

  /** The candidate is kept while the record selects it, or the pointer that was looked at
      names it. */
  predicate Keeps(host: Host, run: Run, looks: bool) {
    SelectsInside(host.record, run.env) || (looks && host.link == To(run.env))
  }

  /** Taking the directory, building in it and recording it. */
  predicate Builds(phase: Phase) {
    || phase.Clearing? || phase.Emptying? || phase.Reclaiming? || phase.Making? || phase.Locking?
    || phase.Claiming? || phase.Building? || phase.Built? || phase.Measured?
    || phase.Releasing? || phase.Removing?
  }

  /** Putting back what a promotion or a resume moved. */
  predicate RollsBack(phase: Phase) {
    || phase.Unlinking? || phase.Disowning? || phase.Deselecting?
    || phase.Returning? || phase.Relinquishing?
  }

  function BuildWrite(site: Site, host: Host, run: Run, phase: Phase, outcome: Outcome): (Host, Phase)
    requires RunOk(site, run) && Builds(phase)
  {
    var env := run.env;
    var dir := Look(host, env);
    match phase
    case Clearing =>
      Go(outcome, host, Put(host, env, dir.(claim := NoClaim, lock := false)), Emptying, Done)
    case Emptying =>
      if dir == Env(NoClaim, false, false) then Go(outcome, host, Gone(host, env), Making, Done)
      else (host, Done)
    case Reclaiming => Go(outcome, host, Gone(host, env), Making, Done)
    case Making =>
      if env in host.dirs then (host, Done)
      else Go(outcome, host, Put(host, env, Env(NoClaim, false, false)), Locking, Done)
    case Locking => Go(outcome, host, Put(host, env, dir.(lock := true)), Claiming, Releasing(false))
    case Claiming => Go(outcome, host, SetClaim(host, env, Staged), Building, Releasing(false))
    case Building => Go(outcome, host, Put(host, env, dir.(occupied := true)), Built, Releasing(false))
    case Built =>
      Go(outcome, host, Apply(host, NOTHING.(installs := InstallsOf(site, run))),
         Measured, Releasing(false))
    case Measured =>
      Go(outcome, host, Apply(host, NOTHING.(points := run.points)), Promoting, Releasing(false))
    case Releasing(looks) =>
      if Keeps(host, run, looks) then (host, Done)
      else Go(outcome, host, Apply(host, NOTHING.(dropEnvironment := Some(env))), Removing, Done)
    case Removing => Go(outcome, host, Gone(host, env), Done, Done)
  }

  function RollbackWrite(site: Site, host: Host, run: Run, phase: Phase, outcome: Outcome): (Host, Phase)
    requires RunOk(site, run) && RollsBack(phase)
  {
    match phase
    case Unlinking(found) =>
      (match found.link
       case Absent => Unlinked(outcome, host, run, Disowning(found), Deselecting(found))
       case To(_) => Go(outcome, host, host.(link := found.link), Disowning(found), Disowning(found))
       case NotALink => (host, Deselecting(found)))
    case Disowning(found) =>
      Go(outcome, host, Apply(host, EntryRollback(site, found)), Deselecting(found), Deselecting(found))
    case Deselecting(found) =>
      Go(outcome, host, Apply(host, SelectionRollback(host.record, run, found.selected)),
         Releasing(true), Releasing(true))
    case Returning(found) =>
      (match found.link
       case Absent => Unlinked(outcome, host, run, Relinquishing(found), Done)
       case To(_) =>
         Go(outcome, host, host.(link := found.link), Relinquishing(found), Relinquishing(found))
       case NotALink => (host, Done))
    case Relinquishing(found) =>
      Go(outcome, host, Apply(host, EntryRollback(site, found)), Done, Done)
  }

  function Act(site: Site, host: Host, run: Run, phase: Phase, outcome: Outcome): (Host, Phase)
    requires RunOk(site, run)
  {
    var env := run.env;
    if Builds(phase) then BuildWrite(site, host, run, phase, outcome)
    else if RollsBack(phase) then RollbackWrite(site, host, run, phase, outcome)
    else
      match phase
      case Deciding => (host, if outcome == Fine then Decided(site, host, run) else Done)
      case Promoting =>
        if !MayPromote(site, host) then (host, Releasing(true))
        else Go(outcome, host, Commit(site, host, run), Committed(FoundAt(host)), Releasing(true))
      case Committed(found) =>
        Go(outcome, host, host.(link := To(env)), Settling, Unlinking(found))
      case Settling => Go(outcome, host, SetClaim(host, env, Complete), Done, Releasing(false))
      case Owning(found) => Go(outcome, host, Own(site, host, run), Pointing(found), Done)
      case Pointing(found) =>
        Go(outcome, host, host.(link := To(env)), Completing, Returning(found))
      case Completing => Go(outcome, host, SetClaim(host, env, Complete), Done, Done)
      case Done => (host, Done)
  }

  // ------------------------------------------------------------ runs after one another

  /** The host, the run in progress if there is one, and whether every rollback write so far
      has landed. */
  datatype System = System(host: Host, run: Option<(Run, Phase)>, clean: bool)

  datatype Move = Start(run: Run) | Write(outcome: Outcome) | Kill

  function Moved(site: Site, system: System, move: Move): System
    requires system.run.Some? ==> RunOk(site, system.run.value.0)
  {
    match move
    case Start(run) =>
      if system.run == None && RunOk(site, run) then system.(run := Some((run, Deciding))) else system
    case Kill => system.(run := None)
    case Write(outcome) =>
      if system.run == None then system
      else
        var (run, phase) := system.run.value;
        var (host, next) := Act(site, system.host, run, phase, outcome);
        System(host, Some((run, next)),
               system.clean && (RollsBack(phase) ==> outcome == Fine))
  }

  /** The system after any list of moves: every interleaving of starts, writes and kills. */
  function After(site: Site, system: System, moves: seq<Move>): (after: System)
    requires system.run.Some? ==> RunOk(site, system.run.value.0)
    ensures after.run.Some? ==> RunOk(site, after.run.value.0)
  {
    if moves == [] then system
    else
      var before := After(site, system, moves[..|moves| - 1]);
      Moved(site, before, moves[|moves| - 1])
  }
}
