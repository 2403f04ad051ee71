/** The command as it runs: fields written one after another, in the order the program writes
    them. Every method is proved to do exactly what the transition system of Promotion does. */
module Installer {
  import opened Wrappers
  import opened Paths
  import opened HostRecord
  import opened Staging
  import opened Promotion
  import CrashSafety
  import Recovery

  /** What a run makes of a host when its writes go as listed and the process is killed at the end
      of the list. */
  function Replay(site: Site, host: Host, run: Run, phase: Phase, outcomes: seq<Outcome>): Host
    requires RunOk(site, run)
    decreases |outcomes|
  {
    if outcomes == [] || phase == Done then host
    else
      var written := Act(site, host, run, phase, outcomes[0]);
      Replay(site, written.0, run, written.1, outcomes[1..])
  }

  function WritesOf(outcomes: seq<Outcome>): (moves: seq<Move>)
    ensures |moves| == |outcomes|
  {
    seq(|outcomes|, i requires 0 <= i < |outcomes| => Write(outcomes[i]))
  }

  /** The command running alone is one of the executions the transition system allows. */
  lemma {:induction false} ReplayIsARun(site: Site, host: Host, run: Run, phase: Phase, clean: bool,
                                        outcomes: seq<Outcome>)
    requires RunOk(site, run)
    ensures After(site, System(host, Some((run, phase)), clean), WritesOf(outcomes)).host
            == Replay(site, host, run, phase, outcomes)
    decreases |outcomes|
  {
    if outcomes != [] {
      var moves := WritesOf(outcomes);
      var written := Act(site, host, run, phase, outcomes[0]);
      Recovery.FirstMove(site, System(host, Some((run, phase)), clean), moves);
      assert moves[1..] == WritesOf(outcomes[1..]);
      var goesOn := clean && (RollsBack(phase) ==> outcomes[0] == Fine);
      assert Moved(site, System(host, Some((run, phase)), clean), moves[0])
             == System(written.0, Some((run, written.1)), goesOn);
      if phase == Done {
        assert Act(site, host, run, phase, outcomes[0]) == (host, Done);
      }
      hide Act, Moved;
      ReplayIsARun(site, written.0, run, written.1, goesOn, outcomes[1..]);
    }
  }

  /** Wherever the command is killed and whichever of its writes failed, it leaves a sound host. */
  lemma CommandIsCrashSafe(site: Site, host: Host, run: Run, outcomes: seq<Outcome>)
    requires SiteOk(site) && RunOk(site, run)
    requires CrashSafety.Sound(site, host) && CrashSafety.Consistent(site, host)
    ensures CrashSafety.Sound(site, Replay(site, host, run, Deciding, outcomes))
  {
    var start := System(host, Some((run, Deciding)), true);
    ReplayIsARun(site, host, run, Deciding, true, outcomes);
    CrashSafety.CrashSafe(site, start, WritesOf(outcomes));
  }

  class Command {
    const site: Site
    const run: Run
    var record: Record
    var link: Link
    var dirs: map<Path, Env>
    /** How the writes still to come will go; the process dies when there are none. */
    var fates: seq<Outcome>

    constructor (site: Site, run: Run, host: Host, fates: seq<Outcome>)
      ensures this.site == site && this.run == run && State() == host && this.fates == fates
    {
      this.site, this.run := site, run;
      this.record, this.link, this.dirs := host.record, host.link, host.dirs;
      this.fates := fates;
    }

    function State(): Host
      reads this
    {
      Host(record, link, dirs)
    }

    /** What is left of this run from a phase on. */
    function Rest(phase: Phase): Host
      requires RunOk(site, run)
      reads this
    {
      Replay(site, State(), run, phase, fates)
    }

    method Next() returns (fate: Outcome)
      requires fates != []
      modifies this`fates
      ensures fate == old(fates)[0] && fates == old(fates)[1..]
    {
      fate := fates[0];
      fates := fates[1..];
    }

    /** The single writer: the record is loaded, every delta is applied to it, and it is saved. */
    method Update(delta: Delta, fate: Outcome) returns (ok: bool)
      modifies this`record
      ensures record == if fate == Fails then old(record) else Updated(old(record), delta)
      ensures ok <==> fate == Fine
    {
      var loaded := record;
      var i := 0;
      while i < |delta.installs|
        invariant 0 <= i <= |delta.installs|
        invariant PutInstalls(loaded, delta.installs[i..]) == PutInstalls(record, delta.installs)
        invariant record == old(record)
      {
        loaded := PutInstall(loaded, delta.installs[i].0, delta.installs[i].1);
        i := i + 1;
      }
      ghost var installed := loaded;
      i := 0;
      while i < |delta.points|
        invariant 0 <= i <= |delta.points|
        invariant AddPoints(loaded, delta.points[i..]) == AddPoints(installed, delta.points)
        invariant record == old(record)
      {
        loaded := AddPoint(loaded, delta.points[i].0, delta.points[i].1);
        i := i + 1;
      }
      if delta.dropEnvironment.Some? {
        loaded := Dropped(loaded, delta.dropEnvironment.value);
      }
      if delta.pointer != map[] {
        loaded := loaded.(pointer := Some(loaded.pointer.GetOr(map[]) + delta.pointer));
      }
      loaded := loaded.(selected := loaded.selected + delta.select);
      loaded := Deselect(loaded, delta.deselect);
      if delta.dropPointer.Some? && PointerEntryFor(loaded.pointer, delta.dropPointer.value).Some? {
        loaded := loaded.(pointer := None);
      }
      if delta.restorePointer.Some?
         && PointerEntryFor(loaded.pointer, delta.restorePointer.value.wrote).Some? {
        loaded := loaded.(pointer := Some(delta.restorePointer.value.found));
      }
      if fate != Fails { record := loaded; }
      ok := fate == Fine;
    }

    /** Each component's installs outside the environment are kept. */
    static method Dropped(loaded: Record, environment: Path) returns (after: Record)
      ensures after == DropEnvironment(loaded, environment)
    {
      var names := loaded.components.Keys;
      var components := loaded.components;
      while names != {}
        invariant names <= loaded.components.Keys == components.Keys
        invariant forall name | name in components ::
          components[name] == if name in names then loaded.components[name]
                              else DropEnvironment(loaded, environment).components[name]
      {
        var name :| name in names;
        components := components[name := components[name].(
                        installs := Outside(components[name].installs, environment))];
        names := names - {name};
      }
      after := loaded.(components := components);
    }

    /** An entry is taken away only while it still names what this run wrote. */
    static method Deselect(loaded: Record, gone: map<string, Path>) returns (after: Record)
      ensures after == loaded.(selected := Deselected(loaded.selected, gone))
    {
      var names := gone.Keys;
      var selected := loaded.selected;
      while names != {}
        invariant names <= gone.Keys
        invariant selected == Deselected(loaded.selected, map name | name in gone && name !in names :: gone[name])
      {
        var name :| name in names;
        if name in selected && selected[name] == gone[name] {
          selected := selected - {name};
        }
        names := names - {name};
      }
      assert (map name | name in gone && name !in names :: gone[name]) == gone;
      after := loaded.(selected := selected);
    }

    // ---------------------------------------------------------- releasing the candidate

    /** The candidate's installs and then its directory, unless something still uses it. */
    method InstallFailed(looks: bool)
      requires RunOk(site, run)
      modifies this
      ensures State() == old(Rest(Releasing(looks)))
    {
      hide Updated, Keeps;
      if fates == [] { return; }
      var kept := Keeps(State(), run, looks);
      var fate := Next();
      if kept {
        assert Rest(Done) == State();
        return;
      }
      var ok := Update(NOTHING.(dropEnvironment := Some(run.env)), fate);
      assert Rest(Done) == State();
      if ok { RemoveCandidate(); }
    }

    method RemoveCandidate()
      requires RunOk(site, run)
      modifies this
      ensures State() == old(Rest(Removing))
    {
      if fates == [] { return; }
      var fate := Next();
      if fate != Fails { dirs := dirs - {run.env}; }
      assert Rest(Done) == State();
    }

    // ---------------------------------------------------------- the link

    /** A temporary link is renamed over the path; the call can raise with the rename done. */
    method Place(target: Path, fate: Outcome) returns (ok: bool)
      modifies this`link
      ensures link == if fate == Fails then old(link) else To(target)
      ensures ok <==> fate == Fine
    {
      if fate != Fails { link := To(target); }
      ok := fate == Fine;
    }

    /** The link this run placed is removed, and only while it still names what it placed. */
    method Remove(expected: Path, fate: Outcome) returns (gone: bool)
      modifies this`link
      ensures link == if old(link) == To(expected) && fate != Fails then Absent else old(link)
      ensures gone <==> fate == Fine && old(link) in {Absent, To(expected)}
    {
      if link == To(expected) && fate != Fails {
        link := Absent;
        gone := fate == Fine;
      } else {
        gone := link == Absent && fate == Fine;
      }
    }

    /** The link goes back to what was found; then, only if it verifiably did, the entry does. */
    method RestorePointer(found: Found, resuming: bool)
      requires RunOk(site, run)
      modifies this
      ensures old(Rest(if resuming then Returning(found) else Unlinking(found)))
              == Rest(if resuming then Done else Deselecting(found))
    {
      hide Updated, EntryRollback;
      if fates == [] { return; }
      var fate := Next();
      var settled := false;
      match found.link {
        case Absent => settled := Remove(run.env, fate);
        case To(target) =>
          var _ := Place(target, fate);
          settled := true;
        case NotALink =>
      }
      if settled { RestoreOwnership(found, resuming); }
    }

    method RestoreOwnership(found: Found, resuming: bool)
      requires RunOk(site, run)
      modifies this
      ensures old(Rest(if resuming then Relinquishing(found) else Disowning(found)))
              == Rest(if resuming then Done else Deselecting(found))
    {
      hide Updated, EntryRollback;
      if fates == [] { return; }
      var fate := Next();
      var _ := Update(EntryRollback(site, found), fate);
    }

    /** The selections still naming what this run wrote go back to what they were. */
    method RestoreSelection(found: Found)
      requires RunOk(site, run)
      modifies this
      ensures old(Rest(Deselecting(found))) == Rest(Releasing(true))
    {
      hide Updated, SelectionRollback;
      if fates == [] { return; }
      var fate := Next();
      var _ := Update(SelectionRollback(record, run, found.selected), fate);
    }

    // ---------------------------------------------------------- the promotion

    /** Guards first, on readings taken here; then the selection is committed. */
    method Promote()
      requires RunOk(site, run)
      modifies this
      ensures State() == old(Rest(Promoting))
    {
      hide Updated, MayPromote;
      if fates == [] { return; }
      var found := FoundAt(State());
      var allowed := MayPromote(site, State());
      var fate := Next();
      var ok := false;
      if allowed { ok := Update(NOTHING.(select := run.located, pointer := Stamp(site, run)), fate); }
      if ok { MovePointer(found); } else { InstallFailed(true); }
    }

    /** The link follows the committed selection, or everything goes back. */
    method MovePointer(found: Found)
      requires RunOk(site, run)
      modifies this
      ensures State() == old(Rest(Committed(found)))
    {
      if fates == [] { return; }
      var fate := Next();
      var ok := Place(run.env, fate);
      if ok {
        SettleStaging();
      } else {
        RestorePointer(found, false);
        RestoreSelection(found);
        InstallFailed(true);
      }
    }

    method SettleStaging()
      requires RunOk(site, run)
      modifies this
      ensures State() == old(Rest(Settling))
    {
      if fates == [] { return; }
      var fate := Next();
      WriteClaim(Complete, fate);
      assert Rest(Done) == State();
      if fate != Fine { InstallFailed(false); }
    }

    method WriteClaim(claim: Claim, fate: Outcome)
      modifies this`dirs
      ensures State() == if fate == Fails then old(State()) else SetClaim(old(State()), run.env, claim)
    {
      var here := Look(State(), run.env);
      if fate != Fails { dirs := dirs[run.env := here.(claim := claim)]; }
    }

    // ---------------------------------------------------------- finishing a promotion

    /** The half a killed run did not write: the entry, the link, the claim. */
    method FinishPromotion()
      requires RunOk(site, run)
      modifies this
      ensures State() == old(Rest(Owning(FoundAt(State()))))
    {
      hide Updated;
      if fates == [] { return; }
      var found := FoundAt(State());
      var fate := Next();
      var ok := Update(NOTHING.(pointer := Stamp(site, run)), fate);
      assert Rest(Done) == State();
      if ok { MoveSelectedPointer(found); }
    }

    method MoveSelectedPointer(found: Found)
      requires RunOk(site, run)
      modifies this
      ensures State() == old(Rest(Pointing(found)))
    {
      if fates == [] { return; }
      var fate := Next();
      var ok := Place(run.env, fate);
      if ok { SettleResumed(); } else { RestorePointer(found, true); }
    }

    method SettleResumed()
      requires RunOk(site, run)
      modifies this
      ensures State() == old(Rest(Completing))
    {
      if fates == [] { return; }
      var fate := Next();
      WriteClaim(Complete, fate);
      assert Rest(Done) == State();
    }

    // ---------------------------------------------------------- building

    method RecordMeasurement()
      requires RunOk(site, run)
      modifies this
      ensures State() == old(Rest(Measured))
    {
      hide Updated;
      if fates == [] { return; }
      var fate := Next();
      var ok := Update(NOTHING.(points := run.points), fate);
      if ok { Promote(); } else { InstallFailed(false); }
    }

    method RecordInstalls()
      requires RunOk(site, run)
      modifies this
      ensures State() == old(Rest(Built))
    {
      hide Updated;
      if fates == [] { return; }
      var fate := Next();
      var ok := Update(NOTHING.(installs := InstallsOf(site, run)), fate);
      if ok { RecordMeasurement(); } else { InstallFailed(false); }
    }

    method BuildEnvironment()
      requires RunOk(site, run)
      modifies this
      ensures State() == old(Rest(Building))
    {
      if fates == [] { return; }
      var fate := Next();
      if fate != Fails { dirs := dirs[run.env := Look(State(), run.env).(occupied := true)]; }
      if fate == Fine { RecordInstalls(); } else { InstallFailed(false); }
    }

    method ClaimStaging()
      requires RunOk(site, run)
      modifies this
      ensures State() == old(Rest(Claiming))
    {
      if fates == [] { return; }
      var fate := Next();
      WriteClaim(Staged, fate);
      if fate == Fine { BuildEnvironment(); } else { InstallFailed(false); }
    }

    method TakeLock()
      requires RunOk(site, run)
      modifies this
      ensures State() == old(Rest(Locking))
    {
      if fates == [] { return; }
      var fate := Next();
      if fate != Fails { dirs := dirs[run.env := Look(State(), run.env).(lock := true)]; }
      if fate == Fine { ClaimStaging(); } else { InstallFailed(false); }
    }

    /** Creating the directory is what proves this run owns it. */
    method MakeDirectory()
      requires RunOk(site, run)
      modifies this
      ensures State() == old(Rest(Making))
    {
      if fates == [] { return; }
      var fate := Next();
      if run.env in dirs {
        assert Rest(Done) == State();
        return;
      }
      if fate != Fails { dirs := dirs[run.env := Env(NoClaim, false, false)]; }
      assert Rest(Done) == State();
      if fate == Fine { TakeLock(); }
    }

    // ---------------------------------------------------------- the whole command

    method RemoveAbandoned()
      requires RunOk(site, run)
      modifies this
      ensures State() == old(Rest(Reclaiming))
    {
      if fates == [] { return; }
      var fate := Next();
      if fate != Fails { dirs := dirs - {run.env}; }
      assert Rest(Done) == State();
      if fate == Fine { MakeDirectory(); }
    }

    /** This command's own leftovers go first: rmdir refuses anything else. */
    method TakeOver()
      requires RunOk(site, run)
      modifies this
      ensures State() == old(Rest(Clearing))
    {
      if fates == [] { return; }
      var fate := Next();
      if fate != Fails {
        dirs := dirs[run.env := Look(State(), run.env).(claim := NoClaim, lock := false)];
      }
      assert Rest(Done) == State();
      if fate == Fine { RemoveEmptied(); }
    }

    method RemoveEmptied()
      requires RunOk(site, run)
      modifies this
      ensures State() == old(Rest(Emptying))
    {
      if fates == [] { return; }
      var fate := Next();
      if Look(State(), run.env) != Env(NoClaim, false, false) {
        assert Rest(Done) == State();
        return;
      }
      if fate != Fails { dirs := dirs - {run.env}; }
      assert Rest(Done) == State();
      if fate == Fine { MakeDirectory(); }
    }

    method Install()
      requires RunOk(site, run)
      modifies this
      ensures State() == old(Rest(Deciding))
    {
      hide Updated, MayResume, Standing;
      if fates == [] { return; }
      var fate := Next();
      assert Rest(Done) == State();
      if fate != Fine { return; }
      if run.env !in dirs {
        MakeDirectory();
        return;
      }
      match Standing(State(), run.env) {
        case Resume => if MayResume(site, State(), run.env) { FinishPromotion(); }
        case Recorded => if MayResume(site, State(), run.env) { FinishPromotion(); }
        case Adopt => TakeOver();
        case Reclaim => RemoveAbandoned();
        case _ =>
      }
    }
  }
}
