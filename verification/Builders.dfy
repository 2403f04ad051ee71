/** Any number of runs after one environment directory at once: one section for deciding,
    creating and claiming, one advisory lock for the build that follows, and the operating system
    taking a dead run's lock away. */
module Builders {
  import opened Wrappers
  import opened Staging

  type Pid = nat
  type Inode = nat

  /** The directory's own two files and whether it holds anything else. Every write of the claim
      is a rename over it, so the claim is a new inode each time; the lock file is only ever
      opened. */
  datatype Dir = Dir(claim: Claim, claimFile: Option<Inode>, lock: Option<Inode>, occupied: bool)

  datatype Stage =
    | Looking                                        // is the directory there?
    | Weighing(claim: Claim)                         // the claim was read
    | Probed(claim: Claim, liveness: Liveness)       // and the lock was tried
    | Clearing | Emptying                            // ADOPT
    | Removing                                       // RECLAIM
    | Finishing                                      // RESUME, RECORDED: the claim is settled
    | Creating | Locking                             // mkdir; open and flock
    | Claiming(inode: Inode) | Leaving(inode: Inode) // claim; end of the section
    | Abandoning                                     // the claim could not be made
    | Exiting                                        // out of the section with nothing
    | Building(inode: Inode)                         // past the section
    | Ending                                         // about to let its lock go

  datatype State = State(
    dir: Option<Dir>,
    holders: map<Inode, Pid>,
    section: Option<Pid>,
    runs: map<Pid, Stage>,
    used: set<Pid>,
    unused: Inode)

  const START := State(None, map[], None, map[], {}, 0)

  /** What one run may find when it acts: whether the call succeeds, and what the host record and
      the pointer answer -- anything at all. */
  datatype Event =
    | Enter(pid: Pid)
    | Act(pid: Pid, ok: bool, selected: Option<bool>, inUse: bool)
    | Fill(pid: Pid) | Settle(pid: Pid) | Fail(pid: Pid, removes: bool)
    | Kill(pid: Pid)
    | Break                                          // a dead run's section lock goes stale

  predicate InSection(stage: Stage) {
    !stage.Building? && !stage.Ending?
  }

  /** The lock inode a run relies on for being alone in the directory. */
  function Owned(stage: Stage): Option<Inode> {
    match stage
    case Claiming(inode) => Some(inode)
    case Leaving(inode) => Some(inode)
    case Building(inode) => Some(inode)
    case _ => None
  }

  function Let(holders: map<Inode, Pid>, pid: Pid): map<Inode, Pid> {
    map inode | inode in holders && holders[inode] != pid :: holders[inode]
  }

  /** A run is over, however it ended: the operating system drops what it held. */
  function Over(state: State, pid: Pid): State {
    state.(runs := state.runs - {pid}, holders := Let(state.holders, pid))
  }

  function To(state: State, pid: Pid, stage: Stage): State {
    state.(runs := state.runs[pid := stage])
  }

  function WithClaim(state: State, claim: Claim): State
    requires state.dir.Some?
  {
    state.(dir := Some(state.dir.value.(claim := claim, claimFile := Some(state.unused))),
           unused := state.unused + 1)
  }

  function Probe(state: State, ok: bool): Liveness {
    if !ok then Unknown
    else if state.dir == None || state.dir.value.lock == None then Dead
    else if state.dir.value.lock.value in state.holders then Live
    else Dead
  }

  function DecidedStage(decision: Decision): Stage {
    match decision
    case Adopt => Clearing
    case Reclaim => Removing
    case Resume => Finishing
    case Recorded => Finishing
    case _ => Exiting
  }

  /** One step inside the section. */
  function Acted(state: State, pid: Pid, ok: bool, selected: Option<bool>, inUse: bool): State
    requires pid in state.runs
  {
    match state.runs[pid]
    case Looking =>
      To(state, pid, if state.dir == None then Creating else Weighing(state.dir.value.claim))
    case Weighing(claim) => To(state, pid, Probed(claim, Probe(state, ok)))
    case Probed(claim, liveness) =>
      var occupied := if ok && state.dir.Some? then Some(state.dir.value.occupied) else None;
      To(state, pid, DecidedStage(Decide(claim, liveness, occupied, inUse, selected)))
    case Clearing =>
      if state.dir == None then To(state, pid, Exiting)
      else To(state, pid, Emptying).(
             dir := Some(state.dir.value.(claim := NoClaim, claimFile := None, lock := None)))
    case Emptying =>
      if ok && state.dir.Some? && !state.dir.value.occupied
      then To(state, pid, Creating).(dir := None) else To(state, pid, Exiting)
    case Removing =>
      if ok && state.dir.Some? then To(state, pid, Creating).(dir := None) else To(state, pid, Exiting)
    case Finishing =>
      if ok && state.dir.Some? then To(WithClaim(state, Complete), pid, Exiting)
      else To(state, pid, Exiting)
    case Creating =>
      if ok && state.dir == None
      then To(state, pid, Locking).(dir := Some(Dir(NoClaim, None, None, false)))
      else To(state, pid, Exiting)
    case Locking =>
      if state.dir == None then To(state, pid, Abandoning)
      else
        var made := if state.dir.value.lock == None
                    then state.(dir := Some(state.dir.value.(lock := Some(state.unused))),
                                unused := state.unused + 1)
                    else state;
        var inode := made.dir.value.lock.value;
        if ok && inode !in made.holders
        then To(made, pid, Claiming(inode)).(holders := made.holders[inode := pid])
        else To(made, pid, Abandoning)
    case Claiming(inode) =>
      if ok && state.dir.Some? then To(WithClaim(state, Staged), pid, Leaving(inode))
      else To(state, pid, Abandoning)
    case Leaving(inode) => To(state, pid, Building(inode)).(section := None)
    case Abandoning =>
      To(if ok then state.(dir := None) else state, pid, Ending).(section := None)
    case Exiting => Over(state, pid).(section := None)
    case Building(_) => state
    case Ending => Over(state, pid)
  }

  function Happens(state: State, event: Event): State {
    match event
    case Enter(pid) =>
      if state.section == None && pid !in state.used
      then To(state, pid, Looking).(section := Some(pid), used := state.used + {pid}) else state
    case Act(pid, ok, selected, inUse) =>
      if pid in state.runs then Acted(state, pid, ok, selected, inUse) else state
    case Fill(pid) =>
      if pid in state.runs && state.runs[pid].Building? && state.dir.Some?
      then state.(dir := Some(state.dir.value.(occupied := true))) else state
    case Settle(pid) =>
      if pid in state.runs && state.runs[pid].Building? && state.dir.Some?
      then To(WithClaim(state, Complete), pid, Ending) else state
    case Fail(pid, removes) =>
      if pid in state.runs && state.runs[pid].Building?
      then To(if removes then state.(dir := None) else state, pid, Ending) else state
    case Kill(pid) => if pid in state.runs then Over(state, pid) else state
    case Break =>
      if state.section.Some? && state.section.value !in state.runs
      then state.(section := None) else state
  }

  function Course(events: seq<Event>): State {
    if events == [] then START else Happens(Course(events[..|events| - 1]), events[|events| - 1])
  }

  // ------------------------------------------------------------ the invariant

  /** A run alone in the section past a reading that answered that nobody holds the lock. */
  predicate Alone(stage: Stage) {
    || stage.Clearing? || stage.Emptying? || stage.Removing? || stage.Creating? || stage.Locking?
    || stage.Finishing? || stage.Abandoning? || (stage.Probed? && stage.liveness == Dead)
  }

  /** An owner's lock is the one the directory names, and nobody else holds it. */
  predicate Holds(state: State, pid: Pid, inode: Inode) {
    && state.dir.Some? && state.dir.value.lock == Some(inode)
    && inode in state.holders && state.holders[inode] == pid
  }

  /** The run the section belongs to, while it lives. */
  predicate Inside(state: State, pid: Pid) {
    state.section == Some(pid) && pid in state.runs
  }

  predicate NobodyOwns(state: State) {
    forall pid | pid in state.runs :: Owned(state.runs[pid]) == None
  }

  /** One run's place in the whole. */
  predicate Fits(state: State, pid: Pid)
    requires pid in state.runs
  {
    && pid in state.used
    && (InSection(state.runs[pid]) <==> state.section == Some(pid))
    && (Owned(state.runs[pid]).Some? ==> Holds(state, pid, Owned(state.runs[pid]).value))
  }

  predicate FilesFit(state: State) {
    && (state.dir.Some? && state.dir.value.lock.Some? ==> state.dir.value.lock.value < state.unused)
    && (state.dir.Some? && state.dir.value.claimFile.Some? ==>
          state.dir.value.claimFile.value < state.unused
          && state.dir.value.claimFile != state.dir.value.lock)
    && forall inode | inode in state.holders ::
         inode < state.unused && state.holders[inode] in state.runs
  }

  predicate SectionFits(state: State) {
    && (state.section.Some? ==> state.section.value in state.used)
    && (state.section.Some? && state.section.value in state.runs ==>
          && (Alone(state.runs[state.section.value]) ==> NobodyOwns(state))
          && (state.runs[state.section.value].Locking? ==> state.dir.Some? && state.dir.value.lock == None))
  }

  predicate Invariant(state: State) {
    && FilesFit(state) && SectionFits(state)
    && forall pid | pid in state.runs :: Fits(state, pid)
  }

  /** Reading changes nothing but what the reader knows. */
  lemma ReadingKeeps(state: State, pid: Pid, ok: bool, selected: Option<bool>, inUse: bool)
    requires Invariant(state) && pid in state.runs
    requires state.runs[pid].Looking? || state.runs[pid].Weighing?
    ensures Invariant(Acted(state, pid, ok, selected, inUse))
  {
    var after := Acted(state, pid, ok, selected, inUse);
    assert Fits(state, pid);
    assert FilesFit(after) && SectionFits(after);
    forall other | other in after.runs ensures Fits(after, other) {
      assert Fits(state, other);
    }
  }

  /** A decision to clear or remove is made only where nobody owns the directory. */
  lemma DecidingKeeps(state: State, pid: Pid, ok: bool, selected: Option<bool>, inUse: bool)
    requires Invariant(state) && pid in state.runs
    requires state.runs[pid].Probed?
    ensures Invariant(Acted(state, pid, ok, selected, inUse))
  {
    var after := Acted(state, pid, ok, selected, inUse);
    assert Fits(state, pid);
    assert FilesFit(after) && SectionFits(after);
    forall other | other in after.runs ensures Fits(after, other) {
      assert Fits(state, other);
    }
  }

  lemma ClearingKeeps(state: State, pid: Pid, ok: bool, selected: Option<bool>, inUse: bool)
    requires Invariant(state) && pid in state.runs
    requires state.runs[pid].Clearing? || state.runs[pid].Emptying?
    ensures Invariant(Acted(state, pid, ok, selected, inUse))
  {
    var after := Acted(state, pid, ok, selected, inUse);
    assert Fits(state, pid);
    assert FilesFit(after) && SectionFits(after);
    forall other | other in after.runs ensures Fits(after, other) {
      assert Fits(state, other);
    }
  }

  lemma MakingKeeps(state: State, pid: Pid, ok: bool, selected: Option<bool>, inUse: bool)
    requires Invariant(state) && pid in state.runs
    requires state.runs[pid].Removing? || state.runs[pid].Creating?
    ensures Invariant(Acted(state, pid, ok, selected, inUse))
  {
    var after := Acted(state, pid, ok, selected, inUse);
    assert Fits(state, pid);
    assert FilesFit(after) && SectionFits(after);
    forall other | other in after.runs ensures Fits(after, other) {
      assert Fits(state, other);
    }
  }

  /** The directory a run just made has no lock yet, so the one it takes is nobody else's. */
  lemma LockingKeeps(state: State, pid: Pid, ok: bool, selected: Option<bool>, inUse: bool)
    requires Invariant(state) && pid in state.runs
    requires state.runs[pid].Locking?
    ensures Invariant(Acted(state, pid, ok, selected, inUse))
  {
    var after := Acted(state, pid, ok, selected, inUse);
    assert Fits(state, pid);
    assert FilesFit(after) && SectionFits(after);
    forall other | other in after.runs ensures Fits(after, other) {
      assert Fits(state, other);
    }
  }

  lemma ClaimingKeeps(state: State, pid: Pid, ok: bool, selected: Option<bool>, inUse: bool)
    requires Invariant(state) && pid in state.runs
    requires state.runs[pid].Claiming?
    ensures Invariant(Acted(state, pid, ok, selected, inUse))
  {
    var after := Acted(state, pid, ok, selected, inUse);
    assert Fits(state, pid);
    assert FilesFit(after) && SectionFits(after);
    forall other | other in after.runs ensures Fits(after, other) {
      assert Fits(state, other);
    }
  }

  lemma SettlingKeeps(state: State, pid: Pid, ok: bool, selected: Option<bool>, inUse: bool)
    requires Invariant(state) && pid in state.runs
    requires state.runs[pid].Finishing? || state.runs[pid].Abandoning?
    ensures Invariant(Acted(state, pid, ok, selected, inUse))
  {
    var after := Acted(state, pid, ok, selected, inUse);
    assert Fits(state, pid);
    assert FilesFit(after) && SectionFits(after);
    forall other | other in after.runs ensures Fits(after, other) {
      assert Fits(state, other);
    }
  }

  lemma LeavingKeeps(state: State, pid: Pid, ok: bool, selected: Option<bool>, inUse: bool)
    requires Invariant(state) && pid in state.runs
    requires state.runs[pid].Leaving? || state.runs[pid].Exiting? || state.runs[pid].Building? || state.runs[pid].Ending?
    ensures Invariant(Acted(state, pid, ok, selected, inUse))
  {
    var after := Acted(state, pid, ok, selected, inUse);
    assert Fits(state, pid);
    assert FilesFit(after) && SectionFits(after);
    forall other | other in after.runs ensures Fits(after, other) {
      assert Fits(state, other);
    }
  }

  lemma EnteringKeeps(state: State, event: Event)
    requires Invariant(state) && (event.Enter? || event.Break?)
    ensures Invariant(Happens(state, event))
  {
    var after := Happens(state, event);
    hide Acted;
    if !event.Break? && event.pid in state.runs { assert Fits(state, event.pid); }
    assert FilesFit(after) && SectionFits(after);
    forall other | other in after.runs ensures Fits(after, other) {
      if other in state.runs { assert Fits(state, other); }
    }
  }

  /** Two owners would hold one and the same lock. */
  lemma OwnersAreOne(state: State, a: Pid, b: Pid)
    requires Invariant(state) && a in state.runs && b in state.runs
    requires Owned(state.runs[a]).Some? && Owned(state.runs[b]).Some?
    ensures a == b
  {
    assert Fits(state, a) && Fits(state, b);
  }

  /** A build's own writes leave the directory naming its lock. */
  lemma WritingKeeps(state: State, event: Event)
    requires Invariant(state) && (event.Fill? || event.Settle?)
    ensures Invariant(Happens(state, event))
  {
    var after := Happens(state, event);
    if event.pid in state.runs {
      assert Fits(state, event.pid);
      assert FilesFit(after) && SectionFits(after);
      forall other | other in after.runs ensures Fits(after, other) {
        assert Fits(state, other);
      }
    }
  }

  /** A build that fails removes a directory nobody else is building in. */
  lemma FailingKeeps(state: State, event: Event)
    requires Invariant(state) && event.Fail?
    ensures Invariant(Happens(state, event))
  {
    var after := Happens(state, event);
    if event.pid in state.runs && state.runs[event.pid].Building? {
      assert Fits(state, event.pid);
      forall other | other in state.runs && other != event.pid ensures Owned(state.runs[other]) == None {
        if Owned(state.runs[other]).Some? { OwnersAreOne(state, other, event.pid); }
      }
      assert FilesFit(after) && SectionFits(after);
      forall other | other in after.runs ensures Fits(after, other) {
        assert Fits(state, other);
      }
    }
  }

  /** A dead run's locks go, and nobody else's. */
  lemma DyingKeeps(state: State, event: Event)
    requires Invariant(state) && (event.Kill?)
    ensures Invariant(Happens(state, event))
  {
    if event.pid !in state.runs { return; }
    var after := Happens(state, event);
    hide Acted;
    assert Fits(state, event.pid);
    assert FilesFit(after) && SectionFits(after);
    forall other | other in after.runs ensures Fits(after, other) {
      if other in state.runs { assert Fits(state, other); }
    }
  }

  lemma HappensKeeps(state: State, event: Event)
    requires Invariant(state)
    ensures Invariant(Happens(state, event))
  {
    hide Invariant;
    match event {
      case Act(pid, ok, selected, inUse) =>
        if pid in state.runs {
          match state.runs[pid] {
            case Looking => ReadingKeeps(state, pid, ok, selected, inUse);
            case Weighing(_) => ReadingKeeps(state, pid, ok, selected, inUse);
            case Probed(_, _) => DecidingKeeps(state, pid, ok, selected, inUse);
            case Clearing => ClearingKeeps(state, pid, ok, selected, inUse);
            case Emptying => ClearingKeeps(state, pid, ok, selected, inUse);
            case Removing => MakingKeeps(state, pid, ok, selected, inUse);
            case Creating => MakingKeeps(state, pid, ok, selected, inUse);
            case Locking => LockingKeeps(state, pid, ok, selected, inUse);
            case Claiming(_) => ClaimingKeeps(state, pid, ok, selected, inUse);
            case Finishing => SettlingKeeps(state, pid, ok, selected, inUse);
            case Abandoning => SettlingKeeps(state, pid, ok, selected, inUse);
            case _ => LeavingKeeps(state, pid, ok, selected, inUse);
          }
        }
      case Enter(_) => EnteringKeeps(state, event);
      case Break => EnteringKeeps(state, event);
      case Kill(_) => DyingKeeps(state, event);
      case Fail(_, _) => FailingKeeps(state, event);
      case _ => WritingKeeps(state, event);
    }
  }

  lemma {:induction false} CourseKeeps(events: seq<Event>)
    ensures Invariant(Course(events))
    decreases |events|
  {
    if events != [] {
      CourseKeeps(events[..|events| - 1]);
      HappensKeeps(Course(events[..|events| - 1]), events[|events| - 1]);
    }
  }

  // ------------------------------------------------------------ what follows

  /** At most one live run relies on the directory, and it holds the very lock file the directory
      names: any later run that opens that name meets its lock. */
  lemma OneBuilder(events: seq<Event>, a: Pid, b: Pid)
    requires var state := Course(events);
             && a in state.runs && b in state.runs
             && Owned(state.runs[a]).Some? && Owned(state.runs[b]).Some?
    ensures a == b
    ensures var state := Course(events);
            && Holds(state, a, Owned(state.runs[a]).value)
            && Probe(state, true) == Live
  {
    CourseKeeps(events);
    OwnersAreOne(Course(events), a, b);
  }

  /** What one event does to the directory of another run. */
  predicate LeavesAlone(before: State, after: State, pid: Pid) {
    && pid in before.runs && pid in after.runs && after.runs[pid] == before.runs[pid]
    && after.dir.Some? && before.dir.Some?
    && after.dir.value.lock == before.dir.value.lock
    && after.dir.value.claim == before.dir.value.claim
    && after.dir.value.occupied == before.dir.value.occupied
  }

  /** Nobody adopts, removes, claims or empties a directory another live run is building: whatever
      any other run does or suffers, in any state any runs can reach, changes nothing there. */
  lemma NobodyTouchesALiveBuild(events: seq<Event>, event: Event, pid: Pid)
    requires var state := Course(events);
             pid in state.runs && Owned(state.runs[pid]).Some?
    requires event.Break? || event.pid != pid
    ensures LeavesAlone(Course(events), Happens(Course(events), event), pid)
  {
    CourseKeeps(events);
    var state := Course(events);
    hide Course;
    if event.Act? && event.pid in state.runs { SectionLeavesAlone(state, event, pid); }
    else { OutsideLeavesAlone(state, event, pid); }
  }

  lemma SectionLeavesAlone(state: State, event: Event, pid: Pid)
    requires Invariant(state) && pid in state.runs && Owned(state.runs[pid]).Some?
    requires event.Act? && event.pid in state.runs && event.pid != pid
    ensures LeavesAlone(state, Happens(state, event), pid)
  {
    assert Owned(state.runs[event.pid]) == None by {
      if Owned(state.runs[event.pid]).Some? { OwnersAreOne(state, pid, event.pid); }
    }
  }

  lemma OutsideLeavesAlone(state: State, event: Event, pid: Pid)
    requires Invariant(state) && pid in state.runs && Owned(state.runs[pid]).Some?
    requires event.Break? || event.pid != pid
    requires !event.Act? || event.pid !in state.runs
    ensures LeavesAlone(state, Happens(state, event), pid)
  {
    if !event.Break? && event.pid in state.runs && Owned(state.runs[event.pid]).Some? {
      OwnersAreOne(state, pid, event.pid);
    }
  }

  /** Rewriting the claim, by whoever may, leaves the lock the inode it was: the claim is a new
      inode and never that one. */
  lemma ClaimRewritesKeepTheLock(events: seq<Event>, event: Event)
    ensures var before, after := Course(events), Happens(Course(events), event);
            before.dir.Some? && after.dir.Some? && after.dir.value.claimFile.Some?
            && after.dir.value.claimFile != before.dir.value.claimFile ==>
              && after.dir.value.lock == before.dir.value.lock
              && after.dir.value.claimFile != after.dir.value.lock
              && after.holders == before.holders
  {
    CourseKeeps(events);
    HappensKeeps(Course(events), event);
    var state := Course(events);
    hide Course;
    if event.Act? && event.pid in state.runs { ClaimStepsKeepTheLock(state, event); }
  }

  lemma ClaimStepsKeepTheLock(state: State, event: Event)
    requires Invariant(state) && event.Act? && event.pid in state.runs
    ensures var after := Happens(state, event);
            state.dir.Some? && after.dir.Some? && after.dir.value.claimFile.Some?
            && after.dir.value.claimFile != state.dir.value.claimFile ==>
              after.dir.value.lock == state.dir.value.lock && after.holders == state.holders
  {
    hide Decide, Invariant;
  }

  /** The lock reads as held exactly while a live run holds the file the directory names: a dead
      run blocks nobody, and a live one is never taken for dead. */
  lemma HeldMeansALiveRun(events: seq<Event>)
    ensures var state := Course(events);
            Probe(state, true) == Live
            <==> state.dir.Some? && exists pid, inode :: pid in state.runs && Holds(state, pid, inode)
  {
    CourseKeeps(events);
    var state := Course(events);
    if Probe(state, true) == Live {
      var inode := state.dir.value.lock.value;
      assert Holds(state, state.holders[inode], inode);
    }
  }

  // ------------------------------------------------------------ a run that nobody disturbs

  /** So many steps of one run, all of which succeed, with one answer of the record about the directory and
      nothing else using it. */
  function Steps(state: State, pid: Pid, n: nat, selected: Option<bool>): State {
    if n == 0 then state else Happens(Steps(state, pid, n - 1, selected), Act(pid, true, selected, false))
  }

  /** Nobody runs, and this one has not. */
  predicate Quiet(state: State, pid: Pid) {
    state.runs == map[] && state.holders == map[] && pid !in state.used
  }

  lemma NobodyHolds(events: seq<Event>, pid: Pid)
    requires Course(events).runs == map[] && pid !in Course(events).used
    ensures Quiet(Course(events), pid)
  {
    CourseKeeps(events);
    hide Course;
    assert Course(events).holders.Keys == {};
  }

  /** The run enters, whoever died in the section before it. */
  function Entered(state: State, pid: Pid): State {
    Happens(Happens(state, Break), Enter(pid))
  }

  lemma Enters(state: State, pid: Pid)
    requires Quiet(state, pid)
    ensures Entered(state, pid)
            == state.(section := Some(pid), runs := map[pid := Looking], used := state.used + {pid})
  {
  }

  predicate At(state: State, pid: Pid, stage: Stage, dir: Option<Dir>, holders: map<Inode, Pid>) {
    state.runs == map[pid := stage] && state.dir == dir && state.holders == holders && state.section == Some(pid)
  }

  lemma OneStep(state: State, pid: Pid, n: nat, selected: Option<bool>)
    requires var now := Steps(state, pid, n, selected); pid in now.runs
    ensures Steps(state, pid, n + 1, selected) == Acted(Steps(state, pid, n, selected), pid, true, selected, false)
  {
    hide Acted;
  }

  /** From the place of making the directory, four steps: it is made, its lock taken, its claim staged, and the
      section left. */
  lemma Makes(state: State, pid: Pid, n: nat)
    requires At(Steps(state, pid, n, Some(false)), pid, Creating, None, map[])
    ensures var inside := Steps(state, pid, n + 4, Some(false));
            exists inode: Inode, file: Inode :: inode != file && inside.runs == map[pid := Building(inode)]
              && inside.dir == Some(Dir(Staged, Some(file), Some(inode), false))
              && inside.holders == map[inode := pid] && inside.section == None
  {
    var made := Steps(state, pid, n, Some(false));
    hide Steps, Decide;
    OneStep(state, pid, n, Some(false));
    var a := Steps(state, pid, n + 1, Some(false));
    assert At(a, pid, Locking, Some(Dir(NoClaim, None, None, false)), map[]) && a.unused == made.unused;
    OneStep(state, pid, n + 1, Some(false));
    var b := Steps(state, pid, n + 2, Some(false));
    var inode := made.unused;
    assert At(b, pid, Claiming(inode), Some(Dir(NoClaim, None, Some(inode), false)), map[inode := pid]);
    assert b.unused == inode + 1;
    OneStep(state, pid, n + 2, Some(false));
    var c := Steps(state, pid, n + 3, Some(false));
    assert At(c, pid, Leaving(inode), Some(Dir(Staged, Some(inode + 1), Some(inode), false)), map[inode := pid]);
    OneStep(state, pid, n + 3, Some(false));
  }

  /** What stands in the way of a run that finds it, and in how many steps it is past it: nothing, a dead run's
      staged directory, or an empty one nobody claimed. */
  predicate InTheWay(dir: Option<Dir>, steps: nat) {
    || (dir == None && steps == 1)
    || (dir.Some? && dir.value.claim == Staged && steps == 4)
    || (dir.Some? && dir.value.claim == NoClaim && !dir.value.occupied && steps == 5)
  }

  lemma Clears(state: State, pid: Pid, steps: nat)
    requires Quiet(state, pid) && InTheWay(state.dir, steps)
    ensures At(Steps(Entered(state, pid), pid, steps, Some(false)), pid, Creating, None, map[])
  {
    var start := Entered(state, pid);
    Enters(state, pid);
    assert Steps(start, pid, 0, Some(false)) == start;
    hide Steps, Entered, Decide;
    OneStep(start, pid, 0, Some(false));
    if state.dir.Some? {
      var claim := state.dir.value.claim;
      assert At(Steps(start, pid, 1, Some(false)), pid, Weighing(claim), state.dir, map[]);
      OneStep(start, pid, 1, Some(false));
      assert At(Steps(start, pid, 2, Some(false)), pid, Probed(claim, Dead), state.dir, map[]);
      OneStep(start, pid, 2, Some(false));
      DecidesAlone(state.dir.value);
      if claim == Staged {
        assert At(Steps(start, pid, 3, Some(false)), pid, Removing, state.dir, map[]);
        OneStep(start, pid, 3, Some(false));
      } else {
        assert At(Steps(start, pid, 3, Some(false)), pid, Clearing, state.dir, map[]);
        OneStep(start, pid, 3, Some(false));
        assert At(Steps(start, pid, 4, Some(false)), pid, Emptying, Some(Dir(NoClaim, None, None, false)), map[]);
        OneStep(start, pid, 4, Some(false));
      }
    }
  }

  lemma DecidesAlone(dir: Dir)
    ensures dir.claim == Staged ==> Decide(dir.claim, Dead, Some(dir.occupied), false, Some(false)) == Reclaim
    ensures dir.claim == NoClaim && !dir.occupied ==>
              Decide(dir.claim, Dead, Some(dir.occupied), false, Some(false)) == Adopt
  {
  }

  lemma DecidesToFinish(dir: Dir)
    ensures dir.claim == Staged ==> Decide(dir.claim, Dead, Some(dir.occupied), false, Some(true)) == Resume
    ensures dir.claim == NoClaim && dir.occupied ==>
              Decide(dir.claim, Dead, Some(dir.occupied), false, Some(true)) == Recorded
  {
  }

  /** One run alone, after any others that are over: what it finds that nobody uses it clears away, and it
      builds under a staged claim, holding the lock of its own directory. */
  lemma LoneRunBuilds(events: seq<Event>, pid: Pid, steps: nat)
    requires Course(events).runs == map[] && pid !in Course(events).used && InTheWay(Course(events).dir, steps)
    ensures var inside := Steps(Entered(Course(events), pid), pid, steps + 4, Some(false));
            exists inode: Inode, file: Inode :: inode != file && inside.runs == map[pid := Building(inode)]
              && inside.dir == Some(Dir(Staged, Some(file), Some(inode), false))
              && inside.holders == map[inode := pid] && inside.section == None
  {
    hide *;
    NobodyHolds(events, pid);
    Clears(Course(events), pid, steps);
    Makes(Entered(Course(events), pid), pid, steps);
  }

  /** And from there it leaves a complete claim over what it filled, in the directory of the same lock, and
      holds nothing; or where it failed no directory at all. */
  lemma LoneRunEnds(state: State, pid: Pid, inode: Inode, file: Inode)
    requires state.runs == map[pid := Building(inode)] && state.holders == map[inode := pid]
    requires state.dir == Some(Dir(Staged, Some(file), Some(inode), false))
    ensures var done := Steps(Happens(Happens(state, Fill(pid)), Settle(pid)), pid, 1, None);
            && done.runs == map[] && done.holders == map[] && done.section == state.section
            && done.dir == Some(Dir(Complete, Some(state.unused), Some(inode), true))
    ensures var failed := Steps(Happens(state, Fail(pid, true)), pid, 1, None);
            failed.runs == map[] && failed.holders == map[] && failed.dir == None
  {
    var filled := Happens(Happens(state, Fill(pid)), Settle(pid));
    assert Steps(filled, pid, 1, None) == Happens(filled, Act(pid, true, None, false));
    var gone := Happens(state, Fail(pid, true));
    assert Steps(gone, pid, 1, None) == Happens(gone, Act(pid, true, None, false));
  }

  /** A directory the record selects is finished where it stands: its claim is complete, and nothing in it is
      touched. */
  lemma LoneRunFinishes(events: seq<Event>, pid: Pid)
    requires Course(events).runs == map[] && pid !in Course(events).used && Course(events).dir.Some?
    requires var dir := Course(events).dir.value;
             dir.claim == Staged || (dir.claim == NoClaim && dir.occupied)
    ensures var before, after := Course(events), Steps(Entered(Course(events), pid), pid, 5, Some(true));
            && after.runs == map[] && after.holders == map[] && after.section == None
            && after.dir == Some(before.dir.value.(claim := Complete, claimFile := Some(before.unused)))
  {
    NobodyHolds(events, pid);
    var state := Course(events);
    hide Course;
    FinishesWhereItStands(state, pid);
  }

  lemma FinishesWhereItStands(state: State, pid: Pid)
    requires Quiet(state, pid) && state.dir.Some?
    requires state.dir.value.claim == Staged || (state.dir.value.claim == NoClaim && state.dir.value.occupied)
    ensures var after := Steps(Entered(state, pid), pid, 5, Some(true));
            && after.runs == map[] && after.holders == map[] && after.section == None
            && after.dir == Some(state.dir.value.(claim := Complete, claimFile := Some(state.unused)))
  {
    var start, claim := Entered(state, pid), state.dir.value.claim;
    Enters(state, pid);
    DecidesToFinish(state.dir.value);
    assert Steps(start, pid, 0, Some(true)) == start;
    hide Steps, Entered, Decide;
    OneStep(start, pid, 0, Some(true));
    assert At(Steps(start, pid, 1, Some(true)), pid, Weighing(claim), state.dir, map[]);
    OneStep(start, pid, 1, Some(true));
    assert At(Steps(start, pid, 2, Some(true)), pid, Probed(claim, Dead), state.dir, map[]);
    OneStep(start, pid, 2, Some(true));
    var found := Steps(start, pid, 3, Some(true));
    assert At(found, pid, Finishing, state.dir, map[]) && found.unused == state.unused;
    OneStep(start, pid, 3, Some(true));
    assert At(Steps(start, pid, 4, Some(true)), pid, Exiting,
              Some(state.dir.value.(claim := Complete, claimFile := Some(state.unused))), map[]);
    OneStep(start, pid, 4, Some(true));
  }
}
