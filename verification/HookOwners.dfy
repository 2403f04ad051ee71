/** Two commands that may each own the one hook of an event, run at any time beside one another:
    settings are created once and never rewritten, and a hook is appended only behind them. */
module HookOwners {
  import opened Wrappers

  datatype Owner = User | Plugin

  /** A settings document: the owner it names, whether its reader can act on it, and the rest. */
  datatype Settings = Settings(owner: Option<Owner>, sound: bool, rest: string)

  datatype File = NoFile | Unreadable | Holds(settings: Settings)

  /** Settings that name no owner were written by the command that also appends the hook. */
  function OwnerOf(settings: Settings): Owner {
    settings.owner.GetOr(User)
  }

  // ------------------------------------------------------------ one run, step by step

  type Pid = nat

  datatype Stage =
    | Looking(owner: Owner, wanted: Settings)                        // the hook file is read
    | Checking(owner: Owner, wanted: Settings, registered: bool)     // and the settings' owner
    | Comparing(owner: Owner, wanted: Settings)                      // the settings are read again
    | Writing(owner: Owner, wanted: Settings)                        // created under their lock
    | Appending(wanted: Settings)                                    // the hook, under its own lock

  /** The hook file is its number of this adapter's registrations. */
  datatype State = State(file: File, entries: nat, runs: map<Pid, Stage>)

  /** `passes` is a check this model does not look into: the command line, the candidate, whether an
      entry already there is this very one, a hook file or a lock that could not be had. */
  datatype Event =
    | Launch(pid: Pid, owner: Owner, wanted: Settings)
    | Step(pid: Pid, passes: bool)
    | Kill(pid: Pid)

  /** What a run would write: settings its own reader can act on, naming the plugin or nobody. */
  predicate WantedOk(owner: Owner, wanted: Settings) {
    wanted.sound && wanted.owner == if owner == Plugin then Some(Plugin) else None
  }

  /** Whether an owner may take the registration. Settings nobody could read are left to the
      comparison that follows, which refuses them for either owner. */
  predicate MayOwn(file: File, owner: Owner, registered: bool) {
    match owner
    case User => !(file.Holds? && file.settings.sound && OwnerOf(file.settings) == Plugin)
    case Plugin => (file.Holds? ==> file.settings.sound) && !registered
  }

  datatype Outcome = Created | Unchanged | Differs | Unusable

  function ConfigOutcome(wanted: Settings, file: File): Outcome {
    match file
    case Unreadable => Unusable
    case NoFile => Created
    case Holds(settings) => if settings == wanted then Unchanged else Differs
  }

  function Gone(state: State, pid: Pid): State {
    state.(runs := state.runs - {pid})
  }

  function To(state: State, pid: Pid, stage: Stage): State {
    state.(runs := state.runs[pid := stage])
  }

  /** With its settings settled, one owner appends the hook and the other is done. */
  function Settled(state: State, pid: Pid, owner: Owner, wanted: Settings): State {
    if owner == User then To(state, pid, Appending(wanted)) else Gone(state, pid)
  }

  function Stepped(state: State, pid: Pid, passes: bool): State
    requires pid in state.runs
  {
    if !passes then Gone(state, pid)
    else
      match state.runs[pid]
      case Looking(owner, wanted) => To(state, pid, Checking(owner, wanted, state.entries > 0))
      case Checking(owner, wanted, registered) =>
        if MayOwn(state.file, owner, registered) then To(state, pid, Comparing(owner, wanted))
        else Gone(state, pid)
      case Comparing(owner, wanted) =>
        (match ConfigOutcome(wanted, state.file)
         case Created => To(state, pid, Writing(owner, wanted))
         case Unchanged => Settled(state, pid, owner, wanted)
         case _ => Gone(state, pid))
      case Writing(owner, wanted) =>
        if ConfigOutcome(wanted, state.file) == Created
        then Settled(state.(file := Holds(wanted)), pid, owner, wanted) else Gone(state, pid)
      case Appending(_) => Gone(state.(entries := state.entries + 1), pid)
  }

  function Happens(state: State, event: Event): State {
    match event
    case Launch(pid, owner, wanted) =>
      if pid !in state.runs && WantedOk(owner, wanted) then To(state, pid, Looking(owner, wanted)) else state
    case Step(pid, passes) => if pid in state.runs then Stepped(state, pid, passes) else state
    case Kill(pid) => Gone(state, pid)
  }

  function Course(start: State, events: seq<Event>): State {
    if events == [] then start else Happens(Course(start, events[..|events| - 1]), events[|events| - 1])
  }

  // ------------------------------------------------------------ never both owners

  predicate PluginOwned(file: File) {
    file.Holds? && OwnerOf(file.settings) == Plugin
  }

  /** What a run past its readings can rely on, whatever the others do. */
  predicate Stands(state: State, stage: Stage) {
    match stage
    case Looking(owner, wanted) => WantedOk(owner, wanted)
    case Checking(owner, wanted, registered) =>
      WantedOk(owner, wanted) && (!registered && state.entries > 0 ==> state.file.Holds?)
    case Comparing(owner, wanted) =>
      WantedOk(owner, wanted) && (owner == Plugin && state.entries > 0 ==> state.file.Holds?)
    case Writing(owner, wanted) =>
      WantedOk(owner, wanted) && (owner == Plugin && state.entries > 0 ==> state.file.Holds?)
    case Appending(wanted) => WantedOk(User, wanted) && state.file == Holds(wanted)
  }

  predicate Invariant(state: State) {
    && !(PluginOwned(state.file) && state.entries > 0)
    && forall pid | pid in state.runs :: Stands(state, state.runs[pid])
  }

  /** Settings are created once: nothing ever rewrites or removes them. */
  lemma SettingsStand(state: State, event: Event)
    ensures state.file != NoFile ==> Happens(state, event).file == state.file
    ensures state.entries <= Happens(state, event).entries
  {
  }

  lemma HappensKeeps(state: State, event: Event)
    requires Invariant(state)
    ensures Invariant(Happens(state, event))
  {
    var after := Happens(state, event);
    SettingsStand(state, event);
    if event.Step? && event.pid in state.runs {
      assert Stands(state, state.runs[event.pid]);
    }
    forall pid | pid in after.runs ensures Stands(after, after.runs[pid]) {
      if pid in state.runs { assert Stands(state, state.runs[pid]); }
    }
  }

  /** No interleaving of any number of runs of either owner, each killed anywhere, reaches settings the
      plugin owns beside a registered hook. */
  lemma {:induction false} OneHookOwner(start: State, events: seq<Event>)
    requires start.runs == map[] && !(PluginOwned(start.file) && start.entries > 0)
    ensures Invariant(Course(start, events))
    ensures var state := Course(start, events);
            !(PluginOwned(state.file) && state.entries > 0)
    ensures start.file != NoFile ==> Course(start, events).file == start.file
    decreases |events|
  {
    if events != [] {
      var last := |events| - 1;
      OneHookOwner(start, events[..last]);
      HappensKeeps(Course(start, events[..last]), events[last]);
      SettingsStand(Course(start, events[..last]), events[last]);
    }
  }

  // ------------------------------------------------------------ a run that nobody disturbs

  /** One run from its start to its end, every check it makes passing: five steps are as many as any takes. */
  function Alone(start: State, pid: Pid, owner: Owner, wanted: Settings): State {
    var step := Step(pid, true);
    Course(start, [Launch(pid, owner, wanted), step, step, step, step, step])
  }

  lemma AloneIsStepByStep(start: State, pid: Pid, owner: Owner, wanted: Settings)
    ensures var step := Step(pid, true);
            Alone(start, pid, owner, wanted)
            == Happens(Happens(Happens(Happens(Happens(Happens(start, Launch(pid, owner, wanted)), step), step),
                                               step), step), step)
  {
    hide Happens;
    var step := Step(pid, true);
    var launch := [Launch(pid, owner, wanted)];
    OneMore(start, [], launch[0]);
    OneMore(start, launch, step);
    OneMore(start, launch + [step], step);
    OneMore(start, launch + [step, step], step);
    OneMore(start, launch + [step, step, step], step);
    OneMore(start, launch + [step, step, step, step], step);
    assert [] + [launch[0]] == launch;
    assert launch + [step] + [step] == launch + [step, step];
    assert launch + [step, step] + [step] == launch + [step, step, step];
    assert launch + [step, step, step] + [step] == launch + [step, step, step, step];
    assert launch + [step, step, step, step] + [step] == [launch[0], step, step, step, step, step];
  }

  lemma OneMore(start: State, events: seq<Event>, event: Event)
    ensures Course(start, events + [event]) == Happens(Course(start, events), event)
  {
    hide Happens;
    assert (events + [event])[..|events|] == events;
  }

  /** A user's run alone, whatever stands when it starts: with no settings it creates its own and appends the
      hook, with its own there it appends the hook, and with any other it changes nothing. */
  lemma UserRunAlone(start: State, pid: Pid, wanted: Settings)
    requires start.runs == map[] && wanted.sound && wanted.owner == None
    ensures var after := Alone(start, pid, User, wanted);
            && after.runs == map[]
            && (start.file == NoFile || start.file == Holds(wanted) ==>
                  after.file == Holds(wanted) && after.entries == start.entries + 1)
            && (start.file != NoFile && start.file != Holds(wanted) ==> after == start)
  {
    AloneIsStepByStep(start, pid, User, wanted);
    hide Alone, Course;
    var a := Happens(start, Launch(pid, User, wanted));
    assert a == State(start.file, start.entries, map[pid := Looking(User, wanted)]);
    var b := Happens(a, Step(pid, true));
    assert b.runs == map[pid := Checking(User, wanted, start.entries > 0)];
    var c := Happens(b, Step(pid, true));
    assert c.runs == map[] || c.runs == map[pid := Comparing(User, wanted)];
    var d := Happens(c, Step(pid, true));
    assert d.runs == map[] || d.runs == map[pid := Writing(User, wanted)] || d.runs == map[pid := Appending(wanted)];
    var e := Happens(d, Step(pid, true));
    assert e.runs == map[] || e.runs == map[pid := Appending(wanted)];
  }

  /** A plugin's run alone creates its settings exactly where there are none and no hook is registered, and
      registers nothing itself. */
  lemma PluginRunAlone(start: State, pid: Pid, wanted: Settings)
    requires start.runs == map[] && wanted.sound && wanted.owner == Some(Plugin)
    ensures var after := Alone(start, pid, Plugin, wanted);
            && after.runs == map[] && after.entries == start.entries
            && after.file == if start.file == NoFile && start.entries == 0 then Holds(wanted) else start.file
  {
    AloneIsStepByStep(start, pid, Plugin, wanted);
    hide Alone, Course;
    var a := Happens(start, Launch(pid, Plugin, wanted));
    assert a == State(start.file, start.entries, map[pid := Looking(Plugin, wanted)]);
    var b := Happens(a, Step(pid, true));
    assert b.runs == map[pid := Checking(Plugin, wanted, start.entries > 0)];
    var c := Happens(b, Step(pid, true));
    assert c.runs == map[] || c.runs == map[pid := Comparing(Plugin, wanted)];
    var d := Happens(c, Step(pid, true));
    assert d.runs == map[] || d.runs == map[pid := Writing(Plugin, wanted)];
  }
}
