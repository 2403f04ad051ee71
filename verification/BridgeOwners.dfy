/** The bridge server has one owner: a table in the user's configuration, or a record naming the
    plugin. Runs of the command follow one another under one lock, and may die between their two
    writes. */
module BridgeOwners {
  import opened Wrappers
  import Chars
  import Toml

  const BRIDGE := "codex-thread-bridge"

  datatype Owner = User | Plugin

  /** A record: who owns the server, what it is called, what it starts; and whether the reader that
      acts on records can act on this one. */
  datatype Identity = Identity(owner: Owner, name: string, executable: string, args: seq<string>)
  datatype Record = NoRecord | Unusable | Held(identity: Identity)

  datatype Host = Host(config: string, record: Record)

  /** One call of the command: its arguments, and after how many of its writes it dies. */
  datatype Call = Call(wanted: Identity, apply: bool, writes: nat)

  // ------------------------------------------------------------ what a table starts

  /** The last component of a path, dots and doubled slashes left out. */
  function LastPart(path: string): string {
    LastOf(path, "", "")
  }

  function LastOf(path: string, part: string, last: string): string
    decreases |path|
  {
    var kept := if part == "" || part == "." then last else part;
    if path == "" then kept
    else if path[0] == '/' then LastOf(path[1..], "", kept)
    else LastOf(path[1..], part + [path[0]], last)
  }

  /** Whether a registration starts the bridge, whatever its table is called. */
  predicate StartsBridge(command: Option<string>, executable: string) {
    command.Some? && !Chars.Blank(command.value)
    && (command.value == executable || LastPart(command.value) == BRIDGE)
  }

  /** A table some reader sees that starts this bridge, or carries the name the package declares. */
  predicate Recognised(servers: map<string, Toml.Entry>, table: string, executable: string) {
    table in servers && (StartsBridge(servers[table].command, executable) || table == BRIDGE)
  }

  // ------------------------------------------------------------ the command

  /** A record that can be built: it starts something, by an absolute path where the plugin's
      launcher is what starts it. */
  predicate Buildable(wanted: Identity) {
    && !Chars.Blank(wanted.executable)
    && (wanted.owner == Plugin ==> wanted.executable[0] == '/')
  }

  /** Whether this owner may register, given the record and the configuration as they are. */
  predicate MayRegister(scan: string -> Toml.View, host: Host, wanted: Identity) {
    var view := scan(host.config);
    && Buildable(wanted)
    && !host.record.Unusable?
    && match wanted.owner
       case User =>
         && (host.record.Held? ==> host.record.identity == wanted)
         && view.Some?
         && forall table | table in view.value && table != wanted.name ::
              !StartsBridge(view.value[table].command, wanted.executable)
       case Plugin =>
         && wanted.name == BRIDGE
         && view.Some?
         && forall table | table in view.value ::
              !StartsBridge(view.value[table].command, wanted.executable) && table != wanted.name
  }

  /** Written only where nothing is recorded; a record that says something else is never replaced. */
  function WriteRecord(record: Record, wanted: Identity): Record {
    if record.NoRecord? then Held(wanted) else record
  }

  function Registered(scan: string -> Toml.View, host: Host, wanted: Identity): (string, Toml.Outcome) {
    Toml.Register(scan, host.config, wanted.name, wanted.executable, wanted.args)
  }

  /** The whole call, cut short after its first writes. */
  function Run(scan: string -> Toml.View, host: Host, call: Call): Host {
    var wanted := call.wanted;
    if !MayRegister(scan, host, wanted) || !call.apply || call.writes == 0 then host
    else if wanted.owner == Plugin then host.(record := WriteRecord(host.record, wanted))
    else
      var (text, outcome) := Registered(scan, host, wanted);
      if outcome != Toml.Created && outcome != Toml.Linked then host
      else
        var placed := host.(config := text);
        if outcome == Toml.Created && call.writes == 1 then placed
        else placed.(record := WriteRecord(host.record, wanted))
  }

  function RunAll(scan: string -> Toml.View, host: Host, calls: seq<Call>): Host {
    if calls == [] then host
    else Run(scan, RunAll(scan, host, calls[..|calls| - 1]), calls[|calls| - 1])
  }

  /** The two files and the command's own steps: a decision about the state that will be written, then
      the table, then the record. */
  class Files {
    var config: string
    var record: Record

    constructor (config: string, record: Record)
      ensures this.config == config && this.record == record
    {
      this.config, this.record := config, record;
    }

    function State(): Host
      reads this
    {
      Host(config, record)
    }

    method Register(scan: string -> Toml.View, call: Call)
      modifies this
      ensures State() == Run(scan, old(State()), call)
    {
      var wanted, left := call.wanted, call.writes;
      if !MayRegister(scan, State(), wanted) || !call.apply || left == 0 { return; }
      if wanted.owner == User {
        var (text, outcome) := Toml.Register(scan, config, wanted.name, wanted.executable, wanted.args);
        if outcome == Toml.Created {
          config := text;
          left := left - 1;
        } else if outcome != Toml.Linked {
          return;
        }
      }
      if left > 0 && record.NoRecord? { record := Held(wanted); }
    }
  }

  // ------------------------------------------------------------ never both owners

  /** A record the plugin owns beside a table that starts the same bridge. */
  predicate BothOwners(scan: string -> Toml.View, host: Host) {
    && host.record.Held? && host.record.identity.owner == Plugin
    && scan(host.config).Some?
    && exists table :: table in scan(host.config).value
                       && Recognised(scan(host.config).value, table, host.record.identity.executable)
  }

  lemma RunKeepsOneOwner(scan: string -> Toml.View, host: Host, call: Call)
    requires !BothOwners(scan, host)
    ensures !BothOwners(scan, Run(scan, host, call))
  {
    var after := Run(scan, host, call);
    if host.record.Held? && host.record.identity.owner == Plugin {
      Toml.WritesOnlyWhenCreated(scan, host.config,
                                 Toml.Request(call.wanted.name, call.wanted.executable, call.wanted.args));
    }
  }

  /** Whatever the reader of the configuration, no calls of either owner, each killed before, between or
      after its writes, leave a record naming the plugin beside a table that starts the bridge it names. */
  lemma {:induction false} OneBridgeOwner(scan: string -> Toml.View, host: Host, calls: seq<Call>)
    requires !BothOwners(scan, host)
    ensures !BothOwners(scan, RunAll(scan, host, calls))
    decreases |calls|
  {
    if calls != [] {
      var last := |calls| - 1;
      OneBridgeOwner(scan, host, calls[..last]);
      RunKeepsOneOwner(scan, RunAll(scan, host, calls[..last]), calls[last]);
    }
  }

  // ------------------------------------------------------------ never two tables

  /** A table that starts the bridge by its own console script. */
  predicate IsBridge(servers: map<string, Toml.Server>, table: string) {
    table in servers && LastPart(servers[table].command) == BRIDGE
  }

  lemma {:induction false} BridgeIsSaid(path: string, part: string, last: string)
    requires Chars.Blank(path) && Chars.Blank(part) && Chars.Blank(last)
    ensures Chars.Blank(LastOf(path, part, last))
    decreases |path|
  {
    if path != "" {
      BridgeIsSaid(path[1..], if path[0] == '/' then "" else part + [path[0]],
                   if path[0] == '/' && part != "" && part != "." then part else last);
    }
  }

  lemma BridgeStarts(command: string, executable: string)
    requires LastPart(command) == BRIDGE
    ensures StartsBridge(Some(command), executable)
  {
    assert !Chars.IsSpace(BRIDGE[0]) && !Chars.Blank(BRIDGE);
    if Chars.Blank(command) { BridgeIsSaid(command, "", ""); }
  }

  /** Two tables that start one bridge: by one and the same command, or each by the console script. */
  predicate SameBridge(servers: map<string, Toml.Server>, a: string, b: string) {
    && a in servers && b in servers
    && (servers[a].command == servers[b].command || (IsBridge(servers, a) && IsBridge(servers, b)))
  }

  /** A configuration this command built starts no bridge from two tables. */
  ghost predicate OneTable(host: Host, servers: map<string, Toml.Server>) {
    && Toml.Built(host.config, servers)
    && forall a, b :: SameBridge(servers, a, b) ==> a == b
  }

  function TablesAfter(host: Host, servers: map<string, Toml.Server>, call: Call): map<string, Toml.Server> {
    var wanted := call.wanted;
    if MayRegister(Toml.Scan, host, wanted) && call.apply && call.writes > 0 && wanted.owner == User
       && wanted.name !in servers
    then servers[wanted.name := Toml.Server(wanted.executable, wanted.args)] else servers
  }

  /** What a call makes of the configuration, told by the tables in it. */
  lemma ConfigAfter(scan: string -> Toml.View, host: Host, servers: map<string, Toml.Server>, call: Call)
    requires var wanted := call.wanted;
             Registered(scan, host, wanted)
             == if wanted.name !in servers
                then (Toml.Proposal(host.config, wanted.name, wanted.executable, wanted.args), Toml.Created)
                else if servers[wanted.name] == Toml.Server(wanted.executable, wanted.args)
                then (host.config, Toml.Linked) else (host.config, Toml.Conflict)
    ensures var wanted := call.wanted;
            Run(scan, host, call).config
            == if MayRegister(scan, host, wanted) && call.apply && call.writes > 0 && wanted.owner == User
                  && wanted.name !in servers
               then Toml.Proposal(host.config, wanted.name, wanted.executable, wanted.args) else host.config
  {
    hide MayRegister, Registered, Toml.Proposal;
  }

  lemma RunKeepsOneTable(host: Host, servers: map<string, Toml.Server>, call: Call)
    requires OneTable(host, servers)
    ensures OneTable(Run(Toml.Scan, host, call), TablesAfter(host, servers, call))
  {
    var wanted := call.wanted;
    var after := TablesAfter(host, servers, call);
    hide Toml.Built, Toml.Scan, Toml.Register, Toml.Proposal, Run, MayRegister;
    Toml.RegistersExactly(host.config, servers, wanted.name, wanted.executable, wanted.args);
    ConfigAfter(Toml.Scan, host, servers, call);
    if MayRegister(Toml.Scan, host, wanted) && call.apply && call.writes > 0 && wanted.owner == User
       && wanted.name !in servers {
      Toml.BuiltExtends(host.config, servers, wanted.name, wanted.executable, wanted.args);
      NoOtherBridge(host, servers, wanted);
      assert forall table | table in servers ::
          servers[table].command != wanted.executable && !IsBridge(servers, table);
      forall a, b | SameBridge(after, a, b) ensures a == b {
        assert a != wanted.name && b != wanted.name ==> SameBridge(servers, a, b);
      }
    }
  }

  lemma NoOtherBridge(host: Host, servers: map<string, Toml.Server>, wanted: Identity)
    requires Toml.Built(host.config, servers)
    requires wanted.owner == User && MayRegister(Toml.Scan, host, wanted)
    ensures forall table :: table in servers && servers[table].command == wanted.executable ==> table == wanted.name
    ensures forall table :: IsBridge(servers, table) ==> table == wanted.name
  {
    Toml.BuiltScans(host.config, servers);
    var view := Toml.ProjectedAll(servers);
    forall table | table in servers && (servers[table].command == wanted.executable || IsBridge(servers, table))
      ensures table == wanted.name
    {
      if IsBridge(servers, table) { BridgeStarts(servers[table].command, wanted.executable); }
      assert view[table].command == Some(servers[table].command);
    }
  }

  /** From an empty configuration, no calls leave two tables that start one bridge. */
  lemma {:induction false} OneBridgeTable(calls: seq<Call>, record: Record) returns (servers: map<string, Toml.Server>)
    ensures OneTable(RunAll(Toml.Scan, Host("", record), calls), servers)
    decreases |calls|
  {
    if calls == [] {
      Toml.FromAnEmptyFile([]);
      servers := map[];
    } else {
      var last := |calls| - 1;
      var before := OneBridgeTable(calls[..last], record);
      var host := RunAll(Toml.Scan, Host("", record), calls[..last]);
      RunKeepsOneTable(host, before, calls[last]);
      servers := TablesAfter(host, before, calls[last]);
    }
  }

  // ------------------------------------------------------------ what a command starts

  /** Nothing but slashes and single dots between them. */
  predicate Idle(tail: string) {
    tail == "" || (tail[0] == '/' && (Idle(tail[1..]) || (|tail| >= 2 && tail[1] == '.' && Idle(tail[2..]))))
  }

  /** The last component of the path is the bridge's console script. */
  predicate EndsInBridge(path: string, head: string, tail: string) {
    && path == head + "codex-thread-bridge" + tail
    && (head == "" || head[|head| - 1] == '/') && Idle(tail)
  }

  lemma {:induction false} BridgeFound(path: string, part: string, last: string) returns (head: string, tail: string)
    requires '/' !in part && LastOf(path, part, last) == BRIDGE
    ensures EndsInBridge(part + path, head, tail) || (last == BRIDGE && Idle("/" + part + path))
    decreases |path|
  {
    LastGoesOn(path, part, last);
    hide LastOf, Idle, EndsInBridge;
    head, tail := "", "";
    if path == "" {
      IdleAlone();
      assert part + path == part && "/" + part + path == "/" + part;
      if part != "" && part != "." { EndsAtOnce(part, path); }
    } else if path[0] == '/' {
      var idle, rest := part == "" || part == ".", path[1..];
      head, tail := BridgeFound(rest, "", if idle then last else part);
      assert "" + rest == rest && "/" + "" + rest == path && part + path == part + "/" + rest;
      if EndsInBridge(rest, head, tail) {
        Grafts(part, rest, head, tail);
        head := part + "/" + head;
      } else if idle {
        IdlePart(part, path);
      } else {
        EndsAtOnce(part, path);
        head, tail := "", path;
      }
    } else {
      assert part + path == part + [path[0]] + path[1..];
      assert "/" + part + path == "/" + (part + [path[0]]) + path[1..];
      head, tail := BridgeFound(path[1..], part + [path[0]], last);
    }
  }

  lemma LastGoesOn(path: string, part: string, last: string)
    ensures var idle := part == "" || part == ".";
            LastOf(path, part, last)
            == if path == "" then (if idle then last else part)
               else if path[0] == '/' then LastOf(path[1..], "", if idle then last else part)
               else LastOf(path[1..], part + [path[0]], last)
  {
  }

  lemma IdleAlone()
    ensures Idle("/" + "") && Idle("/" + ".") && Idle("")
  {
    assert "/" + "" == "/" && ("/" + ".")[2..] == "";
  }

  lemma EndsAtOnce(part: string, path: string)
    ensures part == BRIDGE && Idle(path) ==> EndsInBridge(part + path, "", path)
  {
    hide Idle;
  }

  lemma Grafts(part: string, rest: string, head: string, tail: string)
    requires EndsInBridge(rest, head, tail)
    ensures EndsInBridge(part + "/" + rest, part + "/" + head, tail)
  {
    hide Idle;
    assert part + "/" + rest == part + "/" + head + "codex-thread-bridge" + tail;
  }

  lemma IdlePart(part: string, path: string)
    requires (part == "" || part == ".") && Idle(path)
    ensures Idle("/" + part + path)
  {
    var text := "/" + part + path;
    if part == "" {
      assert text[1..] == path;
    } else {
      assert text[1] == '.' && text[2..] == path;
    }
  }

  lemma {:induction false} IdleKeeps(tail: string, part: string, last: string)
    requires Idle(tail) && part !in {"", "."}
    ensures LastOf(tail, part, last) == part
  {
    if tail != "" { IdleStays(tail, part); }
  }

  lemma {:induction false} IdleStays(tail: string, last: string)
    requires tail != "" && Idle(tail)
    ensures LastOf(tail[1..], "", last) == last
    decreases |tail|
  {
    var rest := tail[1..];
    if rest == "" {
    } else if Idle(rest) {
      IdleStays(rest, last);
    } else {
      assert rest[0] == '.' && rest[1..] == tail[2..] && "" + [rest[0]] == ".";
      assert LastOf(rest, "", last) == LastOf(tail[2..], ".", last);
      if tail[2..] != "" { IdleStays(tail[2..], last); }
    }
  }

  lemma {:induction false} PartGathers(word: string, path: string, part: string, last: string)
    requires '/' !in word
    ensures LastOf(word + path, part, last) == LastOf(path, part + word, last)
    decreases |word|
  {
    if word == "" {
      assert word + path == path && part + word == part;
    } else {
      assert (word + path)[0] == word[0] && (word + path)[1..] == word[1..] + path;
      PartGathers(word[1..], path, part + [word[0]], last);
      assert part + [word[0]] + word[1..] == part + word;
    }
  }

  lemma {:induction false} HeadIsLeft(head: string, path: string, part: string, last: string) returns (kept: string)
    requires head != "" && head[|head| - 1] == '/'
    ensures LastOf(head + path, part, last) == LastOf(path, "", kept)
    decreases |head|
  {
    var first := if part == "" || part == "." then last else part;
    assert (head + path)[0] == head[0] && (head + path)[1..] == head[1..] + path;
    if |head| == 1 {
      assert head[1..] + path == path;
      kept := first;
    } else if head[0] == '/' {
      kept := HeadIsLeft(head[1..], path, "", first);
    } else {
      kept := HeadIsLeft(head[1..], path, part + [head[0]], last);
    }
  }

  /** The last part of a path is the bridge exactly if that is what it ends in, slashes and dots aside. */
  lemma BridgeExactlyWhen(path: string)
    ensures LastPart(path) == BRIDGE <==> exists head, tail :: EndsInBridge(path, head, tail)
  {
    if LastPart(path) == BRIDGE {
      var head, tail := BridgeFound(path, "", "");
      assert "" + path == path;
    }
    if head, tail :| EndsInBridge(path, head, tail) {
      var name := "codex-thread-bridge";
      assert '/' !in name && name !in {"", "."};
      var kept := "";
      if head != "" {
        kept := HeadIsLeft(head, name + tail, "", "");
        assert head + name + tail == head + (name + tail);
      } else {
        assert head + name + tail == name + tail;
      }
      PartGathers(name, tail, "", kept);
      assert "" + name == name;
      IdleKeeps(tail, name, kept);
    }
  }

  // ------------------------------------------------------------ when a call ends registered

  /** The command says something, and it is this executable or a path that ends in the console script. */
  ghost predicate Starts(command: Option<string>, executable: string) {
    && command.Some? && !Chars.Blank(command.value)
    && (command.value == executable || exists head, tail :: EndsInBridge(command.value, head, tail))
  }

  lemma StartsExactlyWhen(command: Option<string>, executable: string)
    ensures StartsBridge(command, executable) <==> Starts(command, executable)
  {
    hide LastPart, EndsInBridge;
    if command.Some? { BridgeExactlyWhen(command.value); }
  }

  /** No table of any other name starts this bridge. */
  ghost predicate NoOther(view: map<string, Toml.Entry>, name: string, executable: string) {
    forall table | table in view && table != name :: !Starts(view[table].command, executable)
  }

  /** A table says exactly this: its arguments may be missing where there are none. */
  predicate TableSays(view: map<string, Toml.Entry>, wanted: Identity) {
    && wanted.name in view && view[wanted.name].command == Some(wanted.executable)
    && (view[wanted.name].args == Some(wanted.args) || (view[wanted.name].args == None && wanted.args == []))
  }

  /** The registration is in the configuration and the record names it. */
  predicate IsRegistered(scan: string -> Toml.View, host: Host, wanted: Identity) {
    host.record == Held(wanted) && scan(host.config).Some? && TableSays(scan(host.config).value, wanted)
  }

  /** With the table appended the reader sees it, and every table it saw as it saw it. */
  ghost predicate CanAppend(scan: string -> Toml.View, text: string, wanted: Identity)
    requires scan(text).Some?
  {
    var view := scan(Toml.Proposal(text, wanted.name, wanted.executable, wanted.args));
    && view.Some? && TableSays(view.value, wanted)
    && forall table | table in scan(text).value ::
         table in view.value && view.value[table] == scan(text).value[table]
  }

  /** What the two files have to be for a user's call to register. */
  ghost predicate UserMay(scan: string -> Toml.View, host: Host, wanted: Identity) {
    && !Chars.Blank(wanted.executable)
    && (host.record == NoRecord || host.record == Held(wanted))
    && scan(host.config).Some?
    && NoOther(scan(host.config).value, wanted.name, wanted.executable)
    && (wanted.name in scan(host.config).value ==> TableSays(scan(host.config).value, wanted))
    && (wanted.name !in scan(host.config).value ==> CanAppend(scan, host.config, wanted))
  }

  lemma RegisterAnswers(scan: string -> Toml.View, host: Host, wanted: Identity)
    requires scan(host.config).Some?
    ensures var (text, outcome) := Registered(scan, host, wanted);
            var view := scan(host.config).value;
            && (outcome == Toml.Linked <==> TableSays(view, wanted))
            && (outcome == Toml.Created <==> wanted.name !in view && CanAppend(scan, host.config, wanted))
            && text == if outcome == Toml.Created
                       then Toml.Proposal(host.config, wanted.name, wanted.executable, wanted.args) else host.config
  {
    hide Toml.Proposal;
  }

  lemma MayExactlyWhen(scan: string -> Toml.View, host: Host, wanted: Identity)
    requires wanted.owner == User
    ensures MayRegister(scan, host, wanted)
            <==> && !Chars.Blank(wanted.executable) && (host.record == NoRecord || host.record == Held(wanted))
                 && scan(host.config).Some?
                 && NoOther(scan(host.config).value, wanted.name, wanted.executable)
  {
    hide StartsBridge, Starts, Chars.Blank;
    if scan(host.config).Some? {
      var view := scan(host.config).value;
      forall table | table in view
        ensures StartsBridge(view[table].command, wanted.executable) <==> Starts(view[table].command, wanted.executable)
      {
        StartsExactlyWhen(view[table].command, wanted.executable);
      }
    }
  }

  /** A user's call that may make both its writes ends registered exactly if it was so before, or the executable
      says something, the record is absent or this very one, the configuration reads, no other table starts
      this bridge, and its own table is this very registration or can be appended. */
  lemma UserRegistersExactlyWhen(scan: string -> Toml.View, host: Host, call: Call)
    requires call.wanted.owner == User && call.apply && call.writes >= 2
    ensures IsRegistered(scan, Run(scan, host, call), call.wanted)
            <==> IsRegistered(scan, host, call.wanted) || UserMay(scan, host, call.wanted)
    ensures !UserMay(scan, host, call.wanted) ==> Run(scan, host, call) == host
  {
    var wanted := call.wanted;
    MayExactlyWhen(scan, host, wanted);
    if scan(host.config).Some? { RegisterAnswers(scan, host, wanted); }
    hide MayRegister, Registered, NoOther, TableSays, CanAppend, Chars.Blank, Toml.Proposal;
    CanAppendSays(scan, host, wanted);
  }

  lemma CanAppendSays(scan: string -> Toml.View, host: Host, wanted: Identity)
    ensures var view := scan(Toml.Proposal(host.config, wanted.name, wanted.executable, wanted.args));
            scan(host.config).Some? && CanAppend(scan, host.config, wanted) ==>
              view.Some? && TableSays(view.value, wanted)
    ensures scan(host.config).Some? && TableSays(scan(host.config).value, wanted) ==>
              wanted.name in scan(host.config).value
  {
    hide Toml.Proposal;
  }

  /** The plugin's call leaves its record exactly if it was there, or there was none, the executable is
      absolute, the name is the declared one, the configuration reads, and no table starts the bridge or carries
      that name; it never touches the configuration. */
  lemma PluginRegistersExactlyWhen(scan: string -> Toml.View, host: Host, call: Call)
    requires call.wanted.owner == Plugin && call.apply && call.writes >= 1
    ensures Run(scan, host, call).record == Held(call.wanted)
            <==> || host.record == Held(call.wanted)
                 || (&& host.record == NoRecord && !Chars.Blank(call.wanted.executable)
                     && call.wanted.executable[0] == '/' && call.wanted.name == "codex-thread-bridge"
                     && scan(host.config).Some? && "codex-thread-bridge" !in scan(host.config).value
                     && NoOther(scan(host.config).value, "codex-thread-bridge", call.wanted.executable))
    ensures Run(scan, host, call).config == host.config
  {
    hide StartsBridge, Starts;
    if scan(host.config).Some? {
      var view := scan(host.config).value;
      forall table | table in view
        ensures StartsBridge(view[table].command, call.wanted.executable)
                <==> Starts(view[table].command, call.wanted.executable)
      {
        StartsExactlyWhen(view[table].command, call.wanted.executable);
      }
    }
  }

  /** In a configuration this command built, told by its tables. */
  ghost predicate BuiltMay(host: Host, servers: map<string, Toml.Server>, wanted: Identity) {
    && !Chars.Blank(wanted.executable)
    && (host.record == NoRecord || host.record == Held(wanted))
    && (forall table | table in servers && table != wanted.name ::
          !Starts(Some(servers[table].command), wanted.executable))
    && (wanted.name in servers ==> servers[wanted.name] == Toml.Server(wanted.executable, wanted.args))
  }

  lemma BuiltAppends(host: Host, servers: map<string, Toml.Server>, wanted: Identity)
    requires Toml.Built(host.config, servers) && wanted.name !in servers
    ensures Toml.Scan(host.config).Some? && CanAppend(Toml.Scan, host.config, wanted)
  {
    hide Toml.Built, Toml.Scan, Toml.Proposal;
    var text := Toml.Proposal(host.config, wanted.name, wanted.executable, wanted.args);
    Toml.BuiltScans(host.config, servers);
    Toml.BuiltExtends(host.config, servers, wanted.name, wanted.executable, wanted.args);
    Toml.BuiltScans(text, servers[wanted.name := Toml.Server(wanted.executable, wanted.args)]);
  }

  lemma BuiltSays(servers: map<string, Toml.Server>, wanted: Identity)
    ensures TableSays(Toml.ProjectedAll(servers), wanted)
            <==> wanted.name in servers && servers[wanted.name] == Toml.Server(wanted.executable, wanted.args)
  {
  }

  lemma BuiltOthers(servers: map<string, Toml.Server>, wanted: Identity)
    ensures NoOther(Toml.ProjectedAll(servers), wanted.name, wanted.executable)
            <==> forall table | table in servers && table != wanted.name ::
                   !Starts(Some(servers[table].command), wanted.executable)
  {
    hide Starts;
    var view := Toml.ProjectedAll(servers);
    assert forall table | table in servers :: view[table].command == Some(servers[table].command);
  }

  /** There a user's call that may make both its writes ends registered exactly if no other table starts this
      bridge and neither the record nor its own table says anything else; or it was so before. */
  lemma BuiltRegistersExactlyWhen(host: Host, servers: map<string, Toml.Server>, call: Call)
    requires Toml.Built(host.config, servers)
    requires call.wanted.owner == User && call.apply && call.writes >= 2
    ensures IsRegistered(Toml.Scan, Run(Toml.Scan, host, call), call.wanted)
            <==> BuiltMay(host, servers, call.wanted)
                 || (host.record == Held(call.wanted) && call.wanted.name in servers
                     && servers[call.wanted.name] == Toml.Server(call.wanted.executable, call.wanted.args))
  {
    hide Toml.Built, Toml.Scan, Run, NoOther, CanAppend, TableSays, Starts, Toml.ProjectedAll, Chars.Blank;
    var wanted := call.wanted;
    UserRegistersExactlyWhen(Toml.Scan, host, call);
    Toml.BuiltScans(host.config, servers);
    BuiltSays(servers, wanted);
    BuiltOthers(servers, wanted);
    ViewNames(servers);
    if wanted.name !in servers { BuiltAppends(host, servers, wanted); }
  }

  lemma ViewNames(servers: map<string, Toml.Server>)
    ensures Toml.ProjectedAll(servers).Keys == servers.Keys
  {
  }

  // ------------------------------------------------------------ a call killed between its writes

  /** Run again, a user's call that died after its first write comes to what it would have come to, exactly if
      it wrote no table, or the record was there, or the reader sees in the text it wrote no other table that
      starts this bridge. */
  lemma SecondRunCompletesExactlyWhen(scan: string -> Toml.View, host: Host, call: Call)
    requires call.wanted.owner == User && call.apply && call.writes >= 2
    ensures var first := Run(scan, host, call.(writes := 1));
            Run(scan, first, call) == Run(scan, host, call)
            <==> || first.config == host.config || host.record.Held?
                 || (scan(first.config).Some?
                     && NoOther(scan(first.config).value, call.wanted.name, call.wanted.executable))
  {
    var wanted := call.wanted;
    var first := Run(scan, host, call.(writes := 1));
    MayExactlyWhen(scan, host, wanted);
    MayExactlyWhen(scan, first, wanted);
    if scan(host.config).Some? { RegisterAnswers(scan, host, wanted); }
    if scan(first.config).Some? { RegisterAnswers(scan, first, wanted); }
    Toml.WritesOnlyWhenCreated(scan, host.config, Toml.Request(wanted.name, wanted.executable, wanted.args));
    CanAppendSays(scan, host, wanted);
    CanAppendSays(scan, first, wanted);
    hide MayRegister, Registered, NoOther, TableSays, CanAppend, Chars.Blank, Toml.Proposal, Toml.Register;
  }

  /** So in a configuration this command built it always does. */
  lemma SecondRunCompletes(host: Host, servers: map<string, Toml.Server>, call: Call)
    requires Toml.Built(host.config, servers)
    requires call.wanted.owner == User && call.apply && call.writes >= 2
    ensures Run(Toml.Scan, Run(Toml.Scan, host, call.(writes := 1)), call) == Run(Toml.Scan, host, call)
  {
    var wanted, one := call.wanted, call.(writes := 1);
    var first := Run(Toml.Scan, host, one);
    hide Toml.Built, Toml.Scan, Run, NoOther, MayRegister, Starts, Toml.ProjectedAll, Toml.Proposal, Chars.Blank,
         TablesAfter, Toml.Register;
    SecondRunCompletesExactlyWhen(Toml.Scan, host, call);
    Toml.RegistersExactly(host.config, servers, wanted.name, wanted.executable, wanted.args);
    ConfigAfter(Toml.Scan, host, servers, one);
    if first.config != host.config {
      var more := servers[wanted.name := Toml.Server(wanted.executable, wanted.args)];
      Toml.BuiltExtends(host.config, servers, wanted.name, wanted.executable, wanted.args);
      Toml.BuiltScans(first.config, more);
      Toml.BuiltScans(host.config, servers);
      MayExactlyWhen(Toml.Scan, host, wanted);
      BuiltOthers(servers, wanted);
      BuiltOthers(more, wanted);
    }
  }
}
