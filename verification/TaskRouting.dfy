/**
 Task names and the routing of plugin tasks, as a pure state machine: the plugin
 table of the gateway (internal/pluginruntime/gateway.go, watcher.go, manifest.go)
 together with the dispatcher's handler table, which the load and unload callbacks
 of internal/app/agent.go keep in step (internal/task/dispatcher.go).
 */
module TaskRouting {
  import opened Wrappers

  // ---- Names ----

  predicate Alphanumeric(c: char) {
    'a' <= c <= 'z' || 'A' <= c <= 'Z' || '0' <= c <= '9'
  }

  /** The pattern ^[a-zA-Z0-9][a-zA-Z0-9_-]*$ of sanitizePluginName. */
  predicate ValidName(name: string) {
    name != "" && Alphanumeric(name[0]) && forall c :: c in name ==> Alphanumeric(c) || c == '_' || c == '-'
  }

  function FullTaskType(plugin: string, task: string): string {
    plugin + "/" + task
  }

  /** The position of the first slash, or the length. */
  function Slash(s: string): (i: nat)
    ensures i <= |s|
    ensures forall j :: 0 <= j < i ==> s[j] != '/'
    ensures i < |s| ==> s[i] == '/'
  {
    if s == "" || s[0] == '/' then 0 else 1 + Slash(s[1..])
  }

  predicate Qualified(s: string) {
    Slash(s) < |s|
  }

  function PluginOf(s: string): string
    requires Qualified(s)
  {
    s[..Slash(s)]
  }

  function TaskOf(s: string): string
    requires Qualified(s)
  {
    s[Slash(s) + 1..]
  }

  function ParseFullTaskType(s: string): Result<(string, string), string> {
    if !Qualified(s) then Err("expected 'plugin-name/task-type'")
    else if PluginOf(s) == "" || TaskOf(s) == "" then Err("plugin name and task type must not be empty")
    else Ok((PluginOf(s), TaskOf(s)))
  }

  /** Splitting a qualified name and joining it again are inverse, whatever the task is called. */
  lemma SplitJoin(plugin: string, task: string)
    requires '/' !in plugin
    ensures var s := FullTaskType(plugin, task);
            Qualified(s) && PluginOf(s) == plugin && TaskOf(s) == task
  {
    var s := FullTaskType(plugin, task);
    assert s[|plugin|] == '/' && s[..|plugin|] == plugin;
    assert Slash(s) == |plugin|;
  }

  lemma JoinSplit(s: string)
    requires Qualified(s)
    ensures FullTaskType(PluginOf(s), TaskOf(s)) == s && '/' !in PluginOf(s)
  {}

  /** A valid plugin's task name parses back to plugin and task, unless the task is empty. */
  lemma ParseOfFull(plugin: string, task: string)
    requires ValidName(plugin)
    ensures ParseFullTaskType(FullTaskType(plugin, task)) ==
            if task == "" then Err("plugin name and task type must not be empty") else Ok((plugin, task))
  {
    SplitJoin(plugin, task);
  }

  // ---- State ----

  datatype Status = Running | Stopped | Error | Disabled

  datatype Manifest = Manifest(name: string, taskTypes: seq<string>)

  datatype Plugin = Plugin(manifest: Manifest, status: Status, client: bool, restartCount: nat)

  datatype Handler = BuiltIn | GatewayTask

  datatype State = State(plugins: map<string, Plugin>, handlers: map<string, Handler>)

  function BuiltInTypes(): seq<string> {
    ["collect_metrics", "exec_command", "health_check", "plugin_log_parse", "plugin_text_process",
     "plugin_ebpf_collect", "plugin_fs_scan", "plugin_conn_analyze", "plugin_local_probe", "sandbox_exec"]
  }

  predicate IsBuiltIn(key: string) {
    key in BuiltInTypes()
  }

  function Initial(): State {
    State(map[], map k | k in BuiltInTypes() :: BuiltIn)
  }

  // ---- Operations ----

  function RegisterAll(h: map<string, Handler>, name: string, tasks: seq<string>): map<string, Handler>
    decreases |tasks|
  {
    if tasks == [] then h
    else RegisterAll(h, name, tasks[..|tasks| - 1])[FullTaskType(name, tasks[|tasks| - 1]) := GatewayTask]
  }

  function UnregisterAll(h: map<string, Handler>, name: string, tasks: seq<string>): map<string, Handler>
    decreases |tasks|
  {
    if tasks == [] then h
    else UnregisterAll(h, name, tasks[..|tasks| - 1]) - {FullTaskType(name, tasks[|tasks| - 1])}
  }

  /** `started` says whether the process came up and its socket answered. */
  function Load(s: State, m: Manifest, started: bool): State {
    if !ValidName(m.name) || !started then s
    else
      var restarts := if m.name in s.plugins then s.plugins[m.name].restartCount else 0;
      State(s.plugins[m.name := Plugin(m, Running, true, restarts)], RegisterAll(s.handlers, m.name, m.taskTypes))
  }

  function Stop(s: State, name: string): State {
    if name !in s.plugins || s.plugins[name].status.Stopped? || s.plugins[name].status.Disabled? then s
    else
      var p := s.plugins[name];
      State(s.plugins[name := p.(status := Stopped, client := false)],
            UnregisterAll(s.handlers, name, p.manifest.taskTypes))
  }

  function Mark(s: State, name: string, status: Status): State {
    if name !in s.plugins then s
    else s.(plugins := s.plugins[name := s.plugins[name].(status := status)])
  }

  function Reload(s: State, name: string, started: bool): State {
    if name !in s.plugins then s else Load(Stop(s, name), s.plugins[name].manifest, started)
  }

  function Enable(s: State, name: string, started: bool): State {
    if name !in s.plugins || !s.plugins[name].status.Disabled? then s
    else Load(s, s.plugins[name].manifest, started)
  }

  function Disable(s: State, name: string): State {
    if name !in s.plugins then s else Mark(Stop(s, name), name, Disabled)
  }

  /** A restart after a failed ping; the context may end during the backoff. */
  datatype Restart = CtxDone | LoadFailed | Loaded

  function HealthCheck(s: State, name: string, pingOk: bool, restart: Restart, maxRestarts: nat): State {
    if name !in s.plugins || !s.plugins[name].status.Running? || !s.plugins[name].client || pingOk then s
    else if s.plugins[name].restartCount >= maxRestarts then Mark(s, name, Error)
    else
      var stopped := Stop(s, name);
      if restart.CtxDone? then stopped
      else if restart.LoadFailed? || !ValidName(s.plugins[name].manifest.name) then Mark(stopped, name, Error)
      else Load(stopped, s.plugins[name].manifest, true)
  }

  function Remove(s: State, name: string): State {
    if name !in s.plugins then s
    else var stopped := Stop(s, name); stopped.(plugins := stopped.plugins - {name})
  }

  function StopEach(s: State, order: seq<string>): State
    decreases |order|
  {
    if order == [] then s else Stop(StopEach(s, order[..|order| - 1]), order[|order| - 1])
  }

  /** Stop every plugin in some order, then forget them all. */
  function StopAll(s: State, order: seq<string>): State {
    StopEach(s, order).(plugins := map[])
  }

  datatype Event =
    | Discovered(manifest: Manifest, started: bool)
    | ReloadPlugin(name: string, started: bool)
    | EnablePlugin(name: string, started: bool)
    | DisablePlugin(name: string)
    | Ping(name: string, ok: bool, restart: Restart)
    | ManifestRemoved(name: string)
    | Shutdown(order: seq<string>)

  function Step(s: State, e: Event, maxRestarts: nat): State {
    match e
    case Discovered(m, started) => Load(s, m, started)
    case ReloadPlugin(n, started) => Reload(s, n, started)
    case EnablePlugin(n, started) => Enable(s, n, started)
    case DisablePlugin(n) => Disable(s, n)
    case Ping(n, ok, restart) => HealthCheck(s, n, ok, restart, maxRestarts)
    case ManifestRemoved(n) => Remove(s, n)
    case Shutdown(order) => StopAll(s, order)
  }

  /** A plugin already live under the name has no task the manifest lacks. */
  predicate OrphansNothing(s: State, m: Manifest) {
    m.name in s.plugins && s.plugins[m.name].client ==>
      forall t :: t in s.plugins[m.name].manifest.taskTypes ==> t in m.taskTypes
  }

  /** Discovery orphans no handler, as when manifest names are distinct; shutdown visits every plugin. */
  predicate Allowed(s: State, e: Event) {
    match e
    case Discovered(m, _) => OrphansNothing(s, m)
    case Shutdown(order) => forall n :: n in s.plugins ==> n in order
    case _ => true
  }

  function Run(s: State, events: seq<Event>, maxRestarts: nat): State
    decreases |events|
  {
    if events == [] then s else Step(Run(s, events[..|events| - 1], maxRestarts), events[|events| - 1], maxRestarts)
  }

  predicate AllowedRun(s: State, events: seq<Event>, maxRestarts: nat)
    decreases |events|
  {
    events == [] ||
    (AllowedRun(s, events[..|events| - 1], maxRestarts) &&
     Allowed(Run(s, events[..|events| - 1], maxRestarts), events[|events| - 1]))
  }

  // ---- Agreement of the two tables ----

  /** A plugin task with a live plugin behind it. */
  predicate Served(plugins: map<string, Plugin>, key: string) {
    Qualified(key) && PluginOf(key) in plugins && plugins[PluginOf(key)].client
    && TaskOf(key) in plugins[PluginOf(key)].manifest.taskTypes
  }

  /** The handler the table must hold for a key, if any. */
  function Expected(plugins: map<string, Plugin>, key: string): Option<Handler> {
    if IsBuiltIn(key) then Some(BuiltIn) else if Served(plugins, key) then Some(GatewayTask) else None
  }

  function HandlerOf(h: map<string, Handler>, key: string): Option<Handler> {
    if key in h then Some(h[key]) else None
  }

  /** The handler table holds exactly the built-ins and the tasks of plugins that have a client. */
  ghost predicate Routed(s: State) {
    forall key :: HandlerOf(s.handlers, key) == Expected(s.plugins, key)
  }

  /** What the plugin table keeps about each entry. */
  predicate Sound(s: State) {
    forall n :: n in s.plugins ==> SoundEntry(n, s.plugins[n])
  }

  predicate SoundEntry(n: string, p: Plugin) {
    && p.manifest.name == n && ValidName(n)
    && (p.status.Running? ==> p.client)
    && (p.status.Stopped? || p.status.Disabled? ==> !p.client)
    && p.restartCount == 0
  }

  /** No built-in name contains a slash, so no plugin can ever touch a built-in handler. */
  lemma BuiltinsUnqualified(key: string)
    requires IsBuiltIn(key)
    ensures !Qualified(key)
  {
    assert '/' !in key;
  }

  lemma {:induction false} RegisterAllHandlers(h: map<string, Handler>, name: string, tasks: seq<string>, key: string)
    requires '/' !in name
    ensures HandlerOf(RegisterAll(h, name, tasks), key) ==
            if Qualified(key) && PluginOf(key) == name && TaskOf(key) in tasks then Some(GatewayTask)
            else HandlerOf(h, key)
    decreases |tasks|
  {
    if tasks != [] {
      var n := |tasks| - 1;
      assert tasks == tasks[..n] + [tasks[n]];
      RegisterAllHandlers(h, name, tasks[..n], key);
      SplitJoin(name, tasks[n]);
      if Qualified(key) {
        JoinSplit(key);
      }
    }
  }

  lemma {:induction false} UnregisterAllHandlers(h: map<string, Handler>, name: string, tasks: seq<string>, key: string)
    requires '/' !in name
    ensures HandlerOf(UnregisterAll(h, name, tasks), key) ==
            if Qualified(key) && PluginOf(key) == name && TaskOf(key) in tasks then None
            else HandlerOf(h, key)
    decreases |tasks|
  {
    if tasks != [] {
      var n := |tasks| - 1;
      assert tasks == tasks[..n] + [tasks[n]];
      UnregisterAllHandlers(h, name, tasks[..n], key);
      SplitJoin(name, tasks[n]);
      if Qualified(key) {
        JoinSplit(key);
      }
    }
  }

  lemma StopKeeps(s: State, name: string)
    requires Routed(s) && Sound(s)
    ensures Routed(Stop(s, name)) && Sound(Stop(s, name))
    ensures name in s.plugins ==>
              && name in Stop(s, name).plugins && !Stop(s, name).plugins[name].client
              && Stop(s, name).plugins[name].manifest == s.plugins[name].manifest
    ensures Stop(s, name).plugins.Keys == s.plugins.Keys
  {
    hide IsBuiltIn;
    var t := Stop(s, name);
    if t != s {
      assert SoundEntry(name, s.plugins[name]);
      forall key ensures HandlerOf(t.handlers, key) == Expected(t.plugins, key) {
        assert HandlerOf(s.handlers, key) == Expected(s.plugins, key);
        UnregisterAllHandlers(s.handlers, name, s.plugins[name].manifest.taskTypes, key);
        if IsBuiltIn(key) {
          BuiltinsUnqualified(key);
        }
      }
    }
  }

  /** The handler table after a load that goes through. */
  lemma LoadedHandlers(s: State, m: Manifest, key: string)
    requires Routed(s) && ValidName(m.name)
    ensures HandlerOf(Load(s, m, true).handlers, key) ==
            if Qualified(key) && PluginOf(key) == m.name && TaskOf(key) in m.taskTypes then Some(GatewayTask)
            else Expected(s.plugins, key)
  {
    hide IsBuiltIn;
    assert HandlerOf(s.handlers, key) == Expected(s.plugins, key);
    RegisterAllHandlers(s.handlers, m.name, m.taskTypes, key);
  }

  lemma LoadKeeps(s: State, m: Manifest, started: bool)
    requires Routed(s) && Sound(s) && OrphansNothing(s, m)
    ensures Routed(Load(s, m, started)) && Sound(Load(s, m, started))
  {
    hide IsBuiltIn;
    if ValidName(m.name) && started {
      LoadSound(s, m);
      var t := Load(s, m, true);
      forall key ensures HandlerOf(t.handlers, key) == Expected(t.plugins, key) {
        LoadedHandlers(s, m, key);
        if IsBuiltIn(key) {
          BuiltinsUnqualified(key);
        }
      }
    }
  }

  lemma LoadSound(s: State, m: Manifest)
    requires Sound(s) && ValidName(m.name)
    ensures Sound(Load(s, m, true))
  {}

  /**
   Loading keeps the tables in agreement exactly when it does not orphan a handler:
   a plugin already live under that name must not have tasks the new manifest lacks.
   */
  lemma LoadKeepsRouting(s: State, m: Manifest, started: bool)
    requires Routed(s) && Sound(s)
    ensures Routed(Load(s, m, started)) <==> !ValidName(m.name) || !started || OrphansNothing(s, m)
  {
    hide IsBuiltIn;
    if !ValidName(m.name) || !started || OrphansNothing(s, m) {
      if ValidName(m.name) && started {
        LoadKeeps(s, m, started);
      }
    } else {
      var x :| x in s.plugins[m.name].manifest.taskTypes && x !in m.taskTypes;
      var orphan := FullTaskType(m.name, x);
      SplitJoin(m.name, x);
      LoadedHandlers(s, m, orphan);
      if IsBuiltIn(orphan) {
        BuiltinsUnqualified(orphan);
      }
      assert HandlerOf(Load(s, m, true).handlers, orphan) != Expected(Load(s, m, true).plugins, orphan);
    }
  }

  lemma MarkKeeps(s: State, name: string, status: Status)
    requires Routed(s) && Sound(s) && (name in s.plugins ==> !s.plugins[name].client) && !status.Running?
    ensures Routed(Mark(s, name, status)) && Sound(Mark(s, name, status))
  {
    hide IsBuiltIn;
    var t := Mark(s, name, status);
    forall key ensures HandlerOf(t.handlers, key) == Expected(t.plugins, key) {
      assert HandlerOf(s.handlers, key) == Expected(s.plugins, key);
    }
  }

  lemma RemoveKeeps(s: State, name: string)
    requires Routed(s) && Sound(s) && (name in s.plugins ==> !s.plugins[name].client)
    ensures Routed(s.(plugins := s.plugins - {name})) && Sound(s.(plugins := s.plugins - {name}))
  {}

  lemma {:induction false} StopEachKeeps(s: State, order: seq<string>)
    requires Routed(s) && Sound(s)
    ensures var t := StopEach(s, order);
            && Routed(t) && Sound(t) && t.plugins.Keys == s.plugins.Keys
            && forall n :: n in order && n in t.plugins ==> !t.plugins[n].client
    decreases |order|
  {
    hide Routed, Sound;
    if order != [] {
      var k := |order| - 1;
      var before := StopEach(s, order[..k]);
      assert order == order[..k] + [order[k]];
      StopEachKeeps(s, order[..k]);
      StopKeeps(before, order[k]);
    }
  }

  lemma StopAllKeeps(s: State, order: seq<string>)
    requires Routed(s) && Sound(s) && forall n :: n in s.plugins ==> n in order
    ensures Routed(StopAll(s, order))
  {
    hide IsBuiltIn;
    StopEachKeeps(s, order);
    var stopped, t := StopEach(s, order), StopAll(s, order);
    forall key ensures HandlerOf(t.handlers, key) == Expected(t.plugins, key) {
      assert HandlerOf(stopped.handlers, key) == Expected(stopped.plugins, key);
    }
  }

  lemma StepKeeps(s: State, e: Event, maxRestarts: nat)
    requires Routed(s) && Sound(s) && Allowed(s, e) && maxRestarts > 0
    ensures Routed(Step(s, e, maxRestarts)) && Sound(Step(s, e, maxRestarts))
  {
    hide Routed, Sound, Load, Stop, Mark;
    match e
    case Discovered(m, started) =>
      LoadKeeps(s, m, started);
    case ReloadPlugin(n, started) =>
      if n in s.plugins {
        StopKeeps(s, n);
        SameName(s, n);
        LoadKeeps(Stop(s, n), s.plugins[n].manifest, started);
      }
    case EnablePlugin(n, started) =>
      if n in s.plugins && s.plugins[n].status.Disabled? {
        SameName(s, n);
        LoadKeeps(s, s.plugins[n].manifest, started);
      }
    case DisablePlugin(n) =>
      if n in s.plugins {
        StopKeeps(s, n);
        MarkKeeps(Stop(s, n), n, Disabled);
      }
    case Ping(n, ok, restart) =>
      if n in s.plugins {
        StopKeeps(s, n);
        SameName(s, n);
        MarkKeeps(Stop(s, n), n, Error);
        LoadKeeps(Stop(s, n), s.plugins[n].manifest, true);
      }
    case ManifestRemoved(n) =>
      StopKeeps(s, n);
      if n in s.plugins {
        RemoveKeeps(Stop(s, n), n);
      }
    case Shutdown(order) =>
      StopAllKeeps(s, order);
      EmptySound(StopAll(s, order));
  }

  lemma SameName(s: State, n: string)
    requires Sound(s) && n in s.plugins
    ensures s.plugins[n].manifest.name == n && s.plugins[n].restartCount == 0
    ensures s.plugins[n].status.Disabled? ==> !s.plugins[n].client
  {}

  lemma EmptySound(s: State)
    requires s.plugins == map[]
    ensures Sound(s)
  {}

  /**
   In every state reached without orphaning a handler the handler table is exactly the
   built-ins plus the tasks of the plugins that have a client, and a running plugin has one.
   */
  lemma {:induction false} RoutingAgreement(events: seq<Event>, maxRestarts: nat)
    requires maxRestarts > 0 && AllowedRun(Initial(), events, maxRestarts)
    ensures var s := Run(Initial(), events, maxRestarts); Routed(s) && Sound(s)
    decreases |events|
  {
    if events != [] {
      var n := |events| - 1;
      RoutingAgreement(events[..n], maxRestarts);
      StepKeeps(Run(Initial(), events[..n], maxRestarts), events[n], maxRestarts);
    }
  }

  /** Discovering two manifests of one name, which startup accepts, can leave a handler without a task behind it. */
  lemma RediscoveryOrphans(maxRestarts: nat)
    requires maxRestarts > 0
    ensures !Routed(Run(Initial(), [Discovered(Manifest("a", ["x"]), true), Discovered(Manifest("a", ["y"]), true)], maxRestarts))
  {
    var one, two := Discovered(Manifest("a", ["x"]), true), Discovered(Manifest("a", ["y"]), true);
    var events := [one, two];
    assert events[..1] == [one] && [one][..0] == [];
    RoutingAgreement([], maxRestarts);
    var s := Load(Initial(), one.manifest, true);
    LoadKeeps(Initial(), one.manifest, true);
    assert Run(Initial(), [one], maxRestarts) == s;
    assert "x" in s.plugins["a"].manifest.taskTypes && "x" !in two.manifest.taskTypes;
    LoadKeepsRouting(s, two.manifest, true);
  }

  lemma StopSound(s: State, name: string)
    requires Sound(s)
    ensures Sound(Stop(s, name)) && Stop(s, name).plugins.Keys == s.plugins.Keys
    ensures name in s.plugins ==>
              && !Stop(s, name).plugins[name].client
              && Stop(s, name).plugins[name].manifest == s.plugins[name].manifest
              && Stop(s, name).plugins[name].restartCount == 0
  {
    hide ValidName;
    if name in s.plugins {
      assert SoundEntry(name, s.plugins[name]);
    }
  }

  lemma MarkSound(s: State, name: string, status: Status)
    requires Sound(s) && (name in s.plugins ==> !s.plugins[name].client) && !status.Running?
    ensures Sound(Mark(s, name, status))
  {
    hide ValidName;
  }

  /** What the plugin table keeps about each entry, it keeps through every event, rediscovery included. */
  lemma StepSound(s: State, e: Event, maxRestarts: nat)
    requires Sound(s) && maxRestarts > 0
    ensures Sound(Step(s, e, maxRestarts))
  {
    hide ValidName, Load, Stop, Mark, Sound;
    match e
    case Discovered(m, started) =>
      AnyLoadSound(s, m, started);
    case Shutdown(order) =>
      EmptySound(StopAll(s, order));
    case ReloadPlugin(n, started) =>
      StopSound(s, n);
      if n in s.plugins {
        AnyLoadSound(Stop(s, n), s.plugins[n].manifest, started);
      }
    case EnablePlugin(n, started) =>
      if n in s.plugins {
        AnyLoadSound(s, s.plugins[n].manifest, started);
      }
    case DisablePlugin(n) =>
      StopSound(s, n);
      if n in s.plugins {
        MarkSound(Stop(s, n), n, Disabled);
      }
    case Ping(n, ok, restart) =>
      StopSound(s, n);
      if n in s.plugins {
        SameName(s, n);
        MarkSound(Stop(s, n), n, Error);
        AnyLoadSound(Stop(s, n), s.plugins[n].manifest, true);
      }
    case ManifestRemoved(n) =>
      StopSound(s, n);
      RemovedSound(Stop(s, n), n);
  }

  lemma AnyLoadSound(s: State, m: Manifest, started: bool)
    requires Sound(s)
    ensures Sound(Load(s, m, started))
  {
    if ValidName(m.name) && started {
      LoadSound(s, m);
    }
  }

  lemma RemovedSound(s: State, name: string)
    requires Sound(s)
    ensures Sound(s.(plugins := s.plugins - {name}))
  {}

  lemma {:induction false} SoundAlways(events: seq<Event>, maxRestarts: nat)
    requires maxRestarts > 0
    ensures Sound(Run(Initial(), events, maxRestarts))
    decreases |events|
  {
    if events != [] {
      var n := |events| - 1;
      SoundAlways(events[..n], maxRestarts);
      StepSound(Run(Initial(), events[..n], maxRestarts), events[n], maxRestarts);
    }
  }

  /**
   Restart counts are never incremented, so in every run whatever a failed ping leads
   to a restart attempt: the give-up branch behind MaxRestarts is unreachable.
   */
  lemma NeverGivesUp(events: seq<Event>, maxRestarts: nat, name: string, restart: Restart)
    requires maxRestarts > 0
    requires var s := Run(Initial(), events, maxRestarts); name in s.plugins && s.plugins[name].status.Running?
    ensures var s := Run(Initial(), events, maxRestarts);
            var t := HealthCheck(s, name, false, restart, maxRestarts);
            t.plugins[name].status.Error? <==> restart.LoadFailed?
  {
    SoundAlways(events, maxRestarts);
    var s := Run(Initial(), events, maxRestarts);
    assert SoundEntry(name, s.plugins[name]);
  }

  // ---- What each operation does, entry by entry and task by task ----

  /** Every task of an entry is handled exactly when the entry has a client. */
  lemma TasksHandled(s: State, n: string)
    requires Routed(s) && Sound(s)
    ensures n in s.plugins ==>
              forall t :: t in s.plugins[n].manifest.taskTypes ==>
                HandlerOf(s.handlers, n + "/" + t) == if s.plugins[n].client then Some(GatewayTask) else None
    ensures n !in s.plugins && '/' !in n ==> forall t :: HandlerOf(s.handlers, n + "/" + t) == None
  {
    hide IsBuiltIn;
    forall t | n in s.plugins || '/' !in n
      ensures HandlerOf(s.handlers, n + "/" + t) ==
              if n in s.plugins && s.plugins[n].client && t in s.plugins[n].manifest.taskTypes then Some(GatewayTask) else None
    {
      var key := FullTaskType(n, t);
      if n in s.plugins {
        assert SoundEntry(n, s.plugins[n]);
      }
      SplitJoin(n, t);
      if IsBuiltIn(key) {
        BuiltinsUnqualified(key);
      }
      assert HandlerOf(s.handlers, key) == Expected(s.plugins, key);
    }
  }

  /** The entry of `n` is `p` with its tasks handled iff it has a client, and every other entry is as before. */
  ghost predicate Becomes(s: State, t: State, n: string, p: Plugin) {
    && t.plugins == s.plugins[n := p]
    && forall x :: x in p.manifest.taskTypes ==>
         HandlerOf(t.handlers, n + "/" + x) == if p.client then Some(GatewayTask) else None
  }

  /** A reloaded plugin runs again with the manifest it had; if it does not start it is stopped, or still disabled. */
  lemma ReloadEffect(s: State, n: string, started: bool, maxRestarts: nat)
    requires Routed(s) && Sound(s) && maxRestarts > 0
    ensures var t := Step(s, ReloadPlugin(n, started), maxRestarts);
            if n !in s.plugins then t == s
            else if started then Becomes(s, t, n, Plugin(s.plugins[n].manifest, Running, true, 0))
            else Becomes(s, t, n, Plugin(s.plugins[n].manifest, if s.plugins[n].status.Disabled? then Disabled else Stopped, false, 0))
  {
    if n in s.plugins {
      assert SoundEntry(n, s.plugins[n]);
      StepKeeps(s, ReloadPlugin(n, started), maxRestarts);
      TasksHandled(Step(s, ReloadPlugin(n, started), maxRestarts), n);
    }
  }

  /** Enabling runs a disabled plugin and touches no other. */
  lemma EnableEffect(s: State, n: string, started: bool, maxRestarts: nat)
    requires Routed(s) && Sound(s) && maxRestarts > 0
    ensures var t := Step(s, EnablePlugin(n, started), maxRestarts);
            if n in s.plugins && s.plugins[n].status.Disabled? && started
            then Becomes(s, t, n, Plugin(s.plugins[n].manifest, Running, true, 0))
            else t == s
  {
    if n in s.plugins {
      assert SoundEntry(n, s.plugins[n]);
      StepKeeps(s, EnablePlugin(n, started), maxRestarts);
      TasksHandled(Step(s, EnablePlugin(n, started), maxRestarts), n);
    }
  }

  lemma DisableEffect(s: State, n: string, maxRestarts: nat)
    requires Routed(s) && Sound(s) && maxRestarts > 0
    ensures var t := Step(s, DisablePlugin(n), maxRestarts);
            if n !in s.plugins then t == s else Becomes(s, t, n, Plugin(s.plugins[n].manifest, Disabled, false, 0))
  {
    if n in s.plugins {
      assert SoundEntry(n, s.plugins[n]);
      StepKeeps(s, DisablePlugin(n), maxRestarts);
      TasksHandled(Step(s, DisablePlugin(n), maxRestarts), n);
    }
  }

  /** A health check acts only on a running plugin that does not answer: it runs again, is in error, or is stopped. */
  lemma PingEffect(s: State, n: string, ok: bool, restart: Restart, maxRestarts: nat)
    requires Routed(s) && Sound(s) && maxRestarts > 0
    ensures var t := Step(s, Ping(n, ok, restart), maxRestarts);
            if n !in s.plugins || !s.plugins[n].status.Running? || ok then t == s
            else
              match restart
              case Loaded => Becomes(s, t, n, Plugin(s.plugins[n].manifest, Running, true, 0))
              case LoadFailed => Becomes(s, t, n, Plugin(s.plugins[n].manifest, Error, false, 0))
              case CtxDone => Becomes(s, t, n, Plugin(s.plugins[n].manifest, Stopped, false, 0))
  {
    if n in s.plugins {
      assert SoundEntry(n, s.plugins[n]);
      StepKeeps(s, Ping(n, ok, restart), maxRestarts);
      TasksHandled(Step(s, Ping(n, ok, restart), maxRestarts), n);
    }
  }

  /** A discovered plugin runs under its name when the name is valid and it starts. */
  lemma DiscoveryEffect(s: State, m: Manifest, started: bool, maxRestarts: nat)
    requires Routed(s) && Sound(s) && OrphansNothing(s, m) && maxRestarts > 0
    ensures var t := Step(s, Discovered(m, started), maxRestarts);
            if ValidName(m.name) && started then Becomes(s, t, m.name, Plugin(m, Running, true, 0)) else t == s
  {
    if m.name in s.plugins {
      assert SoundEntry(m.name, s.plugins[m.name]);
    }
    StepKeeps(s, Discovered(m, started), maxRestarts);
    TasksHandled(Step(s, Discovered(m, started), maxRestarts), m.name);
  }

  /** A removed plugin is gone, with all its handlers, and no other is touched. */
  lemma RemovalEffect(s: State, n: string, maxRestarts: nat)
    requires Routed(s) && Sound(s) && maxRestarts > 0
    ensures var t := Step(s, ManifestRemoved(n), maxRestarts);
            && t.plugins == s.plugins - {n}
            && ('/' !in n ==> forall x :: HandlerOf(t.handlers, n + "/" + x) == None)
  {
    StepKeeps(s, ManifestRemoved(n), maxRestarts);
    TasksHandled(Step(s, ManifestRemoved(n), maxRestarts), n);
  }

  /** After a shutdown nothing is left but the built-in handlers. */
  lemma ShutdownEffect(s: State, order: seq<string>, maxRestarts: nat, key: string)
    requires Routed(s) && Sound(s) && maxRestarts > 0 && forall n :: n in s.plugins ==> n in order
    ensures var t := Step(s, Shutdown(order), maxRestarts);
            t.plugins == map[] && HandlerOf(t.handlers, key) == if IsBuiltIn(key) then Some(BuiltIn) else None
  {
    hide IsBuiltIn;
    StopAllKeeps(s, order);
    var t := Step(s, Shutdown(order), maxRestarts);
    assert HandlerOf(t.handlers, key) == Expected(t.plugins, key);
  }

  /** A name is valid iff it starts with a letter or digit and goes on with letters, digits, "_" and "-". */
  lemma ValidNameGrows(name: string, c: char)
    ensures !ValidName("")
    ensures ValidName([c]) <==> 'a' <= c <= 'z' || 'A' <= c <= 'Z' || '0' <= c <= '9'
    ensures name != "" ==>
              (ValidName(name + [c]) <==>
               ValidName(name) && ('a' <= c <= 'z' || 'A' <= c <= 'Z' || '0' <= c <= '9' || c == '_' || c == '-'))
  {
    assert c in name + [c] && [c][0] == c;
    assert forall d :: d in name ==> d in name + [c];
  }

  // ---- Dispatch ----

  /** Where the gateway sends a task, or why it refuses. */
  function ExecuteTask(s: State, taskType: string): Result<(string, string), string> {
    match ParseFullTaskType(taskType)
    case Err(e) => Err(e)
    case Ok((plugin, task)) =>
      if plugin !in s.plugins then Err("plugin not found")
      else if !s.plugins[plugin].status.Running? then Err("plugin is not running")
      else if !s.plugins[plugin].client then Err("plugin has no RPC client")
      else Ok((plugin, task))
  }

  /** A dispatched task reaches a plugin exactly when that plugin runs and declares the (non-empty) task. */
  lemma DispatchReachesPlugin(s: State, taskType: string, plugin: string, task: string)
    requires Routed(s) && Sound(s)
    ensures (HandlerOf(s.handlers, taskType) == Some(GatewayTask) && ExecuteTask(s, taskType) == Ok((plugin, task))) <==>
            && plugin in s.plugins && s.plugins[plugin].status.Running?
            && task in s.plugins[plugin].manifest.taskTypes && task != ""
            && taskType == FullTaskType(plugin, task)
  {
    hide IsBuiltIn;
    assert HandlerOf(s.handlers, taskType) == Expected(s.plugins, taskType);
    if IsBuiltIn(taskType) {
      BuiltinsUnqualified(taskType);
    }
    if Qualified(taskType) {
      JoinSplit(taskType);
    }
    if plugin in s.plugins {
      assert SoundEntry(plugin, s.plugins[plugin]);
      SplitJoin(plugin, task);
    }
  }
}
