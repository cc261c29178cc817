/**
 The plugin gateway and the task dispatcher as the objects they are: managed
 plugins updated in place, callbacks that register and unregister handlers
 (internal/pluginruntime/gateway.go and watcher.go, internal/task/dispatcher.go,
 internal/app/agent.go). Every method is a step of the routing machine.
 */
module PluginGateway {
  import opened Wrappers
  import opened TaskRouting

  class Dispatcher {
    var handlers: map<string, Handler>

    constructor ()
      ensures handlers == map[]
    {
      handlers := map[];
    }

    method Register(taskType: string, handler: Handler)
      modifies this
      ensures handlers == old(handlers)[taskType := handler]
    {
      handlers := handlers[taskType := handler];
    }

    method Unregister(taskType: string)
      modifies this
      ensures handlers == old(handlers) - {taskType}
    {
      handlers := handlers - {taskType};
    }

    /** The lookup of Dispatch. */
    function Lookup(taskType: string): Option<Handler>
      reads this
    {
      HandlerOf(handlers, taskType)
    }

    /** The built-in registrations of registerTaskHandlers. */
    method RegisterBuiltIns()
      requires handlers == map[]
      modifies this
      ensures handlers == Initial().handlers
    {
      var types := BuiltInTypes();
      for i := 0 to |types|
        invariant handlers == map k | k in types[..i] :: BuiltIn
      {
        Register(types[i], BuiltIn);
      }
      assert types[..|types|] == types;
    }

    /** The OnPluginLoaded callback. */
    method OnLoaded(name: string, taskTypes: seq<string>)
      modifies this
      ensures handlers == RegisterAll(old(handlers), name, taskTypes)
    {
      for i := 0 to |taskTypes|
        invariant handlers == RegisterAll(old(handlers), name, taskTypes[..i])
      {
        assert taskTypes[..i + 1][..i] == taskTypes[..i];
        Register(FullTaskType(name, taskTypes[i]), GatewayTask);
      }
      assert taskTypes[..|taskTypes|] == taskTypes;
    }

    /** The OnPluginUnloaded callback. */
    method OnUnloaded(name: string, taskTypes: seq<string>)
      modifies this
      ensures handlers == UnregisterAll(old(handlers), name, taskTypes)
    {
      for i := 0 to |taskTypes|
        invariant handlers == UnregisterAll(old(handlers), name, taskTypes[..i])
      {
        assert taskTypes[..i + 1][..i] == taskTypes[..i];
        Unregister(FullTaskType(name, taskTypes[i]));
      }
      assert taskTypes[..|taskTypes|] == taskTypes;
    }
  }

  class ManagedPlugin {
    const manifest: Manifest
    var status: Status
    var client: bool
    var restartCount: nat

    constructor (manifest: Manifest)
      ensures Fields() == Plugin(manifest, Running, true, 0)
    {
      this.manifest, status, client, restartCount := manifest, Running, true, 0;
    }

    function Fields(): Plugin
      reads this
    {
      Plugin(manifest, status, client, restartCount)
    }
  }

  ghost function Snapshot(plugins: map<string, ManagedPlugin>): map<string, Plugin>
    reads plugins.Values
  {
    map n | n in plugins :: plugins[n].Fields()
  }

  class Gateway {
    var plugins: map<string, ManagedPlugin>
    const dispatcher: Dispatcher
    const maxRestarts: nat

    /** Each plugin object is filed under its own name, so no two names share one. */
    ghost predicate Valid()
      reads this
    {
      maxRestarts > 0 && forall n :: n in plugins ==> plugins[n].manifest.name == n
    }

    ghost function View(): State
      reads this, plugins.Values, dispatcher
    {
      State(Snapshot(plugins), dispatcher.handlers)
    }

    constructor (maxRestarts: int)
      ensures Valid() && View() == Initial() && fresh(dispatcher)
      ensures this.maxRestarts == if maxRestarts <= 0 then 3 else maxRestarts
    {
      plugins := map[];
      this.maxRestarts := if maxRestarts <= 0 then 3 else maxRestarts;
      dispatcher := new Dispatcher();
      new;
      dispatcher.RegisterBuiltIns();
    }

    /** `started` stands for everything outside: socket directory, process start, socket probe. */
    method LoadPlugin(manifest: Manifest, started: bool) returns (ok: bool)
      requires Valid()
      modifies this, dispatcher
      ensures Valid() && View() == Load(old(View()), manifest, started)
      ensures ok <==> ValidName(manifest.name) && started
      ensures forall n :: n in plugins ==> fresh(plugins[n]) || plugins[n] in old(plugins.Values)
    {
      hide RegisterAll, ValidName;
      if !ValidName(manifest.name) {
        return false;
      }
      if !started {
        return false;
      }
      var restarts := if manifest.name in plugins then plugins[manifest.name].restartCount else 0;
      File(manifest, restarts);
      dispatcher.OnLoaded(manifest.name, manifest.taskTypes);
      return true;
    }

    /** Puts a running plugin in the table, over any earlier one of that name. */
    method File(manifest: Manifest, restarts: nat)
      requires Valid()
      modifies this`plugins
      ensures Valid() && Snapshot(plugins) == old(Snapshot(plugins))[manifest.name := Plugin(manifest, Running, true, restarts)]
      ensures forall n :: n in plugins ==> fresh(plugins[n]) || plugins[n] in old(plugins.Values)
    {
      var p := new ManagedPlugin(manifest);
      p.restartCount := restarts;
      plugins := plugins[manifest.name := p];
      forall n | n in plugins ensures fresh(plugins[n]) || plugins[n] in old(plugins.Values) {
        if n != manifest.name {
          assert plugins[n] == old(plugins)[n];
        }
      }
    }

    method StopPlugin(name: string, p: ManagedPlugin)
      requires Valid() && name in plugins && plugins[name] == p
      modifies p, dispatcher
      ensures View() == Stop(old(View()), name)
    {
      hide UnregisterAll;
      if p.status.Stopped? || p.status.Disabled? {
        return;
      }
      p.status, p.client := Stopped, false;
      assert Snapshot(plugins) == old(Snapshot(plugins))[name := p.Fields()];
      dispatcher.OnUnloaded(name, p.manifest.taskTypes);
    }

    method SetStatus(name: string, status: Status)
      requires Valid()
      modifies plugins.Values
      ensures View() == Mark(old(View()), name, status)
    {
      if name in plugins {
        plugins[name].status := status;
        assert Snapshot(plugins) == old(Snapshot(plugins))[name := plugins[name].Fields()];
      }
    }

    method Reload(name: string, started: bool) returns (ok: bool)
      requires Valid()
      modifies this, dispatcher, plugins.Values
      ensures Valid() && View() == Step(old(View()), TaskRouting.ReloadPlugin(name, started), maxRestarts)
      ensures ok <==> old(name in plugins) && ValidName(name) && started
      ensures forall n :: n in plugins ==> fresh(plugins[n]) || plugins[n] in old(plugins.Values)
    {
      hide Load, Stop;
      if name !in plugins {
        return false;
      }
      var p := plugins[name];
      StopPlugin(name, p);
      ok := LoadPlugin(p.manifest, started);
    }

    method Enable(name: string, started: bool) returns (ok: bool)
      requires Valid()
      modifies this, dispatcher
      ensures Valid() && View() == Step(old(View()), TaskRouting.EnablePlugin(name, started), maxRestarts)
      ensures ok <==> old(name in plugins && plugins[name].status.Disabled?) && ValidName(name) && started
      ensures forall n :: n in plugins ==> fresh(plugins[n]) || plugins[n] in old(plugins.Values)
    {
      hide Load;
      if name !in plugins || !plugins[name].status.Disabled? {
        return false;
      }
      ok := LoadPlugin(plugins[name].manifest, started);
    }

    method Disable(name: string) returns (ok: bool)
      requires Valid()
      modifies dispatcher, plugins.Values
      ensures Valid() && View() == Step(old(View()), TaskRouting.DisablePlugin(name), maxRestarts)
      ensures ok <==> name in plugins
    {
      hide Stop, Mark;
      if name !in plugins {
        return false;
      }
      StopPlugin(name, plugins[name]);
      SetStatus(name, Disabled);
      return true;
    }

    /** A plugin whose failed ping leads to a restart. */
    ghost predicate Checkable(name: string)
      reads this, plugins.Values
    {
      name in plugins && plugins[name].status.Running? && plugins[name].client && plugins[name].restartCount < maxRestarts
    }

    /** One iteration of healthCheckAll; `done` means the gateway stops before the restart. */
    method CheckOne(name: string, pingOk: bool, restart: Restart) returns (done: bool)
      requires Valid()
      modifies this, dispatcher, plugins.Values
      ensures Valid() && View() == Step(old(View()), Ping(name, pingOk, restart), maxRestarts)
      ensures done <==> !pingOk && restart.CtxDone? && old(Checkable(name))
      ensures forall n :: n in plugins ==> fresh(plugins[n]) || plugins[n] in old(plugins.Values)
    {
      hide Load, Stop, Mark;
      done := false;
      if name !in plugins || !plugins[name].status.Running? || !plugins[name].client {
        return;
      }
      if pingOk {
        return;
      }
      var p := plugins[name];
      if p.restartCount < maxRestarts {
        StopPlugin(name, p);
        if restart.CtxDone? {
          return true;
        }
        if restart.LoadFailed? || !ValidName(p.manifest.name) {
          SetStatus(name, Error);
        } else {
          var _ := LoadPlugin(p.manifest, true);
        }
      } else {
        SetStatus(name, Error);
      }
    }

    /**
     Visits the plugins once each, in any order, until all are visited or the context
     ends during a backoff.
     */
    method HealthCheckAll(ping: string -> bool, restart: string -> Restart) returns (ghost visited: seq<string>)
      requires Valid()
      modifies this, dispatcher, plugins.Values
      ensures Valid() && View() == Run(old(View()), Pings(visited, ping, restart), maxRestarts)
      ensures forall n :: n in visited ==> n in old(plugins)
      ensures forall i, j :: 0 <= i < j < |visited| ==> visited[i] != visited[j]
      ensures (forall n :: n in old(plugins) ==> n in visited) ||
              (visited != [] && var n := visited[|visited| - 1]; !ping(n) && restart(n).CtxDone?)
    {
      hide Step;
      visited := [];
      ghost var initial, mine := View(), plugins.Values;
      var todo := plugins.Keys;
      while todo != {}
        invariant Valid() && View() == Run(initial, Pings(visited, ping, restart), maxRestarts)
        invariant forall n :: n in visited ==> n in old(plugins) && n !in todo
        invariant forall i, j :: 0 <= i < j < |visited| ==> visited[i] != visited[j]
        invariant todo <= old(plugins).Keys && forall n :: n in old(plugins) ==> n in todo || n in visited
        invariant forall n :: n in plugins ==> fresh(plugins[n]) || plugins[n] in mine
        decreases todo
      {
        var name :| name in todo;
        var done := CheckOne(name, ping(name), restart(name));
        PingsNext(initial, visited, name, ping, restart, maxRestarts);
        visited := visited + [name];
        todo := todo - {name};
        if done {
          break;
        }
      }
    }

    /** The watcher's answer to a removed plugin.yaml. */
    method ManifestRemoved(name: string)
      requires Valid()
      modifies this, dispatcher, plugins.Values
      ensures Valid() && View() == Step(old(View()), TaskRouting.ManifestRemoved(name), maxRestarts)
      ensures plugins == old(plugins) - {name}
    {
      hide Stop;
      if name in plugins {
        StopPlugin(name, plugins[name]);
        ghost var stopped := Snapshot(plugins);
        plugins := plugins - {name};
        assert Snapshot(plugins) == stopped - {name};
      }
    }

    /** Stops every plugin, in any order, and forgets them. */
    method StopGateway() returns (ghost order: seq<string>)
      requires Valid()
      modifies this, dispatcher, plugins.Values
      ensures Valid() && plugins == map[]
      ensures Allowed(old(View()), Shutdown(order))
      ensures View() == Step(old(View()), Shutdown(order), maxRestarts)
    {
      hide Stop;
      order := [];
      ghost var start := View();
      var todo := plugins.Keys;
      while todo != {}
        invariant todo <= plugins.Keys && plugins == old(plugins)
        invariant forall n :: n in plugins ==> n in todo || n in order
        invariant View() == StopEach(start, order)
      {
        var name :| name in todo;
        StopPlugin(name, plugins[name]);
        assert (order + [name])[..|order|] == order;
        order := order + [name];
        todo := todo - {name};
      }
      assert start.plugins.Keys == plugins.Keys;
      plugins := map[];
    }
  }

  function Pings(names: seq<string>, ping: string -> bool, restart: string -> Restart): seq<Event> {
    if names == [] then []
    else
      var n := names[|names| - 1];
      Pings(names[..|names| - 1], ping, restart) + [Ping(n, ping(n), restart(n))]
  }

  lemma PingsNext(s: State, names: seq<string>, n: string, ping: string -> bool, restart: string -> Restart, maxRestarts: nat)
    ensures Run(s, Pings(names + [n], ping, restart), maxRestarts) ==
            Step(Run(s, Pings(names, ping, restart), maxRestarts), Ping(n, ping(n), restart(n)), maxRestarts)
  {}

  /** The same call; a shutdown visits the plugins in whatever order the map gives. */
  predicate SameCall(asked: Event, done: Event) {
    asked == done || (asked.Shutdown? && done.Shutdown?)
  }

  /**
   Any sequence of gateway operations drives both tables through the routing machine,
   and every shutdown visits every plugin.
   */
  method Operate(g: Gateway, events: seq<Event>) returns (ghost done: seq<Event>)
    requires g.Valid()
    modifies g, g.dispatcher, g.plugins.Values
    ensures g.Valid() && g.View() == Run(old(g.View()), done, g.maxRestarts)
    ensures |done| == |events| && forall i :: 0 <= i < |events| ==> SameCall(events[i], done[i])
    ensures forall i :: 0 <= i < |done| && done[i].Shutdown? ==>
              Allowed(Run(old(g.View()), done[..i], g.maxRestarts), done[i])
  {
    hide Step, Run, Allowed;
    done := [];
    ghost var initial, mine := g.View(), g.plugins.Values;
    RunNothing(initial, g.maxRestarts);
    for i := 0 to |events|
      invariant g.Valid() && g.View() == Run(initial, done, g.maxRestarts)
      invariant |done| == i && forall k :: 0 <= k < i ==> SameCall(events[k], done[k])
      invariant forall k :: 0 <= k < i && done[k].Shutdown? ==> Allowed(Run(initial, done[..k], g.maxRestarts), done[k])
      invariant forall n :: n in g.plugins ==> fresh(g.plugins[n]) || g.plugins[n] in mine
    {
      ghost var e := Perform(g, events[i]);
      RunNext(initial, done, e, g.maxRestarts);
      assert forall k :: 0 <= k < i ==> (done + [e])[..k] == done[..k];
      assert (done + [e])[..i] == done;
      done := done + [e];
    }
  }

  /** One operation. */
  method Perform(g: Gateway, asked: Event) returns (ghost e: Event)
    requires g.Valid()
    modifies g, g.dispatcher, g.plugins.Values
    ensures g.Valid() && SameCall(asked, e) && g.View() == Step(old(g.View()), e, g.maxRestarts)
    ensures e.Shutdown? ==> Allowed(old(g.View()), e)
    ensures forall n :: n in g.plugins ==> fresh(g.plugins[n]) || g.plugins[n] in old(g.plugins.Values)
  {
    hide Step, Allowed;
    e := asked;
    match asked {
      case Discovered(m, started) =>
        StepIsLoad(g.View(), m, started, g.maxRestarts);
        var _ := g.LoadPlugin(m, started);
      case ReloadPlugin(n, started) => var _ := g.Reload(n, started);
      case EnablePlugin(n, started) => var _ := g.Enable(n, started);
      case DisablePlugin(n) => var _ := g.Disable(n);
      case Ping(n, ok, restart) => var _ := g.CheckOne(n, ok, restart);
      case ManifestRemoved(n) => g.ManifestRemoved(n);
      case Shutdown(_) =>
        ghost var order := g.StopGateway();
        e := Shutdown(order);
    }
  }

  lemma RunNothing(s: State, maxRestarts: nat)
    ensures Run(s, [], maxRestarts) == s
  {}

  lemma RunNext(s: State, events: seq<Event>, e: Event, maxRestarts: nat)
    ensures Run(s, events + [e], maxRestarts) == Step(Run(s, events, maxRestarts), e, maxRestarts)
  {
    hide Step;
    assert (events + [e])[..|events|] == events;
  }

  lemma StepIsLoad(s: State, m: Manifest, started: bool, maxRestarts: nat)
    ensures Step(s, Discovered(m, started), maxRestarts) == Load(s, m, started)
  {}
}
