/**
 The reloaders the agent installs (internal/server/reload.go and server.go,
 internal/collector/reload.go and scheduler.go, internal/reporter/reload.go),
 measured against the reloader contract.
 */
module ServerReload {
  import opened Wrappers
  import opened Metrics
  import ConfigTree
  import opened ConfigDiff
  import opened ConfigReload

  /**
   The metric pipeline. `built` is the section it was built from, `active` says that its
   goroutines run, `open` that the output channel they send on is not closed, and `held`
   is what its aggregators have gathered since they last reported.
   */
  datatype Scheduler = Scheduler(built: CollectorConfig, running: bool, active: bool, open: bool, held: seq<Metric>)

  /** The HTTP server's reloadable options and the metric pipeline. */
  datatype Subsystems = Subsystems(auth: AuthConfig, prometheus: PrometheusConfig, scheduler: Scheduler)

  // ---- The collector pipeline ----

  /** Which instances name a registered plugin that accepts its config. */
  datatype Registry = Registry(
    input: Instance -> bool, processor: Instance -> bool, aggregator: Instance -> bool, output: Instance -> bool)

  predicate Buildable(reg: Registry, c: CollectorConfig) {
    && (forall x :: x in c.inputs ==> reg.input(x))
    && (forall x :: x in c.processors ==> reg.processor(x))
    && (forall x :: x in c.aggregators ==> reg.aggregator(x))
    && (forall x :: x in c.outputs ==> reg.output(x))
  }

  /** A pipeline with neither inputs nor aggregators starts no goroutine. */
  predicate HasWork(c: CollectorConfig) {
    c.inputs != [] || c.aggregators != []
  }

  /** Start: the channel stays open for as long as some goroutine runs. */
  function Started(c: CollectorConfig): Scheduler {
    Scheduler(c, true, HasWork(c), HasWork(c), [])
  }

  /** Stopping waits for all goroutines, upon which the closer closes the channel; the aggregators are emptied. */
  function Stopped(s: Scheduler): Scheduler {
    s.(active := false, open := false, held := [])
  }

  /** Scheduler.Reload: stop first, then build; a failed build leaves the pipeline stopped. */
  function Rebuild(reg: Registry, s: Scheduler, c: CollectorConfig): (Scheduler, bool) {
    if !Buildable(reg, c) then (Stopped(s), false)
    else (Stopped(s).(built := c, active := s.running && HasWork(c)), true)
  }

  // ---- The reloaders as functions of the world ----

  function AuthApply(w: Subsystems, c: Config): (Subsystems, bool) {
    if !c.auth.enabled || c.auth.bearerToken == "" || |c.auth.bearerToken| < 32 then (w, false)
    else (w.(auth := c.auth), true)
  }

  function AuthReloader(): Reloader<Subsystems> {
    Reloader((cs: ChangeSet) => cs.auth,
             (w: Subsystems, c: Config, e: nat) => AuthApply(w, c),
             (w: Subsystems, c: Config, e: nat) => w.(auth := c.auth),
             (w: Subsystems, c: Config) => w.auth == c.auth)
  }

  function PrometheusReloader(): Reloader<Subsystems> {
    Reloader((cs: ChangeSet) => cs.prometheus,
             (w: Subsystems, c: Config, e: nat) => (w.(prometheus := c.prometheus), true),
             (w: Subsystems, c: Config, e: nat) => w.(prometheus := c.prometheus),
             (w: Subsystems, c: Config) => w.prometheus == c.prometheus)
  }

  /** Only logs. */
  function ReporterReloader(): Reloader<Subsystems> {
    Reloader((cs: ChangeSet) => cs.reporter,
             (w: Subsystems, c: Config, e: nat) => (w, true),
             (w: Subsystems, c: Config, e: nat) => w,
             (w: Subsystems, c: Config) => true)
  }

  function CollectorApply(reg: Registry, w: Subsystems, c: Config): (Subsystems, bool) {
    var (s, ok) := Rebuild(reg, w.scheduler, c.collector);
    (w.(scheduler := s), ok)
  }

  function CollectorReloader(reg: Registry): Reloader<Subsystems> {
    Reloader((cs: ChangeSet) => cs.collector,
             (w: Subsystems, c: Config, e: nat) => CollectorApply(reg, w, c),
             (w: Subsystems, c: Config, e: nat) => CollectorApply(reg, w, c).0,
             (w: Subsystems, c: Config) => Follows(w.scheduler, c.collector))
  }

  predicate Follows(s: Scheduler, c: CollectorConfig) {
    s.built == c && s.active == (s.running && HasWork(c))
  }

  function ServerReloaders(): seq<Reloader<Subsystems>> {
    [AuthReloader(), PrometheusReloader(), ReporterReloader()]
  }

  function InstalledReloaders(reg: Registry): seq<Reloader<Subsystems>> {
    [CollectorReloader(reg), AuthReloader(), PrometheusReloader(), ReporterReloader()]
  }

  // ---- The contract ----

  /** The auth, prometheus and reporter reloaders meet the contract, so their reloads are all or nothing. */
  lemma ServerReloadersMeetContract()
    ensures Contract(ServerReloaders())
  {
    var rs := ServerReloaders();
    forall i | 0 <= i < |rs| ensures ApplyContract(rs[i]) && RollbackContract(rs[i]) && SkipContract(rs[i]) {
      assert rs[i] == AuthReloader() || rs[i] == PrometheusReloader() || rs[i] == ReporterReloader();
    }
    forall i, j | 0 <= i < |rs| && 0 <= j < |rs| && i != j ensures Independent(rs[i], rs[j]) {
      assert rs[i] == AuthReloader() || rs[i] == PrometheusReloader() || rs[i] == ReporterReloader();
      assert rs[j] == AuthReloader() || rs[j] == PrometheusReloader() || rs[j] == ReporterReloader();
    }
  }

  /** The server's reloaders in closed form: only auth can fail, and it comes first. */
  lemma ServerOutcome(w: Subsystems, cs: ChangeSet, cur: Config, next: Config, env: nat -> nat)
    ensures Outcome(ServerReloaders(), 0, cs, w, cur, next, env) == ServerResult(w, cs, next)
  {
    var rs, w1 := ServerReloaders(), AfterAuth(w, cs, next);
    var w2 := if cs.prometheus then w1.(prometheus := next.prometheus) else w1;
    assert Outcome(rs, 3, cs, w2, cur, next, env) == (w2, true);
    assert Outcome(rs, 2, cs, w2, cur, next, env) == (w2, true);
    assert Outcome(rs, 1, cs, w1, cur, next, env) == (w2, true);
  }

  /** The same reloaders behind the collector's. */
  lemma InstalledOutcome(reg: Registry, w: Subsystems, cs: ChangeSet, cur: Config, next: Config, env: nat -> nat)
    ensures Outcome(InstalledReloaders(reg), 1, cs, w, cur, next, env) == ServerResult(w, cs, next)
  {
    var rs, w1 := InstalledReloaders(reg), AfterAuth(w, cs, next);
    var w2 := if cs.prometheus then w1.(prometheus := next.prometheus) else w1;
    assert Outcome(rs, 4, cs, w2, cur, next, env) == (w2, true);
    assert Outcome(rs, 3, cs, w2, cur, next, env) == (w2, true);
    assert Outcome(rs, 2, cs, w1, cur, next, env) == (w2, true);
  }

  function AfterAuth(w: Subsystems, cs: ChangeSet, next: Config): Subsystems {
    if cs.auth then AuthApply(w, next).0 else w
  }

  function ServerResult(w: Subsystems, cs: ChangeSet, next: Config): (Subsystems, bool) {
    if cs.auth && !AuthApply(w, next).1 then (w, false)
    else
      var w1 := AfterAuth(w, cs, next);
      (if cs.prometheus then w1.(prometheus := next.prometheus) else w1, true)
  }

  /** The server's reloads succeed exactly when the config is acceptable and does not disable auth. */
  lemma ServerReloadSucceeds(s: ReloadState<Subsystems>, parsed: Option<Config>, rest: Config -> bool, env: nat -> nat)
    ensures var (t, ok) := ApplyStep(ServerReloaders(), s, parsed, rest, env);
            && (ok <==> parsed.Some? && Validate(parsed.value, rest) && SameFrozen(s.current, parsed.value) &&
                        (s.current.auth != parsed.value.auth ==> parsed.value.auth.enabled))
            && (ok ==> t.current == parsed.value && t.world.scheduler == s.world.scheduler)
  {
    if parsed.Some? {
      ServerOutcome(s.world, ChangesOf(s.current, parsed.value), s.current, parsed.value, env);
      if Validate(parsed.value, rest) {
        AuthRefusesOnlyDisabling(s.world, parsed.value);
      }
    }
  }

  /** With all reloaders installed the collector section, if it changed, must also build. */
  lemma InstalledReloadSucceeds(reg: Registry, s: ReloadState<Subsystems>, parsed: Option<Config>, rest: Config -> bool,
                                env: nat -> nat)
    ensures var (t, ok) := ApplyStep(InstalledReloaders(reg), s, parsed, rest, env);
            && (ok <==> parsed.Some? && Validate(parsed.value, rest) && SameFrozen(s.current, parsed.value) &&
                        (s.current.auth != parsed.value.auth ==> parsed.value.auth.enabled) &&
                        (s.current.collector != parsed.value.collector ==> Buildable(reg, parsed.value.collector)))
            && (ok ==> t.current == parsed.value)
  {
    hide Buildable;
    if parsed.Some? {
      var cs := ChangesOf(s.current, parsed.value);
      var rebuilt := CollectorApply(reg, s.world, parsed.value).0;
      InstalledOutcome(reg, s.world, cs, s.current, parsed.value, env);
      InstalledOutcome(reg, rebuilt, cs, s.current, parsed.value, env);
      if Validate(parsed.value, rest) {
        AuthRefusesOnlyDisabling(s.world, parsed.value);
        AuthRefusesOnlyDisabling(rebuilt, parsed.value);
      }
    }
  }

  // ---- Reloading the collector ----

  /** Stopping and rebuilding would leave the pipeline exactly as it is. */
  predicate Undisturbed(reg: Registry, s: Scheduler, cur: CollectorConfig, next: CollectorConfig) {
    !s.open && s.held == [] && if Buildable(reg, next) then Buildable(reg, cur) else !s.active
  }

  /**
   With the collector reloader installed a failed reload leaves everything as it was
   exactly when the collector section did not change, or the pipeline had nothing to lose.
   */
  lemma FailedReloadUndone(reg: Registry, s: ReloadState<Subsystems>, next: Config, rest: Config -> bool, env: nat -> nat)
    requires AgreeUpTo(InstalledReloaders(reg), 4, s.world, s.current)
    requires Validate(next, rest) && FrozenOf(s.current) == FrozenOf(next)
    requires !ApplyStep(InstalledReloaders(reg), s, Some(next), rest, env).1
    ensures ApplyStep(InstalledReloaders(reg), s, Some(next), rest, env).0 == s <==>
            s.current.collector == next.collector ||
            Undisturbed(reg, s.world.scheduler, s.current.collector, next.collector)
  {
    hide Buildable, HasWork;
    var rs, cs, w := InstalledReloaders(reg), ChangesOf(s.current, next), s.world;
    assert rs[0].agrees(w, s.current);
    var (rebuilt, ok) := CollectorApply(reg, w, next);
    InstalledOutcome(reg, w, cs, s.current, next, env);
    InstalledOutcome(reg, rebuilt, cs, s.current, next, env);
    if cs.collector {
      assert Outcome(rs, 0, cs, w, s.current, next, env).0 ==
             if !ok then rebuilt else CollectorApply(reg, rebuilt, s.current).0;
    }
  }

  /** While the pipeline's output is open, only a reload that leaves the collector section alone is undone. */
  lemma LivePipelineUndone(reg: Registry, s: ReloadState<Subsystems>, next: Config, rest: Config -> bool, env: nat -> nat)
    requires AgreeUpTo(InstalledReloaders(reg), 4, s.world, s.current) && s.world.scheduler.open
    requires Validate(next, rest) && FrozenOf(s.current) == FrozenOf(next)
    requires !ApplyStep(InstalledReloaders(reg), s, Some(next), rest, env).1
    ensures ApplyStep(InstalledReloaders(reg), s, Some(next), rest, env).0 == s <==> s.current.collector == next.collector
  {
    FailedReloadUndone(reg, s, next, rest, env);
  }

  /**
   A successful reload keeps a live pipeline's output open exactly when the collector
   section did not change: otherwise the restarted inputs send on a closed channel.
   */
  lemma ReloadClosesOutput(reg: Registry, s: ReloadState<Subsystems>, next: Config, rest: Config -> bool, env: nat -> nat)
    requires AgreeUpTo(InstalledReloaders(reg), 4, s.world, s.current)
    requires s.world.scheduler.open && s.world.scheduler.running
    requires ApplyStep(InstalledReloaders(reg), s, Some(next), rest, env).1
    ensures var t := ApplyStep(InstalledReloaders(reg), s, Some(next), rest, env).0.world.scheduler;
            && Follows(t, next.collector) && (t.active <==> HasWork(next.collector))
            && (t.open <==> s.current.collector == next.collector)
  {
    hide Buildable, HasWork;
    var rs, cs, w := InstalledReloaders(reg), ChangesOf(s.current, next), s.world;
    assert rs[0].agrees(w, s.current);
    var rebuilt := CollectorApply(reg, w, next).0;
    InstalledOutcome(reg, w, cs, s.current, next, env);
    InstalledOutcome(reg, rebuilt, cs, s.current, next, env);
  }

  function OneInput(kind: string): CollectorConfig {
    CollectorConfig([Instance(kind, ConfigTree.Obj(map[]))], [], [], [])
  }

  /**
   For instance: replacing the "cpu" input by "memory" and disabling auth in one config.
   Auth refuses, both pipelines build, and yet the output channel stays closed.
   */
  lemma RolledBackButClosed(reg: Registry, c: Config, env: nat -> nat)
    requires c.auth.enabled && Buildable(reg, OneInput("cpu")) && Buildable(reg, OneInput("memory"))
    ensures var cur := c.(collector := OneInput("cpu"));
            var next := c.(collector := OneInput("memory"), auth := AuthConfig(false, ""));
            var w := Subsystems(c.auth, c.prometheus, Started(cur.collector));
            ApplyStep(InstalledReloaders(reg), ReloadState(cur, w), Some(next), (_: Config) => true, env) ==
            (ReloadState(cur, w.(scheduler := w.scheduler.(open := false))), false)
  {
    var cur := c.(collector := OneInput("cpu"));
    var next := c.(collector := OneInput("memory"), auth := AuthConfig(false, ""));
    var w := Subsystems(c.auth, c.prometheus, Started(cur.collector));
    assert cur.collector.inputs[0] != next.collector.inputs[0];
    var cs := ChangesOf(cur, next);
    InstalledOutcome(reg, CollectorApply(reg, w, next).0, cs, cur, next, env);
  }

  // ---- Auth ----

  /** On a config that passed validation the auth reloader refuses exactly the disabling of auth. */
  lemma AuthRefusesOnlyDisabling(w: Subsystems, c: Config)
    requires AuthAcceptable(c.auth)
    ensures AuthApply(w, c).1 <==> c.auth.enabled
  {
    var i, j := TrimSpaceLaw(c.auth.bearerToken);
  }

  /** With the auth reloader installed anywhere, no run of reloads ever disables auth. */
  lemma {:induction false} AuthStaysEnabled(rs: seq<Reloader<Subsystems>>, k: nat, s: ReloadState<Subsystems>,
                                            attempts: seq<Attempt>, rest: Config -> bool)
    requires k < |rs| && rs[k] == AuthReloader() && s.current.auth.enabled
    ensures RunApplies(rs, s, attempts, rest).current.auth.enabled
    decreases |attempts|
  {
    if attempts != [] {
      var n := |attempts| - 1;
      AuthStaysEnabled(rs, k, s, attempts[..n], rest);
      var t, a := RunApplies(rs, s, attempts[..n], rest), attempts[n];
      if a.parsed.Some? && !a.parsed.value.auth.enabled {
        var next := a.parsed.value;
        RefusalBlocks(rs, 0, k, ChangesOf(t.current, next), t.world, t.current, next, a.env);
      }
    }
  }

  // ---- The server ----

  /** A new server fills in an empty prometheus path. */
  function NewOptions(c: Config): PrometheusConfig {
    if c.prometheus.path == "" then c.prometheus.(path := "/metrics") else c.prometheus
  }

  function AtStartup(c: Config, scheduler: Scheduler): Subsystems {
    Subsystems(c.auth, NewOptions(c), scheduler)
  }

  /** The agreement that reloads start from holds at startup exactly when the path is configured. */
  lemma StartupAgreement(c: Config, scheduler: Scheduler)
    ensures AgreeUpTo(ServerReloaders(), 3, AtStartup(c, scheduler), c) <==> c.prometheus.path != ""
  {
    var rs, w := ServerReloaders(), AtStartup(c, scheduler);
    assert rs[1].agrees(w, c) <==> c.prometheus.path != "";
    assert rs[0].agrees(w, c) && rs[2].agrees(w, c);
  }

  /**
   The first reload after startup, path configured or not: a failure is undone anyway,
   and a success ends in agreement exactly when the path was configured or the
   prometheus section changed.
   */
  lemma FirstReload(c: Config, scheduler: Scheduler, parsed: Option<Config>, rest: Config -> bool, env: nat -> nat)
    ensures var s := ReloadState(c, AtStartup(c, scheduler));
            var (t, ok) := ApplyStep(ServerReloaders(), s, parsed, rest, env);
            if ok then
              parsed == Some(t.current) &&
              (AgreeUpTo(ServerReloaders(), 3, t.world, t.current) <==>
               c.prometheus.path != "" || t.current.prometheus != c.prometheus)
            else t == s
  {
    var rs, w := ServerReloaders(), AtStartup(c, scheduler);
    var (t, ok) := ApplyStep(rs, ReloadState(c, w), parsed, rest, env);
    if parsed.Some? {
      ServerOutcome(w, ChangesOf(c, parsed.value), c, parsed.value, env);
    }
    if ok {
      assert rs[0].agrees(t.world, t.current) && rs[2].agrees(t.world, t.current);
      assert AgreeUpTo(rs, 3, t.world, t.current) <==> rs[1].agrees(t.world, t.current);
    }
  }

  class Server {
    var auth: AuthConfig
    var prometheus: PrometheusConfig

    constructor (c: Config)
      ensures auth == c.auth && prometheus == NewOptions(c)
      ensures prometheus.path == (if c.prometheus.path == "" then "/metrics" else c.prometheus.path)
      ensures prometheus.enabled == c.prometheus.enabled && prometheus.protectWithAuth == c.prometheus.protectWithAuth
    {
      auth := c.auth;
      prometheus := if c.prometheus.path == "" then c.prometheus.(path := "/metrics") else c.prometheus;
    }

    method UpdateAuth(cfg: AuthConfig)
      modifies this`auth
      ensures auth == cfg
    {
      auth := cfg;
    }

    method UpdatePrometheus(cfg: PrometheusConfig)
      modifies this`prometheus
      ensures prometheus == cfg
    {
      prometheus := cfg;
    }

    ghost function View(scheduler: Scheduler): Subsystems
      reads this
    {
      Subsystems(auth, prometheus, scheduler)
    }

    method ApplyAuth(c: Config) returns (ok: bool)
      modifies this`auth
      ensures forall s :: (View(s), ok) == AuthApply(old(View(s)), c)
      ensures ok <==> c.auth.enabled && |c.auth.bearerToken| >= 32
      ensures auth == if ok then c.auth else old(auth)
    {
      if !c.auth.enabled {
        return false;
      }
      if c.auth.bearerToken == "" {
        return false;
      }
      if |c.auth.bearerToken| < 32 {
        return false;
      }
      UpdateAuth(AuthConfig(c.auth.enabled, c.auth.bearerToken));
      return true;
    }

    method RollbackAuth(c: Config)
      modifies this`auth
      ensures forall s :: View(s) == AuthReloader().rollback(old(View(s)), c, 0)
    {
      UpdateAuth(AuthConfig(c.auth.enabled, c.auth.bearerToken));
    }

    method ApplyPrometheus(c: Config)
      modifies this`prometheus
      ensures forall s :: (View(s), true) == PrometheusReloader().apply(old(View(s)), c, 0)
    {
      UpdatePrometheus(PrometheusConfig(c.prometheus.enabled, c.prometheus.path, c.prometheus.protectWithAuth));
    }

    method RollbackPrometheus(c: Config)
      modifies this`prometheus
      ensures forall s :: View(s) == PrometheusReloader().rollback(old(View(s)), c, 0)
    {
      UpdatePrometheus(PrometheusConfig(c.prometheus.enabled, c.prometheus.path, c.prometheus.protectWithAuth));
    }
  }
}
