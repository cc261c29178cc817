/**
 The agent's configuration and the comparison that decides what a hot reload may
 change (internal/config/config.go and diff.go). Sections that the code only ever
 compares as a whole are arbitrary trees; strings are sequences of bytes.
 */
module ConfigDiff {
  import opened Wrappers
  import ConfigTree

  type Section = ConfigTree.Value

  datatype AgentConfig = AgentConfig(
    id: string, name: string, mode: string, intervalSeconds: int, shutdownTimeoutSeconds: int, auditLog: Section)
  datatype ExecutorConfig = ExecutorConfig(timeoutSeconds: int, allowedCommands: seq<string>, maxOutputBytes: int)
  datatype ReporterConfig = ReporterConfig(
    mode: string, endpoint: string, timeoutSeconds: int, retryCount: int, retryIntervalMS: int)
  datatype AuthConfig = AuthConfig(enabled: bool, bearerToken: string)
  datatype PrometheusConfig = PrometheusConfig(enabled: bool, path: string, protectWithAuth: bool)
  datatype Instance = Instance(kind: string, config: Section)
  datatype CollectorConfig = CollectorConfig(
    inputs: seq<Instance>, processors: seq<Instance>, aggregators: seq<Instance>, outputs: seq<Instance>)
  datatype MTLSConfig = MTLSConfig(certFile: string, keyFile: string, caFile: string)
  datatype GRPCConfig = GRPCConfig(
    serverAddr: string, enrollToken: string, mtls: MTLSConfig, heartbeatIntervalSeconds: int,
    reconnectInitialBackoffMS: int, reconnectMaxBackoffMS: int, cachePersistPath: string)
  datatype SSHConfig = SSHConfig(user: string, password: string, keyFile: string, port: int)
  datatype HostConfig = HostConfig(id: string, addr: string, mode: string, ssh: SSHConfig)
  datatype GatewayConfig = GatewayConfig(
    enabled: bool, listenAddr: string, maxTunnels: int, tunnelTimeoutSeconds: int, idleTimeoutSeconds: int,
    hosts: seq<HostConfig>)

  datatype Config = Config(
    agent: AgentConfig, listenAddr: string, executor: ExecutorConfig, reporter: ReporterConfig, auth: AuthConfig,
    prometheus: PrometheusConfig, plugin: Section, grpc: GRPCConfig, sandbox: Section,
    collector: CollectorConfig,
    pluginGateway: Section, checker: Section, gateway: GatewayConfig, tracing: Section, alerting: Section,
    discovery: Section, updater: Section, wasm: Section, federation: Section)

  // ---- Validation: the auth rules, and the remaining rules as a parameter ----

  /** White space among the ASCII characters. */
  predicate IsSpace(c: char) { c == ' ' || '\t' <= c <= '\r' }

  function TrimSpace(s: string): string
    decreases |s|
  {
    if s == "" then ""
    else if IsSpace(s[0]) then TrimSpace(s[1..])
    else if IsSpace(s[|s| - 1]) then TrimSpace(s[..|s| - 1])
    else s
  }

  /** White space goes at both ends, nothing else goes, and none is left there. */
  lemma {:induction false} TrimSpaceLaw(s: string) returns (i: nat, j: nat)
    ensures i <= j <= |s| && TrimSpace(s) == s[i..j]
    ensures forall k :: 0 <= k < |s| && !(i <= k < j) ==> IsSpace(s[k])
    ensures i < j ==> !IsSpace(s[i]) && !IsSpace(s[j - 1])
    decreases |s|
  {
    i, j := 0, |s|;
    if s != "" && IsSpace(s[0]) {
      i, j := TrimSpaceLaw(s[1..]);
      i, j := i + 1, j + 1;
      assert forall k :: 0 < k < |s| ==> s[k] == s[1..][k - 1];
    } else if s != "" && IsSpace(s[|s| - 1]) {
      i, j := TrimSpaceLaw(s[..|s| - 1]);
      assert forall k :: 0 <= k < |s| - 1 ==> s[k] == s[..|s| - 1][k];
    }
  }

  predicate AuthAcceptable(a: AuthConfig) {
    a.enabled ==> TrimSpace(a.bearerToken) != "" && |TrimSpace(a.bearerToken)| >= 32
  }

  /** Auth is acceptable iff it is off, or what is left of the token without white space at its ends has 32 characters or more. */
  lemma AuthAcceptableExactly(a: AuthConfig) returns (i: nat, j: nat)
    ensures i <= j <= |a.bearerToken| && forall k :: 0 <= k < |a.bearerToken| && !(i <= k < j) ==> IsSpace(a.bearerToken[k])
    ensures i < j ==> !IsSpace(a.bearerToken[i]) && !IsSpace(a.bearerToken[j - 1])
    ensures AuthAcceptable(a) <==> !a.enabled || j - i >= 32
  {
    i, j := TrimSpaceLaw(a.bearerToken);
  }

  /** `rest` stands for the checks of Validate that concern other sections. */
  predicate Validate(c: Config, rest: Config -> bool) {
    AuthAcceptable(c.auth) && rest(c)
  }

  // ---- What may change and what may not ----

  datatype ChangeSet = ChangeSet(
    collector: bool, reporter: bool, auth: bool, prometheus: bool, pluginGateway: bool, checker: bool, alerting: bool)

  function ChangesOf(a: Config, b: Config): ChangeSet {
    ChangeSet(a.collector != b.collector, a.reporter != b.reporter, a.auth != b.auth, a.prometheus != b.prometheus,
              a.pluginGateway != b.pluginGateway, a.checker != b.checker, a.alerting != b.alerting)
  }

  /** The fields only a restart may change. */
  datatype Frozen = Frozen(
    id: string, name: string, intervalSeconds: int, shutdownTimeoutSeconds: int, listenAddr: string,
    grpc: GRPCConfig, executor: ExecutorConfig, sandbox: Section, plugin: Section, gateway: GatewayConfig)

  function FrozenOf(c: Config): Frozen {
    Frozen(c.agent.id, c.agent.name, c.agent.intervalSeconds, c.agent.shutdownTimeoutSeconds, c.listenAddr,
           c.grpc, c.executor, c.sandbox, c.plugin, c.gateway)
  }

  /** Field by field: what no reload may change. */
  predicate SameFrozen(a: Config, b: Config)
    ensures SameFrozen(a, b) <==> FrozenOf(a) == FrozenOf(b)
  {
    && a.agent.id == b.agent.id && a.agent.name == b.agent.name
    && a.agent.intervalSeconds == b.agent.intervalSeconds
    && a.agent.shutdownTimeoutSeconds == b.agent.shutdownTimeoutSeconds
    && a.listenAddr == b.listenAddr && a.grpc == b.grpc && a.executor == b.executor
    && a.sandbox == b.sandbox && a.plugin == b.plugin && a.gateway == b.gateway
  }

  /** The fields a reload may be refused for. */
  datatype FieldName =
    | AgentID | AgentName | AgentInterval | AgentShutdownTimeout | ListenAddr
    | GRPCServerAddr | EnrollToken | MTLS | HeartbeatInterval | InitialBackoff | MaxBackoff | CachePersistPath
    | ExecutorTimeout | AllowedCommands | MaxOutputBytes | Sandbox | Plugin
    | GatewayEnabled | GatewayListenAddr | MaxTunnels | TunnelTimeout | IdleTimeout | Hosts

  datatype HostPart = Whole | SSHUser | SSHPassword | SSHKeyFile | SSHPort

  /** A refused change: the changed field, with the index of the host it belongs to, if any. */
  datatype Change = Field(name: FieldName) | HostField(index: nat, part: HostPart)

  function Add(changes: seq<Change>, changed: bool, c: Change): (r: seq<Change>)
    ensures r == [] <==> changes == [] && !changed
    ensures forall d :: d in r <==> d in changes || (changed && d == c)
  {
    if changed then changes + [c] else changes
  }

  function DiffAgent(a: AgentConfig, b: AgentConfig): (r: seq<Change>)
    ensures r == [] <==> a.id == b.id && a.name == b.name && a.intervalSeconds == b.intervalSeconds &&
                         a.shutdownTimeoutSeconds == b.shutdownTimeoutSeconds
    ensures Field(AgentID) in r <==> a.id != b.id
    ensures Field(AgentName) in r <==> a.name != b.name
    ensures Field(AgentInterval) in r <==> a.intervalSeconds != b.intervalSeconds
    ensures Field(AgentShutdownTimeout) in r <==> a.shutdownTimeoutSeconds != b.shutdownTimeoutSeconds
  {
    var r0 := Add([], a.id != b.id, Field(AgentID));
    var r1 := Add(r0, a.name != b.name, Field(AgentName));
    var r2 := Add(r1, a.intervalSeconds != b.intervalSeconds, Field(AgentInterval));
    Add(r2, a.shutdownTimeoutSeconds != b.shutdownTimeoutSeconds, Field(AgentShutdownTimeout))
  }

  function DiffGRPC(a: GRPCConfig, b: GRPCConfig): (r: seq<Change>)
    ensures r == [] <==> a == b
    ensures Field(GRPCServerAddr) in r <==> a.serverAddr != b.serverAddr
    ensures Field(EnrollToken) in r <==> a.enrollToken != b.enrollToken
    ensures Field(MTLS) in r <==> a.mtls != b.mtls
    ensures Field(HeartbeatInterval) in r <==> a.heartbeatIntervalSeconds != b.heartbeatIntervalSeconds
    ensures Field(InitialBackoff) in r <==> a.reconnectInitialBackoffMS != b.reconnectInitialBackoffMS
    ensures Field(MaxBackoff) in r <==> a.reconnectMaxBackoffMS != b.reconnectMaxBackoffMS
    ensures Field(CachePersistPath) in r <==> a.cachePersistPath != b.cachePersistPath
  {
    var r0 := Add([], a.serverAddr != b.serverAddr, Field(GRPCServerAddr));
    var r1 := Add(r0, a.enrollToken != b.enrollToken, Field(EnrollToken));
    var r2 := Add(r1, a.mtls != b.mtls, Field(MTLS));
    var r3 := Add(r2, a.heartbeatIntervalSeconds != b.heartbeatIntervalSeconds, Field(HeartbeatInterval));
    var r4 := Add(r3, a.reconnectInitialBackoffMS != b.reconnectInitialBackoffMS, Field(InitialBackoff));
    var r5 := Add(r4, a.reconnectMaxBackoffMS != b.reconnectMaxBackoffMS, Field(MaxBackoff));
    Add(r5, a.cachePersistPath != b.cachePersistPath, Field(CachePersistPath))
  }

  function DiffExecutor(a: ExecutorConfig, b: ExecutorConfig): (r: seq<Change>)
    ensures r == [] <==> a == b
    ensures Field(ExecutorTimeout) in r <==> a.timeoutSeconds != b.timeoutSeconds
    ensures Field(AllowedCommands) in r <==> a.allowedCommands != b.allowedCommands
    ensures Field(MaxOutputBytes) in r <==> a.maxOutputBytes != b.maxOutputBytes
  {
    var r0 := Add([], a.timeoutSeconds != b.timeoutSeconds, Field(ExecutorTimeout));
    var r1 := Add(r0, a.allowedCommands != b.allowedCommands, Field(AllowedCommands));
    Add(r1, a.maxOutputBytes != b.maxOutputBytes, Field(MaxOutputBytes))
  }

  predicate Mentions(changes: seq<Change>, i: nat) {
    exists c :: c in changes && c.HostField? && c.index == i
  }

  lemma MentionsAppend(a: seq<Change>, b: seq<Change>, i: nat)
    ensures Mentions(a + b, i) <==> Mentions(a, i) || Mentions(b, i)
  {}

  function DiffHost(i: nat, a: HostConfig, b: HostConfig): (r: seq<Change>)
    ensures r == [] <==> a == b
    ensures forall c :: c in r ==> c.HostField? && c.index == i
    ensures HostField(i, Whole) in r <==> a.id != b.id || a.addr != b.addr || a.mode != b.mode
    ensures HostField(i, SSHUser) in r <==> a.ssh.user != b.ssh.user
    ensures HostField(i, SSHPassword) in r <==> a.ssh.password != b.ssh.password
    ensures HostField(i, SSHKeyFile) in r <==> a.ssh.keyFile != b.ssh.keyFile
    ensures HostField(i, SSHPort) in r <==> a.ssh.port != b.ssh.port
  {
    var r0 := Add([], a.id != b.id || a.addr != b.addr || a.mode != b.mode, HostField(i, Whole));
    var r1 := Add(r0, a.ssh.user != b.ssh.user, HostField(i, SSHUser));
    var r2 := Add(r1, a.ssh.password != b.ssh.password, HostField(i, SSHPassword));
    var r3 := Add(r2, a.ssh.keyFile != b.ssh.keyFile, HostField(i, SSHKeyFile));
    Add(r3, a.ssh.port != b.ssh.port, HostField(i, SSHPort))
  }

  lemma DiffHostMentions(i: nat, a: HostConfig, b: HostConfig, k: nat)
    ensures Mentions(DiffHost(i, a, b), k) <==> k == i && a != b
  {
    hide DiffHost;
    var r := DiffHost(i, a, b);
    if r != [] {
      assert r[0] in r;
    }
  }

  function DiffGatewayScalars(a: GatewayConfig, b: GatewayConfig): (r: seq<Change>)
    ensures r == [] <==> a.(hosts := b.hosts) == b
    ensures forall c :: c in r ==> c.Field?
    ensures Field(GatewayEnabled) in r <==> a.enabled != b.enabled
    ensures Field(GatewayListenAddr) in r <==> a.listenAddr != b.listenAddr
    ensures Field(MaxTunnels) in r <==> a.maxTunnels != b.maxTunnels
    ensures Field(TunnelTimeout) in r <==> a.tunnelTimeoutSeconds != b.tunnelTimeoutSeconds
    ensures Field(IdleTimeout) in r <==> a.idleTimeoutSeconds != b.idleTimeoutSeconds
  {
    var r0 := Add([], a.enabled != b.enabled, Field(GatewayEnabled));
    var r1 := Add(r0, a.listenAddr != b.listenAddr, Field(GatewayListenAddr));
    var r2 := Add(r1, a.maxTunnels != b.maxTunnels, Field(MaxTunnels));
    var r3 := Add(r2, a.tunnelTimeoutSeconds != b.tunnelTimeoutSeconds, Field(TunnelTimeout));
    Add(r3, a.idleTimeoutSeconds != b.idleTimeoutSeconds, Field(IdleTimeout))
  }

  /** The host list is walked by index only when its length did not change. */
  method DiffGateway(a: GatewayConfig, b: GatewayConfig) returns (changes: seq<Change>)
    ensures changes == [] <==> a == b
    ensures |a.hosts| == |b.hosts| ==>
              forall k: nat :: Mentions(changes, k) <==> k < |a.hosts| && a.hosts[k] != b.hosts[k]
  {
    hide DiffHost, DiffGatewayScalars, Mentions;
    changes := DiffGatewayScalars(a, b);
    if |a.hosts| != |b.hosts| {
      changes := changes + [Field(Hosts)];
      return;
    }
    ghost var scalars := changes == [];
    NoHosts(changes);
    for i := 0 to |a.hosts|
      invariant changes == [] <==> scalars && a.hosts[..i] == b.hosts[..i]
      invariant forall k: nat :: Mentions(changes, k) <==> k < i && a.hosts[k] != b.hosts[k]
    {
      ghost var before := changes;
      changes := changes + DiffHost(i, a.hosts[i], b.hosts[i]);
      assert a.hosts[..i + 1] == a.hosts[..i] + [a.hosts[i]] && b.hosts[..i + 1] == b.hosts[..i] + [b.hosts[i]];
      forall k: nat ensures Mentions(changes, k) <==> k <= i && a.hosts[k] != b.hosts[k] {
        MentionsAppend(before, DiffHost(i, a.hosts[i], b.hosts[i]), k);
        DiffHostMentions(i, a.hosts[i], b.hosts[i], k);
      }
    }
    assert a.hosts[..|a.hosts|] == a.hosts && b.hosts[..|b.hosts|] == b.hosts;
  }

  lemma NoHosts(changes: seq<Change>)
    requires forall c :: c in changes ==> c.Field?
    ensures forall k: nat :: !Mentions(changes, k)
  {}

  /**
   Refuses an invalid config; otherwise reports which reloadable sections changed,
   and refused changes exactly when some frozen field differs.
   */
  method Diff(a: Config, b: Config, rest: Config -> bool) returns (r: Result<(ChangeSet, seq<Change>), string>)
    ensures r.Err? <==> !Validate(b, rest)
    ensures r.Ok? ==> r.value.0 == ChangesOf(a, b)
    ensures r.Ok? ==>
              var cs := r.value.0;
              && (cs.collector <==> a.collector != b.collector) && (cs.reporter <==> a.reporter != b.reporter)
              && (cs.auth <==> a.auth != b.auth) && (cs.prometheus <==> a.prometheus != b.prometheus)
              && (cs.pluginGateway <==> a.pluginGateway != b.pluginGateway) && (cs.checker <==> a.checker != b.checker)
              && (cs.alerting <==> a.alerting != b.alerting)
    ensures r.Ok? ==> (r.value.1 == [] <==> SameFrozen(a, b))
    ensures r.Ok? ==>
              (r.value.1 == [] <==>
               && a.agent.id == b.agent.id && a.agent.name == b.agent.name
               && a.agent.intervalSeconds == b.agent.intervalSeconds
               && a.agent.shutdownTimeoutSeconds == b.agent.shutdownTimeoutSeconds
               && a.listenAddr == b.listenAddr && a.grpc == b.grpc && a.executor == b.executor
               && a.sandbox == b.sandbox && a.plugin == b.plugin && a.gateway == b.gateway)
  {
    hide DiffAgent, DiffGRPC, DiffExecutor, DiffGatewayScalars, Add, FrozenOf;
    if !Validate(b, rest) {
      return Err("invalid new config");
    }
    var gateway := DiffGateway(a.gateway, b.gateway);
    var changes := Add(DiffAgent(a.agent, b.agent), a.listenAddr != b.listenAddr, Field(ListenAddr));
    changes := changes + DiffGRPC(a.grpc, b.grpc) + DiffExecutor(a.executor, b.executor);
    changes := Add(changes, a.sandbox != b.sandbox, Field(Sandbox));
    changes := Add(changes, a.plugin != b.plugin, Field(Plugin));
    changes := changes + gateway;
    return Ok((ChangesOf(a, b), changes));
  }
}
