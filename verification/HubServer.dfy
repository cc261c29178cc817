/**
 The hub's registration and heartbeat protocol (internal/federation/server.go),
 as a class over shared leaf objects and as a pure step function whose runs
 carry the protocol's laws.
 */
module HubServer {
  import opened ConfigTree
  import opened Names
  import opened ConfigDistributor
  import opened Groups

  // ---- The protocol as a pure state machine ----

  datatype HubConfig = HubConfig(region: string, maxLeaves: int, rules: seq<GroupRule>)

  /** `registered` is the config resolved when the leaf last registered. */
  datatype LeafRecord = LeafRecord(labels: Labels, autoLabels: Labels, registered: Value)

  /** `tracked` are the agents the group engine knows. */
  datatype HubState = HubState(levels: ConfigLevels, leaves: map<string, LeafRecord>, tracked: set<string>)

  datatype Event =
    | Register(agentID: string, labels: Labels, autoLabels: Labels)
    | Heartbeat(agentID: string, labels: Labels)
    | UpdateLevels(levels: ConfigLevels)
    | RemoveLeaf(agentID: string)

  function CurrentGroups(hub: HubConfig, leaf: LeafRecord): set<string> {
    Members(GroupsFor(hub.rules, Merged(leaf.autoLabels, leaf.labels)))
  }

  /** The config a leaf would be given now, from its current labels and the current levels. */
  ghost function ResolvedNow(hub: HubConfig, levels: ConfigLevels, agentID: string, leaf: LeafRecord): Value {
    Resolve(levels, agentID, hub.region, CurrentGroups(hub, leaf))
  }

  predicate Accepts(hub: HubConfig, s: HubState) {
    |s.leaves| < hub.maxLeaves
  }

  ghost function Registered(hub: HubConfig, s: HubState, id: string, labels: Labels, autoLabels: Labels): LeafRecord {
    var groups := Members(GroupsFor(hub.rules, Merged(autoLabels, labels)));
    LeafRecord(labels, autoLabels, Resolve(s.levels, id, hub.region, groups))
  }

  ghost function Step(hub: HubConfig, s: HubState, e: Event): HubState {
    match e
    case Register(id, labels, autoLabels) =>
      if !Accepts(hub, s) then s
      else s.(leaves := s.leaves[id := Registered(hub, s, id, labels, autoLabels)], tracked := s.tracked + {id})
    case Heartbeat(id, labels) =>
      if id !in s.leaves || labels == Labels(map[]) then s
      else s.(leaves := s.leaves[id := s.leaves[id].(labels := labels)], tracked := s.tracked + {id})
    case UpdateLevels(levels) => s.(levels := levels)
    case RemoveLeaf(id) => s.(tracked := s.tracked - {id})
  }

  ghost function Run(hub: HubConfig, s: HubState, events: seq<Event>): HubState
    decreases |events|
  {
    if events == [] then s else Step(hub, Run(hub, s, events[..|events| - 1]), events[|events| - 1])
  }

  function Started(levels: ConfigLevels): HubState {
    HubState(levels, map[], {})
  }

  // ---- Laws of whole runs ----

  predicate WithinCapacity(hub: HubConfig, s: HubState) {
    |s.leaves| <= (if hub.maxLeaves > 0 then hub.maxLeaves else 0) && s.tracked <= s.leaves.Keys
  }

  lemma StepKeepsCapacity(hub: HubConfig, s: HubState, e: Event)
    requires WithinCapacity(hub, s)
    ensures WithinCapacity(hub, Step(hub, s, e))
  {}

  /** In every reachable state the hub is within capacity and tracks only registered leaves. */
  lemma {:induction false} RunKeepsCapacity(hub: HubConfig, levels: ConfigLevels, events: seq<Event>)
    ensures WithinCapacity(hub, Run(hub, Started(levels), events))
    decreases |events|
  {
    hide Step;
    if events != [] {
      var n := |events| - 1;
      RunKeepsCapacity(hub, levels, events[..n]);
      StepKeepsCapacity(hub, Run(hub, Started(levels), events[..n]), events[n]);
    }
  }

  /** The event at `i` is a registration of `id` that the hub accepts. */
  ghost predicate AcceptedAt(hub: HubConfig, levels: ConfigLevels, events: seq<Event>, i: nat, id: string)
    requires i < |events|
  {
    events[i].Register? && events[i].agentID == id && Accepts(hub, Run(hub, Started(levels), events[..i]))
  }

  /** `i` is the latest accepted registration of `id`. */
  ghost predicate LatestRegistration(hub: HubConfig, levels: ConfigLevels, events: seq<Event>, i: nat, id: string)
    requires i < |events|
  {
    AcceptedAt(hub, levels, events, i, id) &&
    forall j :: i < j < |events| ==> !AcceptedAt(hub, levels, events, j, id)
  }

  /** The labels the leaf last reported: in that registration, or in a later non-empty heartbeat. */
  function ReportedLabels(events: seq<Event>, i: nat, id: string): Labels
    requires i < |events| && events[i].Register?
    decreases |events|
  {
    var n := |events| - 1;
    if n == i then events[i].labels
    else if events[n].Heartbeat? && events[n].agentID == id && events[n].labels != Labels(map[]) then events[n].labels
    else ReportedLabels(events[..n], i, id)
  }

  /** Only an accepted registration replaces a leaf; a non-empty heartbeat of its own relabels it. */
  lemma StepOnLeaf(hub: HubConfig, s: HubState, e: Event, id: string)
    requires id in s.leaves && !(e.Register? && e.agentID == id && Accepts(hub, s))
    ensures id in Step(hub, s, e).leaves
    ensures Step(hub, s, e).leaves[id] ==
            if e.Heartbeat? && e.agentID == id && e.labels != Labels(map[]) then s.leaves[id].(labels := e.labels)
            else s.leaves[id]
  {}

  /**
   What the hub holds about a leaf is what its latest accepted registration and
   the heartbeats since then say: its labels, and the config resolved back then.
   */
  lemma {:induction false} LeafAfterRun(hub: HubConfig, levels: ConfigLevels, events: seq<Event>, i: nat, id: string)
    requires i < |events| && LatestRegistration(hub, levels, events, i, id)
    ensures var s, before := Run(hub, Started(levels), events), Run(hub, Started(levels), events[..i]);
            && id in s.leaves
            && s.leaves[id].labels == ReportedLabels(events, i, id)
            && s.leaves[id].autoLabels == events[i].autoLabels
            && s.leaves[id].registered ==
               Registered(hub, before, id, events[i].labels, events[i].autoLabels).registered
    decreases |events|
  {
    hide Resolve, GroupsFor, Members, Merged;
    var n := |events| - 1;
    if i < n {
      var init := events[..n];
      forall j | 0 <= j < n ensures AcceptedAt(hub, levels, init, j, id) <==> AcceptedAt(hub, levels, events, j, id) {
        assert init[..j] == events[..j];
      }
      LeafAfterRun(hub, levels, init, i, id);
      assert init[..i] == events[..i];
      assert !AcceptedAt(hub, levels, events, n, id);
      hide Step;
      StepOnLeaf(hub, Run(hub, Started(levels), init), events[n], id);
    }
  }

  /** A leaf is known exactly when some registration of it was accepted. */
  lemma {:induction false} KnownIffRegistered(hub: HubConfig, levels: ConfigLevels, events: seq<Event>, id: string)
    ensures id in Run(hub, Started(levels), events).leaves <==>
            exists i :: 0 <= i < |events| && AcceptedAt(hub, levels, events, i, id)
    decreases |events|
  {
    hide Resolve, GroupsFor, Members, Merged;
    if events != [] {
      var n := |events| - 1;
      var init := events[..n];
      KnownIffRegistered(hub, levels, init, id);
      forall j | 0 <= j < n ensures AcceptedAt(hub, levels, init, j, id) <==> AcceptedAt(hub, levels, events, j, id) {
        assert init[..j] == events[..j];
      }
      assert id in Run(hub, Started(levels), events).leaves <==>
             id in Run(hub, Started(levels), init).leaves || AcceptedAt(hub, levels, events, n, id);
    }
  }

  /** The event at `i` has the engine track `id`: an accepted registration, or a relabelling heartbeat of a known leaf. */
  ghost predicate TracksAt(hub: HubConfig, levels: ConfigLevels, events: seq<Event>, i: nat, id: string)
    requires i < |events|
  {
    || AcceptedAt(hub, levels, events, i, id)
    || (events[i].Heartbeat? && events[i].agentID == id && events[i].labels != Labels(map[]) &&
        id in Run(hub, Started(levels), events[..i]).leaves)
  }

  ghost predicate TracksSince(hub: HubConfig, levels: ConfigLevels, events: seq<Event>, i: nat, id: string) {
    i < |events| && TracksAt(hub, levels, events, i, id) && forall j :: i < j < |events| ==> events[j] != RemoveLeaf(id)
  }

  lemma TracksSincePrefix(hub: HubConfig, levels: ConfigLevels, events: seq<Event>, i: nat, id: string)
    requires i + 1 < |events|
    ensures var n := |events| - 1;
            TracksSince(hub, levels, events, i, id) <==>
            TracksSince(hub, levels, events[..n], i, id) && events[n] != RemoveLeaf(id)
  {
    hide Run;
    var n := |events| - 1;
    var init := events[..n];
    assert init[..i] == events[..i];
    assert forall j :: i < j < n ==> init[j] == events[j];
  }

  lemma StepTracks(hub: HubConfig, levels: ConfigLevels, events: seq<Event>, id: string)
    requires events != []
    ensures var n := |events| - 1;
            id in Run(hub, Started(levels), events).tracked <==>
            || TracksAt(hub, levels, events, n, id)
            || (id in Run(hub, Started(levels), events[..n]).tracked && events[n] != RemoveLeaf(id))
  {
    hide Registered;
  }

  /** A leaf is in the group index's care exactly when it registered or relabelled since it was last removed. */
  lemma {:induction false} TrackedExactly(hub: HubConfig, levels: ConfigLevels, events: seq<Event>, id: string)
    ensures id in Run(hub, Started(levels), events).tracked <==> exists i :: TracksSince(hub, levels, events, i, id)
    decreases |events|
  {
    hide Step, TracksAt;
    if events != [] {
      var n := |events| - 1;
      TrackedExactly(hub, levels, events[..n], id);
      StepTracks(hub, levels, events, id);
      assert TracksSince(hub, levels, events, n, id) <==> TracksAt(hub, levels, events, n, id);
      forall i: nat | i < n
        ensures TracksSince(hub, levels, events, i, id) <==>
                TracksSince(hub, levels, events[..n], i, id) && events[n] != RemoveLeaf(id)
      {
        TracksSincePrefix(hub, levels, events, i, id);
      }
    }
  }

  /** The flag a heartbeat answers with in state `s`. */
  ghost predicate UpdateAvailable(hub: HubConfig, s: HubState, id: string)
    requires id in s.leaves
  {
    ResolvedNow(hub, s.levels, id, s.leaves[id]) != s.leaves[id].registered
  }

  /**
   The update flag over any run: it is raised exactly when the config resolved now,
   from the labels reported since, differs from the one resolved at the latest
   accepted registration.
   */
  lemma UpdateFlagLaw(hub: HubConfig, levels: ConfigLevels, events: seq<Event>, i: nat, id: string)
    requires i < |events| && LatestRegistration(hub, levels, events, i, id)
    ensures var s, before := Run(hub, Started(levels), events), Run(hub, Started(levels), events[..i]);
            id in s.leaves &&
            (UpdateAvailable(hub, s, id) <==>
             Resolve(s.levels, id, hub.region,
                     Members(GroupsFor(hub.rules, Merged(events[i].autoLabels, ReportedLabels(events, i, id)))))
             != Resolve(before.levels, id, hub.region,
                        Members(GroupsFor(hub.rules, Merged(events[i].autoLabels, events[i].labels)))))
  {
    LeafAfterRun(hub, levels, events, i, id);
  }

  // ---- The server ----

  datatype RegisterResponse =
    | Rejected
    | Accepted(region: string, groups: seq<string>, version: Version)

  datatype HeartbeatResponse =
    | Unknown
    | Alive(version: Version, updateAvailable: bool)

  /** The engine holds the hub's own leaf objects, indexed with the labels on record. */
  predicate Tracked(leafStates: map<string, LeafState>, leaves: map<string, LeafState>,
                    seen: map<string, Labels>, records: map<string, LeafRecord>)
  {
    leafStates.Keys <= seen.Keys && leafStates.Keys <= leaves.Keys && leafStates.Keys <= records.Keys &&
    forall id :: id in leafStates ==>
      leafStates[id] == leaves[id] && seen[id] == Merged(records[id].autoLabels, records[id].labels)
  }

  lemma TrackedUpdate(leafStates: map<string, LeafState>, leaves: map<string, LeafState>, seen: map<string, Labels>,
                      records: map<string, LeafRecord>, id: string, leaf: LeafState, record: LeafRecord)
    requires Tracked(leafStates, leaves, seen, records)
    ensures Tracked(leafStates[id := leaf], leaves[id := leaf],
                    seen[id := Merged(record.autoLabels, record.labels)], records[id := record])
  {}

  /** A leaf object's fields hold what its record says, and the groups its labels give it. */
  predicate Holds(rules: seq<GroupRule>, leaf: LeafFields, id: string, record: LeafRecord) {
    leaf == LeafFields(id, record.labels, record.autoLabels,
                       GroupsFor(rules, Merged(record.autoLabels, record.labels)), Hash(record.registered))
  }

  /**
   Leaf objects, push channels and records exist for the same agents, which are
   not too many, and each object holds what its record says.
   */
  predicate Filed(rules: seq<GroupRule>, leaves: map<string, LeafFields>, push: set<string>,
                  records: map<string, LeafRecord>, maxLeaves: int)
  {
    && push == leaves.Keys == records.Keys
    && |records| <= (if maxLeaves > 0 then maxLeaves else 0)
    && forall id :: id in leaves ==> Holds(rules, leaves[id], id, records[id])
  }

  lemma FiledUpdate(rules: seq<GroupRule>, leaves: map<string, LeafFields>, push: set<string>,
                    records: map<string, LeafRecord>, maxLeaves: int, id: string, leaf: LeafFields, record: LeafRecord)
    requires Filed(rules, leaves, push, records, maxLeaves) && Holds(rules, leaf, id, record)
    requires id in leaves || |records| < maxLeaves
    ensures Filed(rules, leaves[id := leaf], push + {id}, records[id := record], maxLeaves)
  {}

  ghost function Snapshot(leaves: map<string, LeafState>): map<string, LeafFields>
    reads leaves.Values
  {
    map id | id in leaves :: leaves[id].Fields()
  }

  lemma FiledKeys(rules: seq<GroupRule>, leaves: map<string, LeafState>, push: set<string>,
                  records: map<string, LeafRecord>, maxLeaves: int)
    requires Filed(rules, Snapshot(leaves), push, records, maxLeaves)
    ensures push == leaves.Keys == records.Keys && |leaves| == |records|
  {}

  lemma FiledDistinct(rules: seq<GroupRule>, leaves: map<string, LeafState>, push: set<string>,
                      records: map<string, LeafRecord>, maxLeaves: int, leaf: LeafState)
    requires Filed(rules, Snapshot(leaves), push, records, maxLeaves)
    ensures forall id :: id in leaves && id != leaf.agentID ==> leaves[id] != leaf
  {
    forall id | id in leaves && id != leaf.agentID ensures leaves[id] != leaf {
      assert Snapshot(leaves)[id].agentID == id;
    }
  }

  lemma FiledHolds(rules: seq<GroupRule>, leaves: map<string, LeafState>, push: set<string>,
                   records: map<string, LeafRecord>, maxLeaves: int, id: string)
    requires Filed(rules, Snapshot(leaves), push, records, maxLeaves) && id in leaves
    ensures id in push && id in records && Holds(rules, leaves[id].Fields(), id, records[id])
  {}

  class Server {
    const region: string
    const maxLeaves: int
    const engine: GroupEngine
    const distributor: Distributor
    var leaves: map<string, LeafState>
    var configPushCh: set<string>
    ghost var records: map<string, LeafRecord>

    ghost predicate Valid()
      reads this, engine, leaves.Values
    {
      && Filed(engine.rules, Snapshot(leaves), configPushCh, records, maxLeaves)
      && engine.Indexes()
      && Tracked(engine.leafStates, leaves, engine.seen, records)
    }

    /** The hub never lets the group index drift from the leaves' labels. */
    lemma IndexNeverDrifts()
      requires Valid()
      ensures engine.Valid()
    {}

    ghost function Settings(): HubConfig {
      HubConfig(region, maxLeaves, engine.rules)
    }

    ghost function View(): HubState
      reads this, engine, distributor
    {
      HubState(distributor.levels, records, engine.leafStates.Keys)
    }

    constructor (region: string, maxLeaves: int, rules: seq<GroupRule>, levels: ConfigLevels)
      ensures Valid() && Settings() == HubConfig(region, maxLeaves, rules) && View() == Started(levels)
      ensures fresh({engine, distributor})
    {
      this.region, this.maxLeaves := region, maxLeaves;
      engine := new GroupEngine(rules);
      distributor := new Distributor(levels);
      leaves, configPushCh, records := map[], {}, map[];
    }

    /** The version a leaf's current groups give, and whether it differs from the registered one. */
    method CheckVersion(id: string) returns (version: Version, changed: bool)
      requires Valid() && id in leaves
      ensures id in records && version == Hash(ResolvedNow(Settings(), distributor.levels, id, records[id]))
      ensures changed <==> UpdateAvailable(Settings(), View(), id)
    {
      hide Resolve, GroupsFor, Members, Merged, IndexAgrees;
      assert Holds(engine.rules, Snapshot(leaves)[id], id, records[id]);
      version := distributor.GetConfigVersion(id, region, leaves[id].groups);
      changed := version != leaves[id].configVersion;
    }

    /** Files the leaf, indexes it, and stamps it with the version its groups resolve to. */
    method Enter(leaf: LeafState)
      requires engine.Indexes()
      requires forall id :: id in leaves && id != leaf.agentID ==> leaves[id] != leaf
      modifies this`leaves, engine, leaf`groups, leaf`configVersion
      ensures engine.Indexes()
      ensures Snapshot(leaves) == old(Snapshot(leaves))[leaf.agentID := leaf.Fields()]
      ensures leaves == old(leaves)[leaf.agentID := leaf]
      ensures engine.leafStates == old(engine.leafStates)[leaf.agentID := leaf]
      ensures engine.seen == old(engine.seen)[leaf.agentID := leaf.AllLabels()]
      ensures leaf.groups == GroupsFor(engine.rules, leaf.AllLabels())
      ensures leaf.configVersion == Hash(Resolve(distributor.levels, leaf.agentID, region, Members(leaf.groups)))
    {
      hide Resolve, GroupsFor, Members, IndexAgrees;
      leaves := leaves[leaf.agentID := leaf];
      engine.UpdateLeaf(leaf);
      leaf.configVersion := distributor.GetConfigVersion(leaf.agentID, region, leaf.groups);
    }

    method Install(leaf: LeafState)
      requires Valid() && |records| < maxLeaves
      modifies this, engine, leaf`groups, leaf`configVersion
      ensures Valid()
      ensures leaves == old(leaves)[leaf.agentID := leaf]
      ensures View() == Step(Settings(), old(View()), Register(leaf.agentID, leaf.labels, leaf.autoLabels))
    {
      hide Resolve, GroupsFor, Members, Merged, Tracked, Filed, GroupEngine.Indexes;
      var id := leaf.agentID;
      ghost var before, snap := leaves, Snapshot(leaves);
      FiledDistinct(engine.rules, leaves, configPushCh, records, maxLeaves, leaf);
      Enter(leaf);
      ghost var record := LeafRecord(leaf.labels, leaf.autoLabels, leaf.configVersion.cfg);
      FiledUpdate(engine.rules, snap, configPushCh, records, maxLeaves, id, leaf.Fields(), record);
      TrackedUpdate(old(engine.leafStates), before, old(engine.seen), records, id, leaf, record);
      configPushCh := configPushCh + {id};
      records := records[id := record];
      assert Filed(engine.rules, Snapshot(leaves), configPushCh, records, maxLeaves);
      assert Tracked(engine.leafStates, leaves, engine.seen, records);
      assert engine.leafStates.Keys == old(engine.leafStates.Keys) + {id};
    }

    method HandleRegister(id: string, labels: Labels, autoLabels: Labels) returns (resp: RegisterResponse)
      requires Valid()
      modifies this, engine
      ensures Valid() && View() == Step(Settings(), old(View()), Register(id, labels, autoLabels))
      ensures resp.Rejected? <==> old(|leaves|) >= maxLeaves
      ensures resp.Rejected? ==> leaves == old(leaves)
      ensures resp.Accepted? ==> id in leaves && fresh(leaves[id]) && leaves == old(leaves)[id := leaves[id]]
      ensures resp.Accepted? ==>
                resp == Accepted(region, GroupsFor(engine.rules, Merged(autoLabels, labels)), leaves[id].configVersion)
      ensures resp.Accepted? ==>
                resp.version == Hash(Resolve(distributor.levels, id, region,
                                             Members(GroupsFor(engine.rules, Merged(autoLabels, labels)))))
    {
      hide Resolve, GroupsFor, Members, Merged, InGroup, Tracked, Filed, GroupEngine.Indexes;
      FiledKeys(engine.rules, leaves, configPushCh, records, maxLeaves);
      if |leaves| >= maxLeaves {
        return Rejected;
      }
      var leaf := new LeafState(id, labels, autoLabels);
      var groups := engine.Evaluate(leaf);
      leaf.groups := groups;
      Install(leaf);
      FiledHolds(engine.rules, leaves, configPushCh, records, maxLeaves, id);
      return Accepted(region, groups, leaf.configVersion);
    }

    method Reindex(leaf: LeafState, labels: Labels)
      requires engine.Indexes() && leaf.agentID in leaves && leaves[leaf.agentID] == leaf
      requires forall id :: id in leaves && id != leaf.agentID ==> leaves[id] != leaf
      modifies engine, leaf`labels, leaf`groups
      ensures engine.Indexes()
      ensures Snapshot(leaves) == old(Snapshot(leaves))[leaf.agentID := leaf.Fields()]
      ensures engine.leafStates == old(engine.leafStates)[leaf.agentID := leaf]
      ensures engine.seen == old(engine.seen)[leaf.agentID := leaf.AllLabels()]
      ensures leaf.labels == labels && leaf.groups == GroupsFor(engine.rules, leaf.AllLabels())
    {
      hide GroupsFor, IndexAgrees;
      leaf.labels := labels;
      engine.UpdateLeaf(leaf);
    }

    method Relabel(leaf: LeafState, labels: Labels)
      requires Valid() && leaf.agentID in leaves && leaves[leaf.agentID] == leaf && labels != Labels(map[])
      modifies this`records, engine, leaf`labels, leaf`groups
      ensures Valid()
      ensures View() == Step(Settings(), old(View()), Heartbeat(leaf.agentID, labels))
    {
      hide Resolve, GroupsFor, Members, Merged, Tracked, Filed, GroupEngine.Indexes;
      var id := leaf.agentID;
      ghost var snap := Snapshot(leaves);
      FiledDistinct(engine.rules, leaves, configPushCh, records, maxLeaves, leaf);
      FiledHolds(engine.rules, leaves, configPushCh, records, maxLeaves, id);
      ghost var record := records[id].(labels := labels);
      Reindex(leaf, labels);
      FiledUpdate(engine.rules, snap, configPushCh, records, maxLeaves, id, leaf.Fields(), record);
      TrackedUpdate(old(engine.leafStates), leaves, old(engine.seen), records, id, leaf, record);
      assert leaves[id := leaf] == leaves && configPushCh + {id} == configPushCh;
      records := records[id := record];
      assert Filed(engine.rules, Snapshot(leaves), configPushCh, records, maxLeaves);
      assert Tracked(engine.leafStates, leaves, engine.seen, records);
      assert engine.leafStates.Keys == old(engine.leafStates.Keys) + {id};
    }

    method HandleHeartbeat(id: string, labels: Labels) returns (resp: HeartbeatResponse)
      requires Valid()
      modifies this, engine, if id in leaves then {leaves[id]} else {}
      ensures Valid() && leaves == old(leaves)
      ensures View() == Step(Settings(), old(View()), Heartbeat(id, labels))
      ensures resp.Unknown? <==> id !in leaves
      ensures resp.Alive? ==>
                && id in records
                && resp.version == Hash(ResolvedNow(Settings(), distributor.levels, id, records[id]))
                && (resp.updateAvailable <==> UpdateAvailable(Settings(), View(), id))
    {
      hide Resolve, GroupsFor, Members, Merged, Tracked, Filed, GroupEngine.Indexes, ResolvedNow;
      if id !in leaves {
        FiledKeys(engine.rules, leaves, configPushCh, records, maxLeaves);
        return Unknown;
      }
      FiledHolds(engine.rules, leaves, configPushCh, records, maxLeaves, id);
      if labels != Labels(map[]) {
        Relabel(leaves[id], labels);
      }
      var version, changed := CheckVersion(id);
      return Alive(version, changed);
    }
  }

  /** Dropping an agent from the group engine leaves its registration in place. */
  method Untrack(hub: Server, id: string)
    requires hub.Valid()
    modifies hub.engine
    ensures hub.Valid() && hub.leaves == old(hub.leaves)
    ensures hub.View() == Step(hub.Settings(), old(hub.View()), RemoveLeaf(id))
  {
    hide Resolve, GroupsFor, Members, Merged, IndexAgrees, Filed;
    hub.IndexNeverDrifts();
    if id in hub.engine.leafStates {
      hub.engine.ListsItsGroups(id);
    }
    hub.engine.RemoveLeaf(id);
    assert hub.engine.leafStates.Keys == old(hub.engine.leafStates.Keys) - {id};
  }

  /** Any sequence of calls drives the server through the run of the pure machine. */
  method Serve(hub: Server, events: seq<Event>)
    requires hub.Valid()
    modifies hub, hub.engine, hub.distributor, hub.leaves.Values
    ensures hub.Valid() && hub.View() == Run(hub.Settings(), old(hub.View()), events)
    ensures hub.engine.Valid()
  {
    hide Resolve, GroupsFor, Members, Merged, Tracked, Filed, GroupEngine.Indexes;
    ghost var initial := hub.View();
    ghost var mine := hub.leaves.Values;
    for i := 0 to |events|
      invariant hub.Valid() && hub.View() == Run(hub.Settings(), initial, events[..i])
      invariant forall x :: x in hub.leaves ==> fresh(hub.leaves[x]) || hub.leaves[x] in mine
    {
      assert events[..i + 1][..i] == events[..i];
      match events[i] {
        case Register(id, labels, autoLabels) =>
          var _ := hub.HandleRegister(id, labels, autoLabels);
        case Heartbeat(id, labels) =>
          var _ := hub.HandleHeartbeat(id, labels);
        case UpdateLevels(levels) =>
          hub.distributor.UpdateLevels(levels);
        case RemoveLeaf(id) =>
          Untrack(hub, id);
      }
    }
    assert events[..|events|] == events;
    hub.IndexNeverDrifts();
  }
}
