/** Logical bridges: a switch system's member switches form one bridge, every
    other switch is a bridge of its own. */
module StpBridges {
  import opened Text
  import opened Sorting
  import opened Topology
  import opened StpModel

  ghost function SwitchIds(devices: set<Device>): set<Id> {
    set d | d in devices && d.category.Switch? :: d.id
  }

  ghost predicate InSystem(systems: seq<SwitchSystem>, id: Id) {
    exists s :: s in systems && id in s.deviceIds
  }

  ghost function BridgeIdOf(systems: seq<SwitchSystem>, id: Id): Id {
    if InSystem(systems, id) then (var s :| s in systems && id in s.deviceIds; s.id) else id
  }

  /** The bridge of each switch; other devices have none. */
  ghost function BridgeOf(devices: set<Device>, systems: seq<SwitchSystem>): map<Id, Id> {
    map id | id in SwitchIds(devices) :: BridgeIdOf(systems, id)
  }

  ghost function Members(devices: set<Device>, s: SwitchSystem): set<Device> {
    set d | d in devices && d.category.Switch? && d.id in s.deviceIds
  }

  ghost function Priorities(devices: set<Device>): set<int> {
    set d | d in devices :: NormalizedSTPPriority(d.stpPriority)
  }

  ghost function LeastPriority(priorities: set<int>): (p: int) {
    LeastOf((x: int, y: int) => x < y, priorities + {HIGHEST_STP_PRIORITY})
  }

  ghost function SystemBridge(devices: set<Device>, s: SwitchSystem): Bridge {
    var members := Members(devices, s);
    Bridge(s.id, s.name, SortedIds(DeviceIds(members)), LeastPriority(Priorities(members)))
  }

  function DeviceBridge(d: Device): Bridge {
    Bridge(d.id, if d.hostname == "" then d.name else d.hostname, [d.id], NormalizedSTPPriority(d.stpPriority))
  }

  ghost function AllBridges(devices: set<Device>, systems: seq<SwitchSystem>): set<Bridge> {
    (set s | s in systems && Members(devices, s) != {} :: SystemBridge(devices, s))
    + (set d | d in devices && d.category.Switch? && !InSystem(systems, d.id) :: DeviceBridge(d))
  }

  ghost predicate UniqueBridges(bridges: set<Bridge>) {
    forall a, b | a in bridges && b in bridges && a.id == b.id :: a == b
  }

  /** The bridge records by identifier. */
  ghost function Bridges(devices: set<Device>, systems: seq<SwitchSystem>): map<Id, Bridge>
    requires UniqueBridges(AllBridges(devices, systems))
  {
    map b | b in AllBridges(devices, systems) :: b.id := b
  }

  lemma BridgeIdOfMember(systems: seq<SwitchSystem>, s: SwitchSystem, id: Id)
    requires DisjointSystems(systems) && s in systems && id in s.deviceIds
    ensures BridgeIdOf(systems, id) == s.id
  {
  }

  lemma BridgesUnique(t: Topology)
    requires BridgeReady(t)
    ensures UniqueBridges(AllBridges(Elements(t.devices), t.switchSystems))
  {
  }

  /** Every switch's bridge has a record. */
  lemma BridgeExists(t: Topology, id: Id)
    requires BridgeReady(t) && id in SwitchIds(Elements(t.devices))
    ensures exists b :: b in AllBridges(Elements(t.devices), t.switchSystems) && b.id == BridgeIdOf(t.switchSystems, id)
    ensures WellFormedId(BridgeIdOf(t.switchSystems, id))
  {
    var devices := Elements(t.devices);
    var d :| d in devices && d.category.Switch? && d.id == id;
    if InSystem(t.switchSystems, id) {
      var s :| s in t.switchSystems && id in s.deviceIds;
      BridgeIdOfMember(t.switchSystems, s, id);
      assert d in Members(devices, s);
      assert SystemBridge(devices, s) in AllBridges(devices, t.switchSystems);
    } else {
      assert DeviceBridge(d) in AllBridges(devices, t.switchSystems);
    }
  }

  /** table finds a device by its identifier. */
  ghost predicate Finds(devices: set<Device>, table: map<Id, Device>) {
    && (forall d | d in devices :: d.id in table && table[d.id] == d)
    && (forall id | id in table :: table[id] in devices && table[id].id == id)
  }

  method DeviceTable(devices: seq<Device>) returns (table: map<Id, Device>)
    requires DistinctDevices(devices)
    ensures Finds(Elements(devices), table)
  {
    table := map[];
    for i := 0 to |devices|
      invariant forall id :: id in table <==> exists k | 0 <= k < i :: devices[k].id == id
      invariant forall k | 0 <= k < i :: devices[k].id in table && table[devices[k].id] == devices[k]
    {
      table := table[devices[i].id := devices[i]];
    }
  }

  /** ids and priority are what the first j members of s contribute. */
  ghost predicate Picked(devices: set<Device>, s: SwitchSystem, j: nat, ids: seq<Id>, priority: int)
    requires j <= |s.deviceIds|
  {
    && Distinct(ids)
    && (forall id :: id in ids <==> id in SwitchIds(devices) && id in s.deviceIds[..j])
    && (priority == HIGHEST_STP_PRIORITY
        || exists d :: d in devices && d.id in ids && priority == NormalizedSTPPriority(d.stpPriority))
    && priority <= HIGHEST_STP_PRIORITY
    && forall d | d in devices && d.id in ids :: priority <= NormalizedSTPPriority(d.stpPriority)
  }

  lemma PickedAll(devices: set<Device>, s: SwitchSystem, ids: seq<Id>, priority: int)
    requires Picked(devices, s, |s.deviceIds|, ids, priority)
    requires forall d, e | d in devices && e in devices && d.id == e.id :: d == e
    ensures Elements(ids) == DeviceIds(Members(devices, s))
    ensures priority == LeastPriority(Priorities(Members(devices, s)))
  {
    assert s.deviceIds[..|s.deviceIds|] == s.deviceIds;
    MembersAreSwitches(devices, s);
    var members := Members(devices, s);
    assert forall d | d in devices && d.id in ids :: d in members by {
      forall d | d in devices && d.id in ids ensures d in members {
        var e :| e in devices && e.category.Switch? && e.id == d.id;
      }
    }
    var all := Priorities(members) + {HIGHEST_STP_PRIORITY};
    forall p | p in all ensures priority <= p {
      if p != HIGHEST_STP_PRIORITY {
        var d :| d in members && p == NormalizedSTPPriority(d.stpPriority);
        assert d.id in DeviceIds(members);
      }
    }
    assert priority in all;
  }

  method PickMember(ghost devices: set<Device>, s: SwitchSystem, j: nat, table: map<Id, Device>, ids: seq<Id>, priority: int)
    returns (ids': seq<Id>, priority': int)
    requires j < |s.deviceIds| && Distinct(s.deviceIds) && Finds(devices, table)
    requires Picked(devices, s, j, ids, priority)
    ensures Picked(devices, s, j + 1, ids', priority')
  {
    var id := s.deviceIds[j];
    assert s.deviceIds[..j + 1] == s.deviceIds[..j] + [id];
    if id in table && table[id].category.Switch? {
      assert id in SwitchIds(devices) && id !in s.deviceIds[..j];
      ids' := ids + [id];
      priority' := if NormalizedSTPPriority(table[id].stpPriority) < priority
        then NormalizedSTPPriority(table[id].stpPriority) else priority;
      assert forall d | d in devices && d.id in ids' :: d.id in ids || d == table[id];
    } else {
      assert id !in SwitchIds(devices);
      ids', priority' := ids, priority;
    }
  }

  /** The members of one system that are switches, and the lowest of their
      priorities. */
  method SystemMembers(ghost devices: set<Device>, s: SwitchSystem, table: map<Id, Device>) returns (bridge: Bridge)
    requires Distinct(s.deviceIds) && Finds(devices, table)
    ensures bridge == SystemBridge(devices, s)
  {
    var ids: seq<Id>, priority := [], HIGHEST_STP_PRIORITY;
    for j := 0 to |s.deviceIds|
      invariant Picked(devices, s, j, ids, priority)
    {
      ids, priority := PickMember(devices, s, j, table, ids, priority);
    }
    PickedAll(devices, s, ids, priority);
    LessIsStrictTotal();
    var sorted := Sort(ids, Less);
    AscendingUnique(Less, sorted, SortedIds(DeviceIds(Members(devices, s))));
    bridge := Bridge(s.id, s.name, sorted, priority);
  }

  /** The bridge map holds every bridge of the first i systems. */
  ghost predicate SystemsDone(devices: set<Device>, systems: seq<SwitchSystem>, i: nat, bridgeOf: map<Id, Id>,
                              bridges: map<Id, Bridge>)
    requires i <= |systems|
  {
    && (forall id :: id in bridgeOf <==> id in SwitchIds(devices) && InSystem(systems[..i], id))
    && (forall id | id in bridgeOf :: bridgeOf[id] == BridgeIdOf(systems, id))
    && (forall id | id in bridges :: bridges[id].id == id && bridges[id] in AllBridges(devices, systems))
    && (forall k | 0 <= k < i && Members(devices, systems[k]) != {} :: systems[k].id in bridges)
  }

  /** Recording the bridge of one system's members. */
  method AssignBridge(bridgeOf: map<Id, Id>, ids: seq<Id>, bridge: Id) returns (r: map<Id, Id>)
    ensures forall id :: id in r <==> id in bridgeOf || id in ids
    ensures forall id | id in r :: r[id] == if id in ids then bridge else bridgeOf[id]
  {
    r := bridgeOf;
    for j := 0 to |ids|
      invariant forall id :: id in r <==> id in bridgeOf || id in ids[..j]
      invariant forall id | id in r :: r[id] == if id in ids[..j] then bridge else bridgeOf[id]
    {
      r := r[ids[j] := bridge];
    }
    assert ids[..|ids|] == ids;
  }

  lemma SystemAdded(devices: set<Device>, systems: seq<SwitchSystem>, i: nat,
                    bridgeOf: map<Id, Id>, bridges: map<Id, Bridge>, bridgeOf': map<Id, Id>, bridges': map<Id, Bridge>)
    requires DisjointSystems(systems) && i < |systems|
    requires SystemsDone(devices, systems, i, bridgeOf, bridges)
    requires var ids := SystemBridge(devices, systems[i]).deviceIds;
             && (forall id :: id in bridgeOf' <==> id in bridgeOf || id in ids)
             && (forall id | id in bridgeOf' :: bridgeOf'[id] == if id in ids then systems[i].id else bridgeOf[id])
             && bridges' == if ids == [] then bridges else bridges[systems[i].id := SystemBridge(devices, systems[i])]
    ensures SystemsDone(devices, systems, i + 1, bridgeOf', bridges')
  {
    hide Members, SystemBridge, AllBridges, BridgeIdOf, SwitchIds, DisjointSystems, InSystem;
    SystemBridgeMembers(devices, systems, systems[i]);
    SystemStep(systems, i);
  }

  lemma SystemBridgeMembers(devices: set<Device>, systems: seq<SwitchSystem>, s: SwitchSystem)
    requires DisjointSystems(systems) && s in systems
    ensures var ids := SystemBridge(devices, s).deviceIds;
            && (forall id :: id in ids <==> id in SwitchIds(devices) && id in s.deviceIds)
            && (forall id | id in ids :: BridgeIdOf(systems, id) == s.id)
            && (ids == [] <==> Members(devices, s) == {}) && SystemBridge(devices, s).id == s.id
            && (ids != [] ==> SystemBridge(devices, s) in AllBridges(devices, systems))
  {
    var ids := SystemBridge(devices, s).deviceIds;
    MembersAreSwitches(devices, s);
    assert Elements(ids) == DeviceIds(Members(devices, s));
    assert forall id :: id in ids <==> id in Elements(ids);
    forall id | id in ids ensures BridgeIdOf(systems, id) == s.id {
      BridgeIdOfMember(systems, s, id);
    }
    if ids != [] { assert ids[0] in DeviceIds(Members(devices, s)); }
  }

  lemma MembersAreSwitches(devices: set<Device>, s: SwitchSystem)
    ensures forall id :: id in DeviceIds(Members(devices, s)) <==> id in SwitchIds(devices) && id in s.deviceIds
    ensures DeviceIds(Members(devices, s)) == {} <==> Members(devices, s) == {}
  {
    forall id | id in SwitchIds(devices) && id in s.deviceIds ensures id in DeviceIds(Members(devices, s)) {
      var d :| d in devices && d.category.Switch? && d.id == id;
      assert d in Members(devices, s);
    }
    forall d | d in Members(devices, s) ensures d.id in DeviceIds(Members(devices, s)) {}
  }

  lemma SystemStep(systems: seq<SwitchSystem>, i: nat)
    requires i < |systems|
    ensures forall id :: InSystem(systems[..i + 1], id) <==> InSystem(systems[..i], id) || id in systems[i].deviceIds
  {
    forall id ensures InSystem(systems[..i + 1], id) <==> InSystem(systems[..i], id) || id in systems[i].deviceIds {
      if u :| u in systems[..i] && id in u.deviceIds { assert u in systems[..i + 1]; }
      if id in systems[i].deviceIds { assert systems[i] in systems[..i + 1]; }
    }
  }

  /** The switches of the first i devices that are in no system have their own
      bridge. */
  ghost predicate DevicesDone(t: Topology, i: nat, bridgeOf: map<Id, Id>, bridges: map<Id, Bridge>)
    requires i <= |t.devices|
  {
    var devices, systems := Elements(t.devices), t.switchSystems;
    && (forall id | id in bridgeOf :: id in SwitchIds(devices) && bridgeOf[id] == BridgeIdOf(systems, id))
    && (forall id | id in SwitchIds(devices) && InSystem(systems, id) :: id in bridgeOf)
    && (forall k | 0 <= k < i && t.devices[k].category.Switch? :: t.devices[k].id in bridgeOf)
    && (forall k | i <= k < |t.devices| && !InSystem(systems, t.devices[k].id) :: t.devices[k].id !in bridgeOf)
    && (forall id | id in bridges :: bridges[id].id == id && bridges[id] in AllBridges(devices, systems))
    && (forall s | s in systems && Members(devices, s) != {} :: s.id in bridges)
    && (forall k | 0 <= k < i && t.devices[k].category.Switch? && !InSystem(systems, t.devices[k].id)
          :: t.devices[k].id in bridges)
  }

  lemma DeviceAdded(t: Topology, i: nat, bridgeOf: map<Id, Id>, bridges: map<Id, Bridge>)
    requires BridgeReady(t) && i < |t.devices| && DevicesDone(t, i, bridgeOf, bridges)
    ensures var d := t.devices[i];
            if d.category.Switch? && d.id !in bridgeOf
            then DevicesDone(t, i + 1, bridgeOf[d.id := d.id], bridges[d.id := DeviceBridge(d)])
            else DevicesDone(t, i + 1, bridgeOf, bridges)
  {
    hide SystemBridge, DisjointSystems, Members, AllBridges, SwitchIds, SeparateBridgeIds, InSystem, BridgeIdOf;
    OwnBridge(Elements(t.devices), t.switchSystems, t.devices[i]);
    assert forall k | 0 <= k < |t.devices| && k != i :: t.devices[k].id != t.devices[i].id;
    assert forall k | 0 <= k < |t.devices| :: t.devices[k] in Elements(t.devices);
  }

  lemma OwnBridge(devices: set<Device>, systems: seq<SwitchSystem>, d: Device)
    requires d in devices
    ensures d.category.Switch? ==> d.id in SwitchIds(devices)
    ensures d.category.Switch? && !InSystem(systems, d.id) ==>
              DeviceBridge(d) in AllBridges(devices, systems) && BridgeIdOf(systems, d.id) == d.id
  {
    hide SystemBridge, Members;
  }

  /** The first loop of stpLogicalBridges: one bridge for each system. */
  method SystemBridges(t: Topology) returns (bridgeOf: map<Id, Id>, bridges: map<Id, Bridge>)
    requires BridgeReady(t)
    ensures SystemsDone(Elements(t.devices), t.switchSystems, |t.switchSystems|, bridgeOf, bridges)
  {
    hide SystemBridge, Members, AllBridges, BridgeIdOf, SwitchIds, UniqueBridges;
    ghost var devices := Elements(t.devices);
    var table := DeviceTable(t.devices);
    bridgeOf, bridges := map[], map[];
    for i := 0 to |t.switchSystems|
      invariant SystemsDone(devices, t.switchSystems, i, bridgeOf, bridges)
    {
      var bridge := SystemMembers(devices, t.switchSystems[i], table);
      var bridgeOf' := AssignBridge(bridgeOf, bridge.deviceIds, t.switchSystems[i].id);
      var bridges' := if |bridge.deviceIds| > 0 then bridges[t.switchSystems[i].id := bridge] else bridges;
      SystemAdded(devices, t.switchSystems, i, bridgeOf, bridges, bridgeOf', bridges');
      bridgeOf, bridges := bridgeOf', bridges';
    }
  }

  lemma SystemsThenDevices(t: Topology, bridgeOf: map<Id, Id>, bridges: map<Id, Bridge>)
    requires SystemsDone(Elements(t.devices), t.switchSystems, |t.switchSystems|, bridgeOf, bridges)
    ensures DevicesDone(t, 0, bridgeOf, bridges)
  {
    hide SystemBridge, Members, AllBridges, BridgeIdOf, SwitchIds;
    assert t.switchSystems[..|t.switchSystems|] == t.switchSystems;
  }

  /** stpLogicalBridges. */
  method LogicalBridges(t: Topology) returns (bridgeOf: map<Id, Id>, bridges: map<Id, Bridge>)
    requires BridgeReady(t)
    ensures UniqueBridges(AllBridges(Elements(t.devices), t.switchSystems))
    ensures bridgeOf == BridgeOf(Elements(t.devices), t.switchSystems)
    ensures bridges == Bridges(Elements(t.devices), t.switchSystems)
  {
    hide *;
    bridgeOf, bridges := SystemBridges(t);
    SystemsThenDevices(t, bridgeOf, bridges);
    for i := 0 to |t.devices|
      invariant DevicesDone(t, i, bridgeOf, bridges)
    {
      DeviceAdded(t, i, bridgeOf, bridges);
      var d := t.devices[i];
      if d.category.Switch? && d.id !in bridgeOf {
        bridgeOf := bridgeOf[d.id := d.id];
        bridges := bridges[d.id := DeviceBridge(d)];
      }
    }
    BridgesUnique(t);
    TablesComplete(t, bridgeOf, bridges);
  }

  lemma TablesComplete(t: Topology, bridgeOf: map<Id, Id>, bridges: map<Id, Bridge>)
    requires DevicesDone(t, |t.devices|, bridgeOf, bridges)
    requires UniqueBridges(AllBridges(Elements(t.devices), t.switchSystems))
    ensures bridgeOf == BridgeOf(Elements(t.devices), t.switchSystems)
    ensures bridges == Bridges(Elements(t.devices), t.switchSystems)
  {
    hide Members, BridgeIdOf, UniqueBridges, AllBridges, SystemBridge;
    var devices, systems := Elements(t.devices), t.switchSystems;
    forall id | id in SwitchIds(devices) ensures id in bridgeOf {
      var d :| d in devices && d.category.Switch? && d.id == id;
      var k :| 0 <= k < |t.devices| && t.devices[k] == d;
    }
    forall b | b in AllBridges(devices, systems) ensures b.id in bridges {
      BridgeKinds(devices, systems, b);
      if d :| d in devices && d.category.Switch? && !InSystem(systems, d.id) && b.id == d.id {
        var k :| 0 <= k < |t.devices| && t.devices[k] == d;
      }
    }
    TableUnique(devices, systems, bridges);
  }

  lemma BridgeKinds(devices: set<Device>, systems: seq<SwitchSystem>, b: Bridge)
    requires b in AllBridges(devices, systems)
    ensures || (exists s :: s in systems && Members(devices, s) != {} && b.id == s.id)
            || (exists d :: d in devices && d.category.Switch? && !InSystem(systems, d.id) && b.id == d.id)
  {
  }

  lemma TableUnique(devices: set<Device>, systems: seq<SwitchSystem>, bridges: map<Id, Bridge>)
    requires UniqueBridges(AllBridges(devices, systems))
    requires forall id | id in bridges :: bridges[id].id == id && bridges[id] in AllBridges(devices, systems)
    requires forall b | b in AllBridges(devices, systems) :: b.id in bridges
    ensures bridges == Bridges(devices, systems)
  {
    hide AllBridges;
  }
}
