/** SimulateSTP: every VLAN of a topology, every switching domain of the VLAN,
    and then the bridges that carry the VLAN and have no edge in it. */
module StpSimulation {
  import opened Text
  import opened Sorting
  import opened Topology
  import opened Ports
  import opened StpModel
  import opened StpBridges
  import opened StpEdges
  import opened StpEdgeFacts
  import opened StpComponents
  import opened StpDomains
  import opened StpTree
  import opened StpSearch
  import opened StpPaths
  import opened StpInstance
  import opened StpComponentSimulation

  // ----- one VLAN

  ghost function WiringFor(t: Topology, vlan: int): Wiring {
    var devices := Elements(t.devices);
    Wiring(BridgeOf(devices, t.switchSystems), PortTable(devices), vlan)
  }

  ghost function BridgeRecords(t: Topology): map<Id, Bridge>
    requires StpReady(t)
  {
    BridgesUnique(t);
    Bridges(Elements(t.devices), t.switchSystems)
  }

  lemma LinksUnique(links: seq<Link>)
    requires DistinctLinks(links)
    ensures UniqueLinks(Elements(links))
  {
  }

  /** The logical edges of one VLAN. */
  ghost function VlanEdges(t: Topology, vlan: int): (r: seq<Edge>)
    requires StpReady(t)
    ensures Ascending(EdgeLess, r)
  {
    LinksUnique(t.links);
    EdgeIdsDiffer(WiringFor(t, vlan), t.links, t.linkGroups);
    SortedEdges(WiringFor(t, vlan), Elements(t.links), t.linkGroups)
  }

  lemma BridgeNames(t: Topology, vlan: int)
    requires StpReady(t)
    ensures NamedBridges(WiringFor(t, vlan))
    ensures forall d | d in WiringFor(t, vlan).bridgeOf :: WiringFor(t, vlan).bridgeOf[d] in BridgeRecords(t)
  {
    BridgesUnique(t);
    var bridgeOf := WiringFor(t, vlan).bridgeOf;
    forall d | d in bridgeOf ensures WellFormedId(bridgeOf[d]) && bridgeOf[d] in BridgeRecords(t) {
      BridgeExists(t, d);
    }
  }

  lemma RecordsNamed(t: Topology)
    requires StpReady(t)
    ensures forall id | id in BridgeRecords(t) :: BridgeRecords(t)[id].id == id
  {
    BridgesUnique(t);
  }

  lemma EdgeOfVlan(t: Topology, vlan: int, e: Edge)
    requires StpReady(t) && e in VlanEdges(t, vlan)
    ensures Joins(WiringFor(t, vlan), e) && e.left in BridgeRecords(t) && e.right in BridgeRecords(t)
    ensures Distinct(e.links) && forall l | l in e.links :: l in t.links && l.sourcePortId != l.targetPortId
  {
    hide BridgeOf, PortTable, Bridges, AllEdges;
    LinksUnique(t.links);
    BridgeNames(t, vlan);
    VlanEdgeIsEdge(t, vlan, e);
    EdgesJoin(WiringFor(t, vlan), Elements(t.links), t.linkGroups, e);
    EdgeLinks(WiringFor(t, vlan), t.links, t.linkGroups, e);
    assert e.links[0] in e.links;
  }

  lemma VlanEdgeIsEdge(t: Topology, vlan: int, e: Edge)
    requires StpReady(t) && e in VlanEdges(t, vlan)
    ensures UniqueLinks(Elements(t.links)) && e in AllEdges(WiringFor(t, vlan), Elements(t.links), t.linkGroups)
  {
    LinksUnique(t.links);
    EdgeIdsDiffer(WiringFor(t, vlan), t.links, t.linkGroups);
    assert e in Elements(VlanEdges(t, vlan));
  }

  lemma EdgesApart(t: Topology, vlan: int)
    requires StpReady(t)
    ensures SameIdSameEdge(Elements(VlanEdges(t, vlan)))
    ensures LinksApart(Elements(VlanEdges(t, vlan)))
    ensures Ends(Elements(VlanEdges(t, vlan))) <= BridgeRecords(t).Keys
  {
    hide BridgeOf, PortTable, Bridges, AllEdges, VlanEdges, Joins, WiringFor;
    var edges := VlanEdges(t, vlan);
    LinksUnique(t.links);
    forall e | e in edges
      ensures Distinct(e.links) && e.left in BridgeRecords(t) && e.right in BridgeRecords(t)
      ensures forall l | l in e.links :: l in t.links && l.sourcePortId != l.targetPortId
    {
      EdgeOfVlan(t, vlan, e);
    }
    forall e, f, l, m | e in edges && f in edges && l in e.links && m in f.links && l.id == m.id ensures e == f && l == m {
      EdgeOfVlan(t, vlan, e);
      EdgeOfVlan(t, vlan, f);
      assert l in Elements(t.links) && m in Elements(t.links);
      VlanEdgeIsEdge(t, vlan, e);
      VlanEdgeIsEdge(t, vlan, f);
      LinkInOneEdge(WiringFor(t, vlan), t.links, t.linkGroups, e, f, l);
    }
    VlanIdsDiffer(t, vlan);
  }

  lemma VlanIdsDiffer(t: Topology, vlan: int)
    requires StpReady(t)
    ensures SameIdSameEdge(Elements(VlanEdges(t, vlan)))
  {
    LinksUnique(t.links);
    EdgeIdsDiffer(WiringFor(t, vlan), t.links, t.linkGroups);
  }

  /** The setting in which the i-th domain of a VLAN is simulated. */
  ghost function SettingFor(t: Topology, vlan: int, i: nat): (x: Setting)
    requires StpReady(t) && i < |Components(VlanEdges(t, vlan))|
    ensures x.vlan == vlan && x.domain == i + 1
  {
    hide *;
    Setting(vlan, i + 1, Components(VlanEdges(t, vlan))[i], BridgeRecords(t), WiringFor(t, vlan))
  }

  lemma SettingReady(t: Topology, vlan: int, i: nat)
    requires StpReady(t) && i < |Components(VlanEdges(t, vlan))|
    ensures Ready(SettingFor(t, vlan, i))
  {
    hide BridgeOf, PortTable, Bridges, VlanEdges, WiringFor, Components, BridgeRecords, Domain, Less;
    var edges := VlanEdges(t, vlan);
    var x := SettingFor(t, vlan, i);
    EdgesApart(t, vlan);
    forall e | e in edges ensures Less(e.left, e.right) && Joins(x.w, e) { EdgeOfVlan(t, vlan, e); }
    ComponentIsDomain(edges, BridgeRecords(t), i);
    RecordsNamed(t);
    PartReady(x, Elements(edges));
  }

  lemma PartReady(x: Setting, all: set<Edge>)
    requires Elements(x.edges) <= all && LinksApart(all) && Ends(all) <= x.bridges.Keys
    requires Ascending(EdgeLess, x.edges) && Domain(Elements(x.edges), x.bridges)
    requires forall id | id in x.bridges :: x.bridges[id].id == id
    requires forall e | e in all :: Joins(x.w, e)
    ensures Ready(x)
  {
    hide Domain, Joins, Ascending;
    forall e | e in x.edges ensures Joins(x.w, e) { assert e in Elements(x.edges); }
    assert Ends(Elements(x.edges)) <= x.bridges.Keys by { EndsWithin(Elements(x.edges), all); }
  }

  lemma EndsWithin(part: set<Edge>, all: set<Edge>)
    requires part <= all
    ensures Ends(part) <= Ends(all)
  {
  }

  ghost predicate AllReady(settings: seq<Setting>) { forall x | x in settings :: Ready(x) }

  ghost function DomainSettings(domains: seq<seq<Edge>>, vlan: int, bridges: map<Id, Bridge>, w: Wiring): (r: seq<Setting>)
    ensures |r| == |domains|
    ensures forall i | 0 <= i < |r| :: r[i] == Setting(vlan, i + 1, domains[i], bridges, w)
  {
    seq(|domains|, i requires 0 <= i < |domains| => Setting(vlan, i + 1, domains[i], bridges, w))
  }

  /** The settings of all domains of a VLAN that have edges. */
  ghost function Settings(t: Topology, vlan: int): seq<Setting>
    requires StpReady(t)
  {
    DomainSettings(Components(VlanEdges(t, vlan)), vlan, BridgeRecords(t), WiringFor(t, vlan))
  }

  lemma SettingsReady(t: Topology, vlan: int)
    requires StpReady(t)
    ensures AllReady(Settings(t, vlan)) && SettingsNumbered(Settings(t, vlan), vlan)
  {
    hide StpReady, Components, VlanEdges, Ready, WiringFor, BridgeRecords;
    var r := Settings(t, vlan);
    forall i | 0 <= i < |r| ensures Ready(r[i]) {
      SettingReady(t, vlan, i);
      assert r[i] == SettingFor(t, vlan, i);
    }
  }

  ghost predicate SettingsNumbered(settings: seq<Setting>, vlan: int) {
    forall i | 0 <= i < |settings| :: settings[i].vlan == vlan && settings[i].domain == i + 1
  }

  // ----- bridges without an edge

  predicate CarriesVLAN(d: Device, vlan: int) { exists p :: p in d.ports && PortCarriesVLAN(p, vlan) }

  /** The bridges of the devices that have a port carrying the VLAN. */
  ghost function ActiveBridges(devices: set<Device>, bridgeOf: map<Id, Id>, vlan: int): set<Id> {
    set d | d in devices && d.id in bridgeOf && CarriesVLAN(d, vlan) :: bridgeOf[d.id]
  }

  ghost function IsolatedIds(t: Topology, vlan: int): set<Id>
    requires StpReady(t)
  {
    ActiveBridges(Elements(t.devices), WiringFor(t, vlan).bridgeOf, vlan) - Ends(Elements(VlanEdges(t, vlan)))
  }

  lemma IsolatedKnown(t: Topology, vlan: int)
    requires StpReady(t)
    ensures IsolatedIds(t, vlan) <= BridgeRecords(t).Keys
  {
    hide StpReady, VlanEdges, WiringFor, BridgeRecords;
    BridgeNames(t, vlan);
  }

  /** The records of the bridges without an edge, by identifier. */
  ghost function IsolatedBridges(t: Topology, vlan: int): (r: seq<Bridge>)
    requires StpReady(t)
  {
    IsolatedKnown(t, vlan);
    Records(BridgeRecords(t), SortedIds(IsolatedIds(t, vlan)))
  }

  ghost function Records(records: map<Id, Bridge>, ids: seq<Id>): (r: seq<Bridge>)
    requires Elements(ids) <= records.Keys
    ensures |r| == |ids| && forall i | 0 <= i < |r| :: ids[i] in records && r[i] == records[ids[i]]
  {
    assert forall i | 0 <= i < |ids| :: ids[i] in Elements(ids);
    seq(|ids|, i requires 0 <= i < |ids| => records[ids[i]])
  }

  function IsolatedInstance(b: Bridge, vlan: int, domain: int, budget: Budget): (r: (Instance, Budget))
    ensures r.0.vlan == vlan && r.0.domain == domain
  {
    var complete := |b.deviceIds| <= budget.members;
    var state := BridgeState(b.id, b.name, if complete then b.deviceIds else [], b.priority, 0, []);
    (Instance(vlan, domain, b.id, b.name, [state], [], [PathRecord(b.id, [b.id], [])], false, !complete),
     Budget(budget.paths, if complete then budget.members - |b.deviceIds| else budget.members))
  }

  // ----- the whole analysis

  /** The domains with edges, one after the other on what is left of the budget. */
  ghost function ConnectedInstances(settings: seq<Setting>, budget: Budget): (seq<Instance>, Budget)
    requires AllReady(settings)
  {
    if settings == [] then ([], budget) else
      var (instances, left) := ConnectedInstances(settings[..|settings| - 1], budget);
      var (instance, left') := InstanceOf(settings[|settings| - 1], left);
      (instances + [instance], left')
  }

  ghost function IsolatedInstances(bridges: seq<Bridge>, vlan: int, first: int, budget: Budget): (seq<Instance>, Budget) {
    if bridges == [] then ([], budget) else
      var (instances, left) := IsolatedInstances(bridges[..|bridges| - 1], vlan, first, budget);
      var (instance, left') := IsolatedInstance(bridges[|bridges| - 1], vlan, first + |bridges| - 1, left);
      (instances + [instance], left')
  }

  /** The domains of one VLAN. */
  ghost function VlanInstances(t: Topology, vlan: int, budget: Budget): (seq<Instance>, Budget)
    requires StpReady(t)
  {
    SettingsReady(t, vlan);
    var settings := Settings(t, vlan);
    var (connected, left) := ConnectedInstances(settings, budget);
    var (isolated, left') := IsolatedInstances(IsolatedBridges(t, vlan), vlan, |settings| + 1, left);
    (connected + isolated, left')
  }

  /** Domains of one VLAN, numbered without gaps. */
  ghost predicate NumberedFrom(s: seq<Instance>, vlan: int, first: int) {
    forall k | 0 <= k < |s| :: s[k].vlan == vlan && s[k].domain == first + k
  }

  lemma NumberedOn(s: seq<Instance>, more: seq<Instance>, vlan: int, first: int)
    requires NumberedFrom(s, vlan, first) && NumberedFrom(more, vlan, first + |s|)
    ensures NumberedFrom(s + more, vlan, first)
  {
  }

  lemma NumberedOne(i: Instance)
    ensures NumberedFrom([i], i.vlan, i.domain)
  {
  }

  lemma InstanceNumber(x: Setting, budget: Budget)
    requires Ready(x)
    ensures InstanceOf(x, budget).0.vlan == x.vlan && InstanceOf(x, budget).0.domain == x.domain
  {
    hide Ready, RootOf, ReportUpTo;
  }

  lemma {:induction false} ConnectedNumbered(settings: seq<Setting>, vlan: int, budget: Budget)
    requires AllReady(settings) && SettingsNumbered(settings, vlan)
    ensures var r := ConnectedInstances(settings, budget);
            |r.0| == |settings| && NumberedFrom(r.0, vlan, 1)
  {
    hide InstanceOf, Ready;
    if settings != [] {
      var front, last := settings[..|settings| - 1], settings[|settings| - 1];
      ConnectedNumbered(front, vlan, budget);
      var (instances, left) := ConnectedInstances(front, budget);
      InstanceNumber(last, left);
      var instance := InstanceOf(last, left).0;
      NumberedOne(instance);
      NumberedOn(instances, [instance], vlan, 1);
    }
  }

  lemma {:induction false} IsolatedNumbered(bridges: seq<Bridge>, vlan: int, first: int, budget: Budget)
    ensures var r := IsolatedInstances(bridges, vlan, first, budget);
            |r.0| == |bridges| && NumberedFrom(r.0, vlan, first)
  {
    if bridges != [] {
      IsolatedNumbered(bridges[..|bridges| - 1], vlan, first, budget);
    }
  }

  /** A VLAN's domains are numbered from 1 without gaps: those with edges first,
      then the bridges without. */
  lemma VlanNumbered(t: Topology, vlan: int, budget: Budget)
    requires StpReady(t)
    ensures var r := VlanInstances(t, vlan, budget);
            && NumberedFrom(r.0, vlan, 1)
            && |r.0| == |Components(VlanEdges(t, vlan))| + |IsolatedBridges(t, vlan)|
  {
    hide StpReady, Components, VlanEdges, NumberedFrom, IsolatedBridges, ConnectedInstances, AllReady;
    SettingsReady(t, vlan);
    var settings := Settings(t, vlan);
    ConnectedNumbered(settings, vlan, budget);
    var (connected, left) := ConnectedInstances(settings, budget);
    IsolatedNumbered(IsolatedBridges(t, vlan), vlan, |settings| + 1, left);
    var isolated := IsolatedInstances(IsolatedBridges(t, vlan), vlan, |settings| + 1, left).0;
    NumberedOn(connected, isolated, vlan, 1);
  }

  /** The first n VLANs. */
  ghost function AllInstances(t: Topology, n: nat, budget: Budget): (seq<Instance>, Budget)
    requires StpReady(t) && n <= |t.vlans|
  {
    if n == 0 then ([], budget) else
      var (instances, left) := AllInstances(t, n - 1, budget);
      var (more, left') := VlanInstances(t, t.vlans[n - 1], left);
      (instances + more, left')
  }

  predicate InstanceLess(a: Instance, b: Instance) {
    a.vlan < b.vlan || (a.vlan == b.vlan && a.domain < b.domain)
  }

  /** Told apart by VLAN and domain. */
  ghost predicate Numbered(s: seq<Instance>) {
    forall i, j | 0 <= i < j < |s| :: s[i].vlan != s[j].vlan || s[i].domain != s[j].domain
  }

  ghost predicate OfVlans(s: seq<Instance>, vlans: seq<int>) {
    forall i | 0 <= i < |s| :: s[i].vlan in vlans
  }

  lemma VlanAppended(s: seq<Instance>, more: seq<Instance>, vlans: seq<int>, vlan: int)
    requires Numbered(s) && OfVlans(s, vlans) && NumberedFrom(more, vlan, 1) && vlan !in vlans
    ensures Numbered(s + more) && OfVlans(s + more, vlans + [vlan])
  {
  }

  lemma {:induction false} InstancesNumbered(t: Topology, n: nat, budget: Budget)
    requires StpReady(t) && n <= |t.vlans| && Distinct(t.vlans)
    ensures Numbered(AllInstances(t, n, budget).0) && OfVlans(AllInstances(t, n, budget).0, t.vlans[..n])
  {
    hide *;
    AllInstancesStep(t, n, budget);
    if n > 0 {
      NotEarlier(t.vlans, n);
      InstancesNumbered(t, n - 1, budget);
      var (instances, left) := AllInstances(t, n - 1, budget);
      var (more, left') := VlanInstances(t, t.vlans[n - 1], left);
      assert t.vlans[..n] == t.vlans[..n - 1] + [t.vlans[n - 1]];
      VlanNumbered(t, t.vlans[n - 1], left);
      VlanAppended(instances, more, t.vlans[..n - 1], t.vlans[n - 1]);
    } else {
      NoInstances();
    }
  }

  lemma NotEarlier(vlans: seq<int>, n: nat)
    requires Distinct(vlans) && 0 < n <= |vlans|
    ensures vlans[n - 1] !in vlans[..n - 1]
  {
  }

  lemma AllInstancesStep(t: Topology, n: nat, budget: Budget)
    requires StpReady(t) && n <= |t.vlans|
    ensures n == 0 ==> AllInstances(t, n, budget) == ([], budget)
    ensures n > 0 ==>
      var (instances, left) := AllInstances(t, n - 1, budget);
      var (more, left') := VlanInstances(t, t.vlans[n - 1], left);
      AllInstances(t, n, budget) == (instances + more, left')
  {
    hide StpReady, VlanInstances;
  }

  lemma NoInstances()
    ensures Numbered([]) && OfVlans([], [])
  {
  }

  lemma InstanceOrder(s: seq<Instance>)
    requires Numbered(s)
    ensures StrictOrder(InstanceLess) && Comparable(InstanceLess, Elements(s)) && Distinct(s)
  {
  }

  const MAX_STP_PATH_ENTRIES: nat := 200000
  const MAX_STP_BRIDGE_MEMBER_ENTRIES: nat := 200000

  const FullBudget := Budget(MAX_STP_PATH_ENTRIES, MAX_STP_BRIDGE_MEMBER_ENTRIES)

  /** The instances of a topology, by VLAN and domain. */
  ghost function Simulated(t: Topology): seq<Instance>
    requires StpReady(t) && Distinct(t.vlans)
  {
    var all := AllInstances(t, |t.vlans|, FullBudget).0;
    InstancesNumbered(t, |t.vlans|, FullBudget);
    InstanceOrder(all);
    SortedSet(InstanceLess, Elements(all))
  }
}
