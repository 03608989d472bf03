/** What configuring a cable writes where, and when it is refused, read off the
    topologies alone. */
module ConfigurationMeaning {
  import opened Outcomes
  import opened Text
  import opened Sorting
  import opened Lists
  import opened Topology
  import opened Validation
  import opened ValidationFacts
  import opened Draft
  import opened LinkConfiguration
  import opened ConfigurationTheorems

  // ----- the VLANs

  /** The VLAN is one of those the configuration tags. */
  predicate Tags(c: Configuration, vlan: int) { !c.mode.Access? && vlan in c.allowedVLANs && vlan != c.nativeVLAN }

  /** The list holds exactly the tagged VLANs, each once and ascending. */
  ghost predicate ListsTagged(vlans: seq<int>, c: Configuration) {
    (forall v :: v in vlans <==> Tags(c, v)) && forall i, j | 0 <= i < j < |vlans| :: vlans[i] < vlans[j]
  }

  lemma TaggedListed(c: Configuration)
    ensures ListsTagged(Tagged(c), c)
  {
    var sorted, keep := SortedInts(Elements(c.allowedVLANs)), v => v != c.nativeVLAN;
    assert forall v :: v in sorted <==> v in Elements(sorted);
    assert forall v :: v in c.allowedVLANs <==> v in Elements(c.allowedVLANs);
    if !c.mode.Access? {
      assert Pairwise(sorted, Below);
      FilterPairwise(sorted, keep, Below);
      forall i, j | 0 <= i < j < |Tagged(c)| ensures Tagged(c)[i] < Tagged(c)[j] { assert Below(Tagged(c)[i], Tagged(c)[j]); }
    }
  }

  // ----- the cables and ports

  /** Of a group with the cable, or the cable itself. */
  predicate Together(t: Topology, link: Id, id: Id) {
    id == link || exists g :: g in t.linkGroups && link in g.linkIds && id in g.linkIds
  }

  /** A cable configured together with the cable ends at the port. */
  predicate EndsTogether(t: Topology, link: Id, port: Id) {
    exists l :: l in t.links && Together(t, link, l.id) && (port == l.sourcePortId || port == l.targetPortId)
  }

  lemma {:induction false} ScopeMembers(groups: seq<LinkGroup>, link: Id)
    requires Pairwise(groups, GroupsDiffer)
    ensures forall id :: id in Scope(groups, link) <==> id == link || exists g :: g in groups && link in g.linkIds && id in g.linkIds
  {
    if groups != [] {
      assert groups == [groups[0]] + groups[1..];
      assert forall i | 0 < i < |groups| :: GroupsDiffer(groups[0], groups[i]);
      assert Pairwise(groups[1..], GroupsDiffer);
      ScopeMembers(groups[1..], link);
      if link in groups[0].linkIds {
        forall g | g in groups && link in g.linkIds ensures g == groups[0] {
          var i :| 0 <= i < |groups| && groups[i] == g;
        }
      }
    }
  }

  lemma ScopeIs(t: Topology, link: Id)
    requires Valid(t)
    ensures forall id :: id in Scope(t.linkGroups, link) <==> Together(t, link, id)
  {
    hide Scope, GroupsDiffer, GroupValid, RacksValid, DevicesValid, LinksValid, SystemsValid, ClustersValid, AttachmentsValid;
    ScopeMembers(t.linkGroups, link);
  }

  lemma ScopePortsAre(t: Topology, link: Id)
    requires Valid(t)
    ensures forall port :: port in ScopePorts(t.links, Scope(t.linkGroups, link)) <==> EndsTogether(t, link, port)
  {
    hide Valid, Scope, LastLink, ScopeIndexes, Together;
    ScopeIs(t, link);
    DistinctOf(t);
    var scope := Scope(t.linkGroups, link);
    forall k: nat | k < |t.links| ensures k in ScopeIndexes(t.links, scope) <==> Together(t, link, t.links[k].id) {
      ScopeIndex(t.links, scope, k);
    }
    forall port | port in ScopePorts(t.links, scope) ensures EndsTogether(t, link, port) {
      var i :| i in ScopeIndexes(t.links, scope) && i < |t.links| && (port == t.links[i].sourcePortId || port == t.links[i].targetPortId);
      assert t.links[i] in t.links;
    }
    forall port | EndsTogether(t, link, port) ensures port in ScopePorts(t.links, scope) {
      var l :| l in t.links && Together(t, link, l.id) && (port == l.sourcePortId || port == l.targetPortId);
      var k :| 0 <= k < |t.links| && t.links[k] == l;
      assert k in ScopeIndexes(t.links, scope);
    }
  }

  lemma DistinctOf(t: Topology)
    requires Valid(t)
    ensures DistinctLinks(t.links)
  {
    hide DevicesValid, SystemsValid, GroupsValid, ClustersValid, AttachmentsValid, RacksValid, DistinctLinks;
    ValidLinks(t);
  }

  // ----- the result

  /** The cable carries the native VLAN first and the tagged ones after it. */
  ghost predicate LinkConfigured(l: Link, l': Link, c: Configuration) {
    && l' == l.(cableType := l'.cableType, primaryVLAN := c.nativeVLAN, vlanIds := l'.vlanIds)
    && l'.vlanIds != [] && l'.vlanIds[0] == c.nativeVLAN && ListsTagged(l'.vlanIds[1..], c)
    && l'.cableType == if Trim(c.cableType) == "" then l.cableType else Trim(c.cableType)
  }

  ghost predicate PortConfigured(p: Port, p': Port, c: Configuration) {
    p' == p.(mode := c.mode, nativeVLAN := c.nativeVLAN, allowedVLANs := p'.allowedVLANs) && ListsTagged(p'.allowedVLANs, c)
  }

  lemma OnePortConfigured(p: Port, c: Configuration)
    ensures PortConfigured(p, ConfigurePort(p, c, Tagged(c)), c)
  {
    hide Tagged, ListsTagged;
    TaggedListed(c);
  }

  lemma OneLinkConfigured(l: Link, c: Configuration)
    ensures LinkConfigured(l, ConfigureLink(l, c, Tagged(c)), c)
  {
    hide Tagged, ListsTagged;
    TaggedListed(c);
    assert ([c.nativeVLAN] + Tagged(c))[1..] == Tagged(c);
  }

  /** Configuring a cable gives exactly the cables of its group, and exactly the ports
      these end at, the mode, the native VLAN and the tagged VLANs asked for. */
  lemma ConfigurationWrites(t: Topology, link: Id, c: Configuration, t': Topology)
    requires Valid(t) && Configured(t, link, c) == Ok(t')
    ensures t' == t.(devices := t'.devices, links := t'.links) && |t'.links| == |t.links| && |t'.devices| == |t.devices|
    ensures forall k | 0 <= k < |t.links| ::
      if Together(t, link, t.links[k].id) then LinkConfigured(t.links[k], t'.links[k], c) else t'.links[k] == t.links[k]
    ensures forall i | 0 <= i < |t.devices| ::
      && t'.devices[i] == t.devices[i].(ports := t'.devices[i].ports) && |t'.devices[i].ports| == |t.devices[i].ports|
      && forall j | 0 <= j < |t.devices[i].ports| ::
           if EndsTogether(t, link, t.devices[i].ports[j].id) then PortConfigured(t.devices[i].ports[j], t'.devices[i].ports[j], c)
           else t'.devices[i].ports[j] == t.devices[i].ports[j]
  {
    hide *;
    ConfiguredScope(t, link, c, t');
    ScopeIs(t, link);
    ScopePortsAre(t, link);
    ScopeWritten(t, link, c, t');
  }

  lemma ScopeWritten(t: Topology, link: Id, c: Configuration, t': Topology)
    requires ScopeChanged(t, link, c, t')
    requires forall id :: id in Scope(t.linkGroups, link) <==> Together(t, link, id)
    requires forall port :: port in ScopePorts(t.links, Scope(t.linkGroups, link)) <==> EndsTogether(t, link, port)
    ensures t' == t.(devices := t'.devices, links := t'.links) && |t'.links| == |t.links| && |t'.devices| == |t.devices|
    ensures forall k | 0 <= k < |t.links| ::
      if Together(t, link, t.links[k].id) then LinkConfigured(t.links[k], t'.links[k], c) else t'.links[k] == t.links[k]
    ensures forall i | 0 <= i < |t.devices| ::
      && t'.devices[i] == t.devices[i].(ports := t'.devices[i].ports) && |t'.devices[i].ports| == |t.devices[i].ports|
      && forall j | 0 <= j < |t.devices[i].ports| ::
           if EndsTogether(t, link, t.devices[i].ports[j].id) then PortConfigured(t.devices[i].ports[j], t'.devices[i].ports[j], c)
           else t'.devices[i].ports[j] == t.devices[i].ports[j]
  {
    hide Tagged, Scope, ScopePorts, Together, EndsTogether, LinkConfigured, PortConfigured, ConfigureLink, ConfigurePort;
    forall k | 0 <= k < |t.links|
      ensures if Together(t, link, t.links[k].id) then LinkConfigured(t.links[k], t'.links[k], c) else t'.links[k] == t.links[k]
    {
      OneLinkConfigured(t.links[k], c);
    }
    forall i, j | 0 <= i < |t.devices| && 0 <= j < |t.devices[i].ports|
      ensures if EndsTogether(t, link, t.devices[i].ports[j].id) then PortConfigured(t.devices[i].ports[j], t'.devices[i].ports[j], c)
              else t'.devices[i].ports[j] == t.devices[i].ports[j]
    {
      OnePortConfigured(t.devices[i].ports[j], c);
    }
  }

  // ----- refusals

  ghost function LinksTogether(t: Topology, link: Id): set<Id> { set l | l in t.links && Together(t, link, l.id) :: l.id }

  ghost function PortsTogether(t: Topology, link: Id): set<Id> {
    set d, p | d in t.devices && p in d.ports && EndsTogether(t, link, p.id) :: p.id
  }

  ghost function TagSet(c: Configuration): set<int> { set v | v in c.allowedVLANs && Tags(c, v) }

  predicate RearCable(t: Topology, link: Id) { exists l :: l in t.links && l.id == link && l.IsRearPanelConnection() }

  /** The first reason against the configuration of a cable of a valid topology. */
  ghost function Refusal(t: Topology, link: Id, c: Configuration): Option<ConfigurationError> {
    if !LinkKnown(t, link) then Some(LinkNotFound)
    else if RearCable(t, link) then Some(RearMapping)
    else if c.mode.Unconfigured? then Some(UnsupportedMode)
    else if c.nativeVLAN !in t.vlans || exists v :: Tags(c, v) && v !in t.vlans then Some(UnknownVLAN)
    else if (|PortsTogether(t, link)| + |LinksTogether(t, link)|) * (|TagSet(c)| + 1) > MAX_VLAN_ENTRIES then Some(TooManyAssignments)
    else None
  }

  lemma TaggedSize(c: Configuration)
    ensures Elements(Tagged(c)) == TagSet(c) && |Tagged(c)| == |TagSet(c)|
    ensures forall v :: v in Tagged(c) <==> Tags(c, v)
  {
    hide Tagged;
    TaggedListed(c);
    DistinctSize(Tagged(c));
    assert forall v :: v in Tagged(c) <==> v in Elements(Tagged(c));
  }

  lemma Selected(t: Topology, link: Id)
    requires Valid(t)
    ensures var i := IndexOf(t.links, (l: Link) => l.id == link);
            && (i == |t.links| <==> !LinkKnown(t, link))
            && (i < |t.links| ==> (t.links[i].IsRearPanelConnection() <==> RearCable(t, link)))
  {
    hide Valid, IndexOf;
    DistinctOf(t);
    var i := IndexOf(t.links, (l: Link) => l.id == link);
    if i < |t.links| {
      assert t.links[i] in t.links && t.links[i].id == link;
      forall l | l in t.links && l.id == link ensures l == t.links[i] {
        var k :| 0 <= k < |t.links| && t.links[k] == l;
      }
    }
  }

  lemma ScopeKnown(t: Topology, link: Id)
    requires Valid(t) && LinkKnown(t, link)
    ensures AllMembersExist(t.links, Scope(t.linkGroups, link)) && |Scope(t.linkGroups, link)| == |LinksTogether(t, link)|
  {
    hide Valid, Scope, LastLink, Together;
    var scope := Scope(t.linkGroups, link);
    ScopeIs(t, link);
    TogetherKnown(t, link);
    forall id | id in scope ensures LastLink(t.links, id).Some? { KnownLast(t, id); }
    ScopeDistinct(t, link);
    DistinctSize(scope);
    forall id ensures id in Elements(scope) <==> id in LinksTogether(t, link) {
      assert id in Elements(scope) <==> id in scope;
      if id in scope { var k := KnownIndex(t, id); }
    }
    assert Elements(scope) == LinksTogether(t, link);
  }

  lemma KnownLast(t: Topology, id: Id)
    requires LinkKnown(t, id)
    ensures LastLink(t.links, id).Some?
  {
  }

  lemma TogetherKnown(t: Topology, link: Id)
    requires Valid(t) && LinkKnown(t, link)
    ensures forall id | Together(t, link, id) :: LinkKnown(t, id)
  {
    hide RacksValid, DevicesValid, LinksValid, SystemsValid, ClustersValid, AttachmentsValid, LinkKnown, MixesKinds;
    forall id | Together(t, link, id) ensures LinkKnown(t, id) {
      if id != link {
        var g :| g in t.linkGroups && link in g.linkIds && id in g.linkIds;
        assert GroupValid(t, g);
      }
    }
  }

  lemma {:induction false} ScopeAlone(groups: seq<LinkGroup>, link: Id)
    requires forall g | g in groups :: Distinct(g.linkIds)
    ensures Distinct(Scope(groups, link))
  {
    if groups != [] {
      assert groups[0] in groups && forall g | g in groups[1..] :: g in groups;
      ScopeAlone(groups[1..], link);
    }
  }

  lemma ScopeDistinct(t: Topology, link: Id)
    requires Valid(t)
    ensures Distinct(Scope(t.linkGroups, link))
  {
    hide RacksValid, DevicesValid, LinksValid, SystemsValid, ClustersValid, AttachmentsValid, LinkKnown, MixesKinds, Scope;
    forall g | g in t.linkGroups ensures Distinct(g.linkIds) { assert GroupValid(t, g); }
    ScopeAlone(t.linkGroups, link);
  }

  // ----- the ports are all found, once

  ghost function PortsAmong(ports: seq<Port>, ids: set<Id>): set<Id> { set p | p in ports && p.id in ids :: p.id }

  lemma {:induction false} LocatedOnce(ports: seq<Port>, ids: set<Id>)
    requires Pairwise(ports, PortsDiffer)
    ensures Located(ports, ids) == |PortsAmong(ports, ids)|
  {
    hide PortsDiffer;
    if ports == [] {
      assert PortsAmong(ports, ids) == {};
    } else {
      LastPortApart(ports, ids);
      LocatedOnce(ports[..|ports| - 1], ids);
    }
  }

  lemma LastPortApart(ports: seq<Port>, ids: set<Id>)
    requires Pairwise(ports, PortsDiffer) && ports != []
    ensures var front, last := ports[..|ports| - 1], ports[|ports| - 1];
            && Pairwise(front, PortsDiffer)
            && |PortsAmong(ports, ids)| == |PortsAmong(front, ids)| + if last.id in ids then 1 else 0
  {
    var front, last := ports[..|ports| - 1], ports[|ports| - 1];
    assert ports == front + [last];
    forall p | p in front ensures p.id != last.id {
      var k :| 0 <= k < |front| && front[k] == p;
      assert PortsDiffer(ports[k], ports[|ports| - 1]);
    }
    assert PortsAmong(ports, ids) == PortsAmong(front, ids) + if last.id in ids then {last.id} else {};
  }

  ghost function AllAmong(devices: seq<Device>, ids: set<Id>): set<Id> {
    set d, p | d in devices && p in d.ports && p.id in ids :: p.id
  }

  lemma {:induction false} LocatedAllOnce(devices: seq<Device>, ids: set<Id>)
    requires Pairwise(devices, DevicesDiffer) && forall d | d in devices :: Pairwise(d.ports, PortsDiffer)
    ensures LocatedIn(devices, ids) == |AllAmong(devices, ids)|
  {
    hide DevicesDiffer, Located, PortsAmong;
    if devices == [] {
      assert AllAmong(devices, ids) == {};
    } else {
      var front, last := devices[..|devices| - 1], devices[|devices| - 1];
      assert devices == front + [last];
      LocatedAllOnce(front, ids);
      LocatedOnce(last.ports, ids);
      LastApart(devices, ids);
    }
  }

  lemma LastApart(devices: seq<Device>, ids: set<Id>)
    requires Pairwise(devices, DevicesDiffer) && devices != []
    ensures var front, last := devices[..|devices| - 1], devices[|devices| - 1];
            AllAmong(devices, ids) == AllAmong(front, ids) + PortsAmong(last.ports, ids) && AllAmong(front, ids) !! PortsAmong(last.ports, ids)
  {
    hide Overlap;
    var front, last := devices[..|devices| - 1], devices[|devices| - 1];
    assert devices == front + [last];
    forall d, p, q | d in front && p in d.ports && q in last.ports ensures p.id != q.id {
      var k :| 0 <= k < |front| && front[k] == d;
      assert DevicesDiffer(devices[k], devices[|devices| - 1]);
    }
  }

  lemma PortsLocated(t: Topology, link: Id)
    requires Valid(t)
    ensures var ids := ScopePorts(t.links, Scope(t.linkGroups, link));
            ids == PortsTogether(t, link) && LocatedIn(t.devices, ids) == |ids|
  {
    hide Valid, Scope, ScopePorts, EndsTogether, DevicesDiffer, LocatedIn;
    ScopePortsAre(t, link);
    EndsOnPorts(t, link);
    DevicePorts(t);
    var ids := ScopePorts(t.links, Scope(t.linkGroups, link));
    LocatedAllOnce(t.devices, ids);
    assert AllAmong(t.devices, ids) == ids;
  }

  lemma EndsOnPorts(t: Topology, link: Id)
    requires Valid(t)
    ensures forall port | EndsTogether(t, link, port) :: exists d, p :: d in t.devices && p in d.ports && p.id == port
  {
    hide Valid, Together;
    forall port | EndsTogether(t, link, port) ensures exists d, p :: d in t.devices && p in d.ports && p.id == port {
      var l :| l in t.links && Together(t, link, l.id) && (port == l.sourcePortId || port == l.targetPortId);
      var k :| 0 <= k < |t.links| && t.links[k] == l;
      LinkEnds(t, k);
    }
  }

  lemma DevicePorts(t: Topology)
    requires Valid(t)
    ensures Pairwise(t.devices, DevicesDiffer) && forall d | d in t.devices :: Pairwise(d.ports, PortsDiffer)
  {
    hide RacksValid, LinksValid, GroupsValid, SystemsValid, ClustersValid, AttachmentsValid, DevicesDiffer, PortValid, Mounted;
    forall d | d in t.devices ensures Pairwise(d.ports, PortsDiffer) { assert DeviceValid(t, d); }
  }

  /** On a valid topology a configuration is refused exactly for the first of these
      reasons; missing members and ports cannot occur. */
  lemma ConfigurationRefused(t: Topology, link: Id, c: Configuration)
    requires Valid(t)
    ensures match Refusal(t, link, c) case None => Configured(t, link, c).Ok? case Some(e) => Configured(t, link, c) == Err(e)
  {
    hide Valid, Tagged, Scope, ScopePorts, LocatedIn, LinksTogether, PortsTogether, TagSet, Tags, RearCable, LinkKnown, AllMembersExist,
         IndexOf;
    Selected(t, link);
    TaggedSize(c);
    PortsLocated(t, link);
    if LinkKnown(t, link) { ScopeKnown(t, link); }
  }
}
