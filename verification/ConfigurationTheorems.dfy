/** After a cable has been configured the analysis finds nothing wrong with it
    or its group, and nothing outside has changed. */
module ConfigurationTheorems {
  import opened Outcomes
  import opened Text
  import opened Sorting
  import opened Lists
  import opened Topology
  import opened Ports
  import opened StpModel
  import opened Validation
  import opened ValidationFacts
  import opened Draft
  import opened LinkConfiguration
  import opened LinkIssues

  // ----- the scope

  lemma {:induction false} LastLinkUnique(links: seq<Link>, k: nat)
    requires DistinctLinks(links) && k < |links|
    ensures LastLink(links, links[k].id) == Some(k)
  {
    var last := |links| - 1;
    if k < last { LastLinkUnique(links[..last], k); }
  }

  lemma ScopeIndex(links: seq<Link>, scope: seq<Id>, k: nat)
    requires DistinctLinks(links) && k < |links|
    ensures k in ScopeIndexes(links, scope) <==> links[k].id in scope
    ensures k in ScopeIndexes(links, scope) ==>
      links[k].sourcePortId in ScopePorts(links, scope) && links[k].targetPortId in ScopePorts(links, scope)
  {
    hide LastLink;
    LastLinkUnique(links, k);
  }

  /** The links and ports of the scope and nothing else. */
  ghost predicate ScopeChanged(t: Topology, link: Id, c: Configuration, t': Topology) {
    var scope, tagged := Scope(t.linkGroups, link), Tagged(c);
    && t' == t.(devices := t'.devices, links := t'.links)
    && |t'.links| == |t.links|
    && (forall k | 0 <= k < |t.links| ::
          t'.links[k] == if t.links[k].id in scope then ConfigureLink(t.links[k], c, tagged) else t.links[k])
    && t'.devices == MapAllPorts(t.devices, ConfigurePorts(ScopePorts(t.links, scope), c, tagged))
  }

  lemma ConfiguredScope(t: Topology, link: Id, c: Configuration, t': Topology)
    requires Valid(t) && Configured(t, link, c) == Ok(t')
    ensures ScopeChanged(t, link, c, t')
    ensures !c.mode.Unconfigured? && c.nativeVLAN in t.vlans && VlansKnown(t, Tagged(c))
  {
    hide Scope, Tagged, ScopePorts, LocatedIn, MapAllPorts, ConfigurePorts, AllMembersExist, DevicesValid, SystemsValid, GroupsValid,
         ClustersValid, AttachmentsValid, RacksValid, ScopeIndexes, ConfigureLink, DistinctLinks;
    ValidLinks(t);
    forall k | 0 <= k < |t.links|
      ensures k in ScopeIndexes(t.links, Scope(t.linkGroups, link)) <==> t.links[k].id in Scope(t.linkGroups, link)
    {
      ScopeIndex(t.links, Scope(t.linkGroups, link), k);
    }
  }

  // ----- what the analysis sees

  lemma MappedDistinct(devices: seq<Device>, f: Port -> Port)
    requires DistinctPorts(devices) && KeepsPorts(f)
    ensures DistinctPorts(MapAllPorts(devices, f))
  {
    hide MapAllPorts, DistinctPorts;
    var mapped := MapAllPorts(devices, f);
    forall d, e, p, q | d in mapped && e in mapped && p in d.ports && q in e.ports && p.id == q.id ensures p == q {
      var d0, p0 := MappedPortBack(devices, f, d, p);
      var e0, q0 := MappedPortBack(devices, f, e, q);
      SameIdSamePort(devices, d0, e0, p0, q0);
    }
    DistinctFolded(mapped);
  }

  lemma SameIdSamePort(devices: seq<Device>, d: Device, e: Device, p: Port, q: Port)
    requires DistinctPorts(devices) && d in devices && e in devices && p in d.ports && q in e.ports && p.id == q.id
    ensures p == q
  {
  }

  lemma DistinctFolded(devices: seq<Device>)
    requires forall d, e, p, q | d in devices && e in devices && p in d.ports && q in e.ports && p.id == q.id :: p == q
    ensures DistinctPorts(devices)
  {
  }

  lemma ConfigureKeeps(ids: set<Id>, c: Configuration, tagged: seq<int>)
    ensures KeepsPorts(ConfigurePorts(ids, c, tagged))
  {
  }

  /** A port of the scope as the analysis looks it up. */
  lemma ScopePortConfigured(t: Topology, device: Id, port: Id, ids: set<Id>, c: Configuration, tagged: seq<int>)
    requires DevicesValid(t) && PortOn(t.devices, device, port) && port in ids
    ensures var p := Find(PortTable(Elements(MapAllPorts(t.devices, ConfigurePorts(ids, c, tagged)))), port);
            p.mode == c.mode && p.nativeVLAN == c.nativeVLAN && p.allowedVLANs == tagged
  {
    hide MapAllPorts, PortTable, DevicesDiffer, DeviceValid, KeepsPorts, DistinctPorts, DistinctDevices;
    var f := ConfigurePorts(ids, c, tagged);
    ValidPorts(t);
    ConfigureKeeps(ids, c, tagged);
    MappedDistinct(t.devices, f);
    var d, p :| d in t.devices && d.id == device && p in d.ports && p.id == port;
    var e := MappedPortThere(t.devices, f, d, p);
    TableFinds(MapAllPorts(t.devices, f), e, f(p));
  }

  lemma NoneMissing(peer: Port, tagged: seq<int>)
    requires !peer.mode.Unconfigured? && peer.allowedVLANs == tagged
    ensures Missing(tagged, peer) == []
  {
    FilterNone(tagged, v => v != peer.nativeVLAN && v !in peer.allowedVLANs);
  }

  lemma NothingFound(ports: map<Id, Port>, l: Link, c: Configuration, tagged: seq<int>)
    requires !c.mode.Unconfigured?
    requires var p := Find(ports, l.sourcePortId); p.mode == c.mode && p.nativeVLAN == c.nativeVLAN && p.allowedVLANs == tagged
    requires var p := Find(ports, l.targetPortId); p.mode == c.mode && p.nativeVLAN == c.nativeVLAN && p.allowedVLANs == tagged
    ensures LinkFindings(ports, l) == []
  {
    hide Missing, Find;
    NoneMissing(Find(ports, l.sourcePortId), tagged);
    NoneMissing(Find(ports, l.targetPortId), tagged);
  }

  /** The analysis finds no native VLAN mismatch and no dropped VLAN on any cable
      configured together with the selected one. */
  lemma ConfiguredLinksAgree(t: Topology, link: Id, c: Configuration, t': Topology, k: nat)
    requires Valid(t) && Configured(t, link, c) == Ok(t') && k < |t.links| && t.links[k].id in Scope(t.linkGroups, link)
    ensures |t'.links| == |t.links| && LinkFindings(PortTable(Elements(t'.devices)), t'.links[k]) == []
  {
    hide *;
    ConfiguredScope(t, link, c, t');
    ScopeUnfolded(t, link, c, t', k);
    LinkEnds(t, k);
    ScopeIndex(t.links, Scope(t.linkGroups, link), k);
    var l, ids := t.links[k], ScopePorts(t.links, Scope(t.linkGroups, link));
    ScopePortConfigured(t, l.sourceDeviceId, l.sourcePortId, ids, c, Tagged(c));
    ScopePortConfigured(t, l.targetDeviceId, l.targetPortId, ids, c, Tagged(c));
    NothingFound(PortTable(Elements(t'.devices)), t'.links[k], c, Tagged(c));
  }

  lemma ScopeUnfolded(t: Topology, link: Id, c: Configuration, t': Topology, k: nat)
    requires ScopeChanged(t, link, c, t') && k < |t.links|
    ensures |t'.links| == |t.links| && t'.links[k].sourcePortId == t.links[k].sourcePortId
    ensures t'.links[k].targetPortId == t.links[k].targetPortId && t'.links[k].id == t.links[k].id
    ensures t'.devices == MapAllPorts(t.devices, ConfigurePorts(ScopePorts(t.links, Scope(t.linkGroups, link)), c, Tagged(c)))
    ensures t.links[k].id in Scope(t.linkGroups, link) ==> t'.links[k].vlanIds == [c.nativeVLAN] + Tagged(c)
    ensures t'.linkGroups == t.linkGroups
  {
    hide Scope, Tagged, MapAllPorts, ConfigurePorts, ScopePorts;
  }

  lemma LinkEnds(t: Topology, k: nat)
    requires Valid(t) && k < |t.links|
    ensures DevicesValid(t) && DistinctLinks(t.links)
    ensures PortOn(t.devices, t.links[k].sourceDeviceId, t.links[k].sourcePortId)
    ensures PortOn(t.devices, t.links[k].targetDeviceId, t.links[k].targetPortId)
  {
    hide DevicesValid, SystemsValid, GroupsValid, ClustersValid, AttachmentsValid, RacksValid, DistinctLinks, PortOn, DeviceIs;
    ValidLinks(t);
    assert t.links[k] in t.links;
    assert LinkAnchored(t, t.links[k]);
  }

  // ----- its group

  lemma {:induction false} ScopeOfGroup(groups: seq<LinkGroup>, g: LinkGroup, link: Id)
    requires g in groups && link in g.linkIds && forall h | h in groups && link in h.linkIds :: h == g
    ensures Scope(groups, link) == g.linkIds
  {
    if link in groups[0].linkIds {
      assert groups[0] in groups;
    } else {
      assert groups == [groups[0]] + groups[1..];
      ScopeOfGroup(groups[1..], g, link);
    }
  }

  lemma {:induction false} CarriedByLink(links: seq<Link>, k: nat)
    requires DistinctLinks(links) && k < |links|
    ensures CarriedBy(links, links[k].id) == links[k].vlanIds
  {
    var last := |links| - 1;
    if k < last { CarriedByLink(links[..last], k); }
  }

  lemma ScopeCarries(t: Topology, link: Id, c: Configuration, t': Topology, id: Id)
    requires Valid(t) && Configured(t, link, c) == Ok(t')
    requires id in Scope(t.linkGroups, link) && LinkKnown(t, id)
    ensures CarriedBy(t'.links, id) == [c.nativeVLAN] + Tagged(c)
  {
    hide *;
    ConfiguredScope(t, link, c, t');
    var k := KnownIndex(t, id);
    LinkEnds(t, k);
    ScopeUnfolded(t, link, c, t', k);
    forall i | 0 <= i < |t.links| ensures t'.links[i].id == t.links[i].id { ScopeUnfolded(t, link, c, t', i); }
    SameIdsDistinct(t.links, t'.links);
    CarriedByLink(t'.links, k);
  }

  lemma KnownIndex(t: Topology, id: Id) returns (k: nat)
    requires LinkKnown(t, id)
    ensures k < |t.links| && t.links[k].id == id
  {
    var l :| l in t.links && l.id == id;
    k :| k < |t.links| && t.links[k] == l;
  }

  lemma SameIdsDistinct(a: seq<Link>, b: seq<Link>)
    requires |a| == |b| && DistinctLinks(a) && forall i | 0 <= i < |a| :: a[i].id == b[i].id
    ensures DistinctLinks(b)
  {
  }

  /** The analysis finds no VLAN mismatch in the selected cable's group. */
  lemma ConfiguredGroupAgrees(t: Topology, link: Id, c: Configuration, t': Topology, g: LinkGroup)
    requires Valid(t) && Configured(t, link, c) == Ok(t') && g in t'.linkGroups && link in g.linkIds
    ensures g.linkIds != [] && GroupFindings(t'.links, g) == []
  {
    hide *;
    ConfiguredSameGroups(t, link, c, t');
    GroupMembers(t, g, link);
    ScopeOfGroup(t.linkGroups, g, link);
    forall id | id in g.linkIds ensures CarriedBy(t'.links, id) == [c.nativeVLAN] + Tagged(c) {
      ScopeCarries(t, link, c, t', id);
    }
    NoMismatch(t'.links, g, [c.nativeVLAN] + Tagged(c));
  }

  lemma ConfiguredSameGroups(t: Topology, link: Id, c: Configuration, t': Topology)
    requires Configured(t, link, c) == Ok(t')
    ensures t'.linkGroups == t.linkGroups
  {
  }

  lemma GroupMembers(t: Topology, g: LinkGroup, link: Id)
    requires Valid(t) && g in t.linkGroups && link in g.linkIds
    ensures g.linkIds != [] && (forall h | h in t.linkGroups && link in h.linkIds :: h == g) && forall id | id in g.linkIds :: LinkKnown(t, id)
  {
    hide DevicesValid, SystemsValid, LinksValid, ClustersValid, AttachmentsValid, RacksValid, LinkKnown, MixesKinds;
    ValidGroups(t);
    assert GroupValid(t, g);
  }

  lemma NoMismatch(links: seq<Link>, g: LinkGroup, vlans: seq<int>)
    requires g.linkIds != [] && forall id | id in g.linkIds :: CarriedBy(links, id) == vlans
    ensures GroupFindings(links, g) == []
  {
    hide CarriedBy;
    assert g.linkIds[0] in g.linkIds;
  }

  // ----- still valid, and nothing else changed

  lemma ConfigurePortsAcceptable(t: Topology, ids: set<Id>, c: Configuration)
    requires DevicesValid(t) && c.nativeVLAN in t.vlans && VlansKnown(t, Tagged(c))
    ensures PortsAcceptable(t, ConfigurePorts(ids, c, Tagged(c)))
  {
    hide Tagged, Mounted, DevicesDiffer;
    forall d, p | d in t.devices && p in d.ports ensures PortValid(t, ConfigurePorts(ids, c, Tagged(c))(p), d.id) {
      assert DeviceValid(t, d) && PortValid(t, p, d.id);
    }
  }

  lemma ConfigureRelabels(t: Topology, link: Id, c: Configuration, t': Topology)
    requires LinksValid(t) && ScopeChanged(t, link, c, t') && c.nativeVLAN in t.vlans && VlansKnown(t, Tagged(c))
    ensures RelabelledAll(t, t'.links)
  {
    hide Tagged, Scope, MapAllPorts, LinksDiffer, PortOn, DeviceIs;
    forall k | 0 <= k < |t.links| ensures Relabelled(t.links[k], t'.links[k])
        && (t'.links[k].primaryVLAN == 0 || t'.links[k].primaryVLAN in t.vlans) && VlansKnown(t, t'.links[k].vlanIds) {
      assert t.links[k] in t.links && LinkAnchored(t, t.links[k]);
    }
  }

  /** Configuring a cable keeps a valid topology valid. */
  lemma ConfigurationStaysValid(t: Topology, link: Id, c: Configuration, t': Topology)
    requires Valid(t) && Configured(t, link, c) == Ok(t')
    ensures Valid(t')
  {
    hide *;
    ConfiguredScope(t, link, c, t');
    ValidParts(t);
    var ids := ScopePorts(t.links, Scope(t.linkGroups, link));
    ConfigureRelabels(t, link, c, t');
    RelabelledLinksValid(t, t'.links);
    var u := t.(links := t'.links);
    ValidParts(u);
    ConfigurePortsAcceptable(u, ids, c) by { SameVlans(t, u, Tagged(c)); }
    ConfigureKeeps(ids, c, Tagged(c));
    MappedPortsValid(u, ConfigurePorts(ids, c, Tagged(c)));
    ScopeAssembled(t, link, c, t');
  }

  lemma ValidParts(t: Topology)
    requires Valid(t)
    ensures DevicesValid(t) && LinksValid(t)
  {
    hide DevicesValid, LinksValid;
  }

  lemma SameVlans(t: Topology, u: Topology, vlans: seq<int>)
    requires u.vlans == t.vlans && VlansKnown(t, vlans)
    ensures VlansKnown(u, vlans)
  {
  }

  lemma ScopeAssembled(t: Topology, link: Id, c: Configuration, t': Topology)
    requires ScopeChanged(t, link, c, t')
    ensures t' == t.(links := t'.links)
      .(devices := MapAllPorts(t.devices, ConfigurePorts(ScopePorts(t.links, Scope(t.linkGroups, link)), c, Tagged(c))))
  {
    hide Scope, Tagged, MapAllPorts, ConfigurePorts, ScopePorts;
  }

  /** Ports no cable of the scope ends at, and cables outside it, are as before. */
  lemma OutsideScopeUnchanged(t: Topology, link: Id, c: Configuration, t': Topology)
    requires Valid(t) && Configured(t, link, c) == Ok(t')
    ensures t' == t.(devices := t'.devices, links := t'.links) && |t'.links| == |t.links| && |t'.devices| == |t.devices|
    ensures forall k | 0 <= k < |t.links| && t.links[k].id !in Scope(t.linkGroups, link) :: t'.links[k] == t.links[k]
    ensures forall i | 0 <= i < |t.devices| ::
      && t'.devices[i] == t.devices[i].(ports := t'.devices[i].ports) && |t'.devices[i].ports| == |t.devices[i].ports|
      && forall j | 0 <= j < |t.devices[i].ports| && t.devices[i].ports[j].id !in ScopePorts(t.links, Scope(t.linkGroups, link)) ::
           t'.devices[i].ports[j] == t.devices[i].ports[j]
  {
    hide Configured, Valid, Scope, Tagged, ScopePorts;
    ConfiguredScope(t, link, c, t');
  }
}
