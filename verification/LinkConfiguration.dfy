/** applyLinkConfiguration: giving a cable, and every cable grouped with it, one
    switchport configuration at all their ports. */
module LinkConfiguration {
  import opened Outcomes
  import opened Text
  import opened Sorting
  import opened Lists
  import opened Topology
  import opened Draft

  datatype Configuration = Configuration(mode: PortMode, nativeVLAN: int, allowedVLANs: seq<int>, cableType: string)

  datatype ConfigurationError =
    | LinkNotFound | RearMapping | UnsupportedMode | UnknownVLAN | MemberNotFound | EndpointsIncomplete | TooManyAssignments

  const MAX_VLAN_ENTRIES := 1048576

  /** The tagged VLANs of the configuration: each once, ascending, and not the
      native one; none on an access port. */
  ghost function Tagged(c: Configuration): (r: seq<int>)
    ensures c.nativeVLAN !in r && forall v | v in r :: v in c.allowedVLANs
  {
    var sorted := SortedInts(Elements(c.allowedVLANs));
    assert forall v | v in sorted :: v in Elements(sorted);
    if c.mode.Access? then [] else Filter(sorted, v => v != c.nativeVLAN)
  }

  /** The cables configured together: those of the first group that has the
      cable, or the cable alone. */
  function Scope(groups: seq<LinkGroup>, link: Id): (r: seq<Id>)
    ensures link in r
  {
    if groups == [] then [link]
    else if link in groups[0].linkIds then groups[0].linkIds
    else Scope(groups[1..], link)
  }

  /** The last cable with the identifier. */
  function LastLink(links: seq<Link>, id: Id): (r: Option<nat>)
    ensures r.Some? ==> r.value < |links| && links[r.value].id == id
    ensures r.None? ==> forall l | l in links :: l.id != id
  {
    if links == [] then None
    else if links[|links| - 1].id == id then Some(|links| - 1)
    else
      assert links == links[..|links| - 1] + [links[|links| - 1]];
      LastLink(links[..|links| - 1], id)
  }

  ghost function ScopeIndexes(links: seq<Link>, scope: seq<Id>): set<nat> {
    set id | id in scope && LastLink(links, id).Some? :: LastLink(links, id).value
  }

  ghost function ScopePorts(links: seq<Link>, scope: seq<Id>): set<Id> {
    (set i | i in ScopeIndexes(links, scope) && i < |links| :: links[i].sourcePortId) +
    (set i | i in ScopeIndexes(links, scope) && i < |links| :: links[i].targetPortId)
  }

  /** How many ports of the devices are among ids. */
  function Located(ports: seq<Port>, ids: set<Id>): nat {
    if ports == [] then 0 else Located(ports[..|ports| - 1], ids) + if ports[|ports| - 1].id in ids then 1 else 0
  }

  function LocatedIn(devices: seq<Device>, ids: set<Id>): nat {
    if devices == [] then 0 else LocatedIn(devices[..|devices| - 1], ids) + Located(devices[|devices| - 1].ports, ids)
  }

  function ConfigurePort(p: Port, c: Configuration, tagged: seq<int>): Port {
    p.(mode := c.mode, nativeVLAN := c.nativeVLAN, allowedVLANs := tagged)
  }

  function ConfigurePorts(ids: set<Id>, c: Configuration, tagged: seq<int>): Port -> Port {
    (p: Port) => if p.id in ids then ConfigurePort(p, c, tagged) else p
  }

  function ConfigureLink(l: Link, c: Configuration, tagged: seq<int>): Link {
    l.(cableType := if Trim(c.cableType) != "" then Trim(c.cableType) else l.cableType,
       primaryVLAN := c.nativeVLAN, vlanIds := [c.nativeVLAN] + tagged)
  }

  ghost function ConfigureLinks(links: seq<Link>, indexes: set<nat>, c: Configuration, tagged: seq<int>): (r: seq<Link>)
    ensures |r| == |links|
    ensures forall k | 0 <= k < |links| :: r[k] == if k in indexes then ConfigureLink(links[k], c, tagged) else links[k]
  {
    seq(|links|, k requires 0 <= k < |links| => if k in indexes then ConfigureLink(links[k], c, tagged) else links[k])
  }

  ghost predicate AllMembersExist(links: seq<Link>, scope: seq<Id>) {
    forall id | id in scope :: LastLink(links, id).Some?
  }

  ghost function Configured(t: Topology, link: Id, c: Configuration): Result<Topology, ConfigurationError> {
    var selected := IndexOf(t.links, (l: Link) => l.id == link);
    if selected == |t.links| then Err(LinkNotFound)
    else if t.links[selected].IsRearPanelConnection() then Err(RearMapping)
    else if c.mode.Unconfigured? then Err(UnsupportedMode)
    else
      var tagged := Tagged(c);
      if c.nativeVLAN !in t.vlans || exists v :: v in tagged && v !in t.vlans then Err(UnknownVLAN)
      else
        var scope := Scope(t.linkGroups, link);
        if !AllMembersExist(t.links, scope) then Err(MemberNotFound)
        else
          var ids := ScopePorts(t.links, scope);
          if LocatedIn(t.devices, ids) != |ids| then Err(EndpointsIncomplete)
          else if (|ids| + |scope|) * (|tagged| + 1) > MAX_VLAN_ENTRIES then Err(TooManyAssignments)
          else Ok(t.(devices := MapAllPorts(t.devices, ConfigurePorts(ids, c, tagged)),
                     links := ConfigureLinks(t.links, ScopeIndexes(t.links, scope), c, tagged)))
  }

  // ----- the method

  method CanonicalVLANs(c: Configuration) returns (tagged: seq<int>)
    ensures tagged == Tagged(c)
  {
    tagged := SortAndCompact(c.allowedVLANs, Below);
    tagged := Filter(tagged, v => v != c.nativeVLAN);
    if c.mode.Access? { tagged := []; }
  }

  method AllKnown(vlans: seq<int>, wanted: seq<int>) returns (known: bool)
    ensures known <==> forall v | v in wanted :: v in vlans
  {
    for k := 0 to |wanted|
      invariant forall i | 0 <= i < k :: wanted[i] in vlans
    {
      if wanted[k] !in vlans {
        var unknown := wanted[k];
        assert unknown in wanted && unknown !in vlans;
        return false;
      }
    }
    return true;
  }

  method FindScope(groups: seq<LinkGroup>, link: Id) returns (scope: seq<Id>)
    ensures scope == Scope(groups, link)
  {
    var k := 0;
    assert groups[0..] == groups;
    while k < |groups|
      invariant k <= |groups| && Scope(groups, link) == Scope(groups[k..], link)
    {
      if link in groups[k].linkIds { return groups[k].linkIds; }
      assert groups[k..][1..] == groups[k + 1..];
      k := k + 1;
    }
    assert groups[k..] == [];
    return [link];
  }

  /** The index from identifier to position that later loops look cables up in. */
  method IndexLinks(links: seq<Link>) returns (byId: map<Id, nat>)
    ensures forall id :: (id in byId <==> LastLink(links, id).Some?) && (id in byId ==> Some(byId[id]) == LastLink(links, id))
  {
    byId := map[];
    for k := 0 to |links|
      invariant forall id ::
        (id in byId <==> LastLink(links[..k], id).Some?) && (id in byId ==> Some(byId[id]) == LastLink(links[..k], id))
    {
      assert links[..k + 1][..k] == links[..k];
      byId := byId[links[k].id := k];
    }
    assert links[..|links|] == links;
  }

  lemma ScopeGrows(links: seq<Link>, scope: seq<Id>, k: nat)
    requires k < |scope| && LastLink(links, scope[k]).Some?
    ensures var i := LastLink(links, scope[k]).value;
            && ScopeIndexes(links, scope[..k + 1]) == ScopeIndexes(links, scope[..k]) + {i}
            && ScopePorts(links, scope[..k + 1]) == ScopePorts(links, scope[..k]) + {links[i].sourcePortId, links[i].targetPortId}
  {
    hide LastLink;
    assert scope[..k + 1] == scope[..k] + [scope[k]];
    assert forall id :: id in scope[..k + 1] <==> id in scope[..k] || id == scope[k];
    var i := LastLink(links, scope[k]).value;
    assert ScopeIndexes(links, scope[..k + 1]) == ScopeIndexes(links, scope[..k]) + {i};
    PortsOfIndexes(links, scope, k, i);
  }

  lemma PortsOfIndexes(links: seq<Link>, scope: seq<Id>, k: nat, i: nat)
    requires k < |scope| && i < |links|
    requires ScopeIndexes(links, scope[..k + 1]) == ScopeIndexes(links, scope[..k]) + {i}
    ensures ScopePorts(links, scope[..k + 1]) == ScopePorts(links, scope[..k]) + {links[i].sourcePortId, links[i].targetPortId}
  {
    hide ScopeIndexes;
  }

  lemma NoScope(links: seq<Link>, scope: seq<Id>)
    ensures ScopeIndexes(links, scope[..0]) == {} && ScopePorts(links, scope[..0]) == {}
  {
  }

  /** The positions of the scope's cables and the identifiers of their ports, or
      that a member does not exist. */
  method ResolveScope(links: seq<Link>, scope: seq<Id>) returns (complete: bool, indexes: seq<nat>, ids: set<Id>)
    ensures complete <==> AllMembersExist(links, scope)
    ensures complete ==> |indexes| == |scope| && Elements(indexes) == ScopeIndexes(links, scope) && ids == ScopePorts(links, scope)
    ensures complete ==> forall i | i in indexes :: i < |links|
  {
    hide LastLink, ScopeIndexes, ScopePorts;
    var byId := IndexLinks(links);
    complete, indexes, ids := true, [], {};
    NoScope(links, scope);
    for k := 0 to |scope|
      invariant |indexes| == k && Elements(indexes) == ScopeIndexes(links, scope[..k]) && ids == ScopePorts(links, scope[..k])
      invariant forall i | i in indexes :: i < |links|
      invariant forall id | id in scope[..k] :: LastLink(links, id).Some?
    {
      assert LastLink(links, scope[k]).Some? <==> scope[k] in byId;
      if scope[k] !in byId {
        assert scope[k] in scope;
        return false, indexes, ids;
      }
      var i := byId[scope[k]];
      ScopeGrows(links, scope, k);
      assert scope[..k + 1] == scope[..k] + [scope[k]];
      assert Elements(indexes + [i]) == Elements(indexes) + {i};
      indexes := indexes + [i];
      ids := ids + {links[i].sourcePortId, links[i].targetPortId};
    }
    assert scope[..|scope|] == scope;
  }

  method CountPorts(devices: seq<Device>, ids: set<Id>) returns (n: nat)
    ensures n == LocatedIn(devices, ids)
  {
    n := 0;
    for i := 0 to |devices|
      invariant n == LocatedIn(devices[..i], ids)
    {
      assert devices[..i + 1][..i] == devices[..i];
      var ports := devices[i].ports;
      for j := 0 to |ports|
        invariant n == LocatedIn(devices[..i], ids) + Located(ports[..j], ids)
      {
        assert ports[..j + 1][..j] == ports[..j];
        if ports[j].id in ids { n := n + 1; }
      }
      assert ports[..|ports|] == ports;
    }
    assert devices[..|devices|] == devices;
  }

  /** The configuration written into every port of the scope. */
  method WritePorts(d: Draft, ids: set<Id>, c: Configuration, tagged: seq<int>)
    modifies d`devices
    ensures d.devices == MapAllPorts(old(d.devices), ConfigurePorts(ids, c, tagged))
  {
    hide MapPorts, MapAllPorts, MappedUpTo;
    ghost var before, f := d.devices, ConfigurePorts(ids, c, tagged);
    NothingMapped(before, f);
    for i := 0 to |d.devices|
      invariant |d.devices| == |before| && MappedUpTo(before, d.devices, f, i, 0)
    {
      NotYetMapped(before, d.devices, f, i);
      for j := 0 to |d.devices[i].ports|
        invariant |d.devices| == |before| && MappedUpTo(before, d.devices, f, i, j) && |d.devices[i].ports| == |before[i].ports|
      {
        PortMapped(before, d.devices, f, i, j);
        var port := d.devices[i].ports[j];
        if port.id in ids {
          d.devices := d.devices[i := d.devices[i].(ports := d.devices[i].ports[j := ConfigurePort(port, c, tagged)])];
        }
      }
      DeviceMapped(before, d.devices, f, i);
    }
    AllMapped(before, d.devices, f);
  }

  /** And into every cable of the scope. */
  method WriteLinks(d: Draft, indexes: seq<nat>, c: Configuration, tagged: seq<int>)
    requires forall i | i in indexes :: i < |d.links|
    modifies d`links
    ensures d.links == ConfigureLinks(old(d.links), Elements(indexes), c, tagged)
  {
    ghost var before := d.links;
    for k := 0 to |indexes|
      invariant |d.links| == |before|
      invariant forall m | 0 <= m < |before| ::
        d.links[m] == if m in indexes[..k] then ConfigureLink(before[m], c, tagged) else before[m]
    {
      var i := indexes[k];
      assert i in indexes;
      assert indexes[..k + 1] == indexes[..k] + [i];
      assert ConfigureLink(d.links[i], c, tagged) == ConfigureLink(before[i], c, tagged);
      d.links := d.links[i := ConfigureLink(d.links[i], c, tagged)];
    }
    assert indexes[..|indexes|] == indexes;
  }

  /** applyLinkConfiguration. */
  method ApplyLinkConfiguration(d: Draft, link: Id, c: Configuration) returns (failure: Option<ConfigurationError>)
    modifies d
    ensures match Configured(old(d.Snapshot()), link, c)
            case Ok(t) => failure.None? && d.Snapshot() == t
            case Err(e) => failure == Some(e) && d.Snapshot() == old(d.Snapshot())
  {
    hide Tagged, Scope, LastLink, ScopeIndexes, ScopePorts, AllMembersExist, LocatedIn, MapAllPorts, ConfigurePorts, ConfigureLinks;
    var selected := FindIndex(d.links, (l: Link) => l.id == link);
    if selected == |d.links| { return Some(LinkNotFound); }
    if d.links[selected].IsRearPanelConnection() { return Some(RearMapping); }
    if c.mode.Unconfigured? { return Some(UnsupportedMode); }
    var tagged := CanonicalVLANs(c);
    var known := AllKnown(d.vlans, [c.nativeVLAN] + tagged);
    if !known { return Some(UnknownVLAN); }
    var scope := FindScope(d.linkGroups, link);
    var complete, indexes, ids := ResolveScope(d.links, scope);
    if !complete { return Some(MemberNotFound); }
    var located := CountPorts(d.devices, ids);
    if located != |ids| { return Some(EndpointsIncomplete); }
    if (located + |indexes|) * (|tagged| + 1) > MAX_VLAN_ENTRIES { return Some(TooManyAssignments); }
    WritePorts(d, ids, c, tagged);
    WriteLinks(d, indexes, c, tagged);
    return None;
  }
}
