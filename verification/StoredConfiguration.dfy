/** What the analysis says of a topology once it has been normalized, as every
    stored topology is. */
module StoredConfiguration {
  import opened Outcomes
  import opened Text
  import opened Sorting
  import opened Lists
  import opened Topology
  import opened Ports
  import opened Validation
  import opened Normalize
  import opened NormalizeFacts
  import opened LinkConfiguration
  import opened LinkIssues
  import opened ConfigurationTheorems
  import PortIndices

  // ----- ports

  /** The port carries the same VLANs, in whatever order. */
  ghost predicate SamePortVlans(p: Port, q: Port) {
    q.mode == p.mode && q.nativeVLAN == p.nativeVLAN && Elements(q.allowedVLANs) == Elements(p.allowedVLANs)
  }

  lemma NormalPortSame(d: Device, i: nat)
    requires i < |d.ports|
    ensures i < |NormalDevice(d).ports| && NormalDevice(d).ports[i].id == d.ports[i].id
    ensures SamePortVlans(d.ports[i], NormalDevice(d).ports[i])
  {
    PortIndices.ReindexedAt(d.ports, |d.ports|, i);
  }

  /** The analysis finds every port with the VLANs it had. */
  lemma NormalPortFound(t: Topology, device: Id, port: Id)
    requires DevicesValid(t) && PortOn(t.devices, device, port)
    ensures SamePortVlans(Find(PortTable(Elements(t.devices)), port), Find(PortTable(Elements(Normal(t).devices)), port))
  {
    hide PortTable, NormalDevice, Normal, DevicesValid, DistinctPorts, DistinctDevices, SamePortVlans;
    var d, p :| d in t.devices && d.id == device && p in d.ports && p.id == port;
    var i :| 0 <= i < |d.ports| && d.ports[i] == p;
    NormalPortSame(d, i);
    NormalThere(t, d);
    NormalDevicesValid(t);
    ValidPorts(t);
    ValidPorts(Normal(t));
    TableFinds(t.devices, d, p);
    TableFinds(Normal(t).devices, NormalDevice(d), NormalDevice(d).ports[i]);
  }

  // ----- cables

  lemma NothingMissing(tagged: seq<int>, peer: Port)
    ensures Missing(tagged, peer) == [] <==>
      forall v | v in tagged :: !peer.mode.Unconfigured? && (v == peer.nativeVLAN || v in peer.allowedVLANs)
  {
    if peer.mode.Unconfigured? {
      if tagged != [] { assert tagged[0] in tagged && Missing(tagged, peer)[0] == tagged[0]; }
    } else {
      var keep := v => v != peer.nativeVLAN && v !in peer.allowedVLANs;
      if Filter(tagged, keep) != [] { assert Filter(tagged, keep)[0] in Filter(tagged, keep); }
    }
  }

  lemma SameMissing(p: Port, p': Port, q: Port, q': Port)
    requires SamePortVlans(p, p') && SamePortVlans(q, q')
    ensures Missing(p.allowedVLANs, q) == [] <==> Missing(p'.allowedVLANs, q') == []
  {
    hide Missing;
    NothingMissing(p.allowedVLANs, q);
    NothingMissing(p'.allowedVLANs, q');
    assert forall v :: v in p.allowedVLANs <==> v in Elements(p.allowedVLANs);
    assert forall v :: v in p'.allowedVLANs <==> v in Elements(p'.allowedVLANs);
    assert forall v :: v in q.allowedVLANs <==> v in Elements(q.allowedVLANs);
    assert forall v :: v in q'.allowedVLANs <==> v in Elements(q'.allowedVLANs);
  }

  lemma SameFindings(ports: map<Id, Port>, ports': map<Id, Port>, l: Link, l': Link)
    requires l'.sourcePortId == l.sourcePortId && l'.targetPortId == l.targetPortId
    requires SamePortVlans(Find(ports, l.sourcePortId), Find(ports', l.sourcePortId))
    requires SamePortVlans(Find(ports, l.targetPortId), Find(ports', l.targetPortId))
    ensures LinkFindings(ports, l) == [] <==> LinkFindings(ports', l') == []
  {
    hide Missing, Find;
    var p, q, p', q' := Find(ports, l.sourcePortId), Find(ports, l.targetPortId),
                        Find(ports', l.sourcePortId), Find(ports', l.targetPortId);
    SameMissing(p, p', q, q');
    SameMissing(q, q', p, p');
  }

  /** The analysis finds something wrong with a cable after normalizing exactly when
      it does before. */
  lemma NormalLinkFindings(t: Topology, k: nat)
    requires Valid(t) && k < |t.links|
    ensures LinkFindings(PortTable(Elements(t.devices)), t.links[k]) == []
      <==> LinkFindings(PortTable(Elements(Normal(t).devices)), Normal(t).links[k]) == []
  {
    hide *;
    LinkEnds(t, k);
    NormalLinkEnds(t, k);
    NormalPortFound(t, t.links[k].sourceDeviceId, t.links[k].sourcePortId);
    NormalPortFound(t, t.links[k].targetDeviceId, t.links[k].targetPortId);
    SameFindings(PortTable(Elements(t.devices)), PortTable(Elements(Normal(t).devices)), t.links[k], Normal(t).links[k]);
  }

  lemma NormalLinkEnds(t: Topology, k: nat)
    requires k < |t.links|
    ensures |Normal(t).links| == |t.links|
    ensures Normal(t).links[k].sourcePortId == t.links[k].sourcePortId && Normal(t).links[k].targetPortId == t.links[k].targetPortId
  {
    hide NormalDevice, NormalLink, NormalGroup, NormalSystem, NormalCluster;
    NormalLinkShape(t.devices, t.links[k]);
  }

  /** On the stored result of configuring a cable, the analysis finds nothing wrong
      with any cable configured together with it. */
  lemma StoredLinksAgree(t: Topology, link: Id, c: Configuration, t': Topology, k: nat)
    requires Valid(t) && Configured(t, link, c) == Ok(t') && k < |t.links| && t.links[k].id in Scope(t.linkGroups, link)
    ensures |Normal(t').links| == |t.links|
    ensures LinkFindings(PortTable(Elements(Normal(t').devices)), Normal(t').links[k]) == []
  {
    hide *;
    ConfiguredLinksAgree(t, link, c, t', k);
    ConfigurationStaysValid(t, link, c, t');
    NormalLinkFindings(t', k);
    NormalLinkEnds(t', k);
  }

  // ----- groups

  lemma {:induction false} NormalCarried(devices: seq<Device>, links: seq<Link>, id: Id)
    ensures CarriedBy(Map(links, l => NormalLink(devices, l)), id) == SortedInts(Elements(CarriedBy(links, id)))
  {
    var f := (l: Link) => NormalLink(devices, l);
    if links == [] {
      NothingSorted();
    } else {
      var front, last := links[..|links| - 1], links[|links| - 1];
      hide NormalLink;
      NormalCarried(devices, front, id);
      NormalVlans(devices, last);
      assert Map(links, f)[..|links| - 1] == Map(front, f);
    }
  }

  lemma NothingSorted()
    ensures SortedInts(Elements([])) == []
  {
    assert Elements(SortedInts(Elements([]))) == {};
  }

  lemma NormalVlans(devices: seq<Device>, l: Link)
    ensures NormalLink(devices, l).id == l.id && NormalLink(devices, l).vlanIds == SortedInts(Elements(l.vlanIds))
  {
    hide Legacy;
  }

  /** Members that agree still do. */
  lemma NormalGroupFindings(t: Topology, g: LinkGroup)
    requires g.linkIds != [] && GroupFindings(t.links, g) == []
    ensures NormalGroup(g).linkIds != [] && GroupFindings(Normal(t).links, NormalGroup(g)) == []
  {
    hide CarriedBy, NormalLink, NormalDevice;
    var h := NormalGroup(g);
    assert Elements(h.linkIds) == Elements(g.linkIds);
    assert g.linkIds[0] in Elements(h.linkIds);
    forall id | id in h.linkIds ensures id in g.linkIds { assert id in Elements(h.linkIds); }
    forall id ensures CarriedBy(Normal(t).links, id) == SortedInts(Elements(CarriedBy(t.links, id))) {
      NormalCarried(t.devices, t.links, id);
    }
    assert h.linkIds[0] in h.linkIds;
  }

  /** Nor does it find a VLAN mismatch in the cable's stored group. */
  lemma StoredGroupAgrees(t: Topology, link: Id, c: Configuration, t': Topology, g: LinkGroup)
    requires Valid(t) && Configured(t, link, c) == Ok(t') && g in t'.linkGroups && link in g.linkIds
    ensures NormalGroup(g) in Normal(t').linkGroups && NormalGroup(g).linkIds != []
    ensures GroupFindings(Normal(t').links, NormalGroup(g)) == []
  {
    hide *;
    ConfiguredGroupAgrees(t, link, c, t', g);
    NormalGroupFindings(t', g);
    NormalGroupThere(t', g);
  }

  lemma NormalGroupThere(t: Topology, g: LinkGroup)
    requires g in t.linkGroups
    ensures NormalGroup(g) in Normal(t).linkGroups
  {
    hide NormalDevice, NormalLink, NormalGroup, NormalSystem, NormalCluster;
    var i :| 0 <= i < |t.linkGroups| && t.linkGroups[i] == g;
    assert Normal(t).linkGroups[i] == NormalGroup(g);
  }
}
