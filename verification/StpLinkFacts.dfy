/** Which links are part of a logical edge, and which share one. */
module StpLinkFacts {
  import opened Text
  import opened Sorting
  import opened Topology
  import opened StpModel
  import opened StpEdges
  import opened StpEdgeFacts

  predicate PortCarries(ports: map<Id, Port>, port: Id, vlan: int) {
    && port in ports && !ports[port].mode.Unconfigured?
    && (ports[port].nativeVLAN == vlan || vlan in ports[port].allowedVLANs)
  }

  /** The link and its two ports carry the VLAN, and it joins two bridges. */
  predicate Runs(w: Wiring, l: Link) {
    && w.vlan in l.vlanIds && PortCarries(w.ports, l.sourcePortId, w.vlan) && PortCarries(w.ports, l.targetPortId, w.vlan)
    && l.sourceDeviceId in w.bridgeOf && l.targetDeviceId in w.bridgeOf
    && w.bridgeOf[l.sourceDeviceId] != w.bridgeOf[l.targetDeviceId]
  }

  /** Another link of its failover group stands in for it. */
  predicate StandsBy(groups: seq<LinkGroup>, l: Link) {
    exists g :: g in groups && l.id in g.linkIds && g.mode.Failover? && l.id != g.primaryLinkId
  }

  lemma RunsIs(w: Wiring, l: Link)
    ensures Runs(w, l) <==> Eligible(w, l)
    ensures Runs(w, l) ==> {LeftOf(w, l), RightOf(w, l)} == {w.bridgeOf[l.sourceDeviceId], w.bridgeOf[l.targetDeviceId]}
  {
  }

  lemma {:induction false} MembersHave(w: Wiring, table: map<Id, Link>, ids: seq<Id>, id: Id)
    requires id in table && Eligible(w, table[id])
    ensures table[id] in Members(w, table, ids) <== id in ids
  {
    hide Eligible;
    if ids != [] {
      MembersHave(w, table, ids[..|ids| - 1], id);
      assert ids == ids[..|ids| - 1] + [ids[|ids| - 1]];
    }
  }

  lemma InTable(links: set<Link>, l: Link)
    requires UniqueLinks(links) && l in links
    ensures l.id in LinkTable(links) && LinkTable(links)[l.id] == l
  {
  }

  lemma GroupHasEdge(w: Wiring, links: set<Link>, groups: seq<LinkGroup>, g: LinkGroup, l: Link) returns (e: Edge)
    requires UniqueLinks(links) && g in groups && l in links && l.id in g.linkIds && l.id in MemberIds(g) && Eligible(w, l)
    ensures e in AllEdges(w, links, groups) && l in e.links && FromGroup(w, LinkTable(links), groups, g, PairKey(w, l), e)
  {
    hide Eligible, UniqueLinks, LinkTable, PairKey, WithKey, Members, LeftOf, RightOf, Rank;
    var table := LinkTable(links);
    InTable(links, l);
    MembersHave(w, table, MemberIds(g), l.id);
    var key := PairKey(w, l);
    e := GroupEdge(w, table, g, key);
    assert e in GroupEdges(w, table, g) && Met(links, g);
  }

  lemma LinkGetsEdge(w: Wiring, links: seq<Link>, groups: seq<LinkGroup>, l: Link) returns (e: Edge)
    requires UniqueLinks(Elements(links)) && DisjointGroups(groups) && l in links && Runs(w, l) && !StandsBy(groups, l)
    ensures e in AllEdges(w, Elements(links), groups) && l in e.links
  {
    hide Runs, UniqueLinks, LinkTable, Eligible, GroupEdges, DisjointGroups;
    RunsIs(w, l);
    if Grouped(groups, l.id) {
      var g :| g in groups && l.id in g.linkIds;
      assert l.id in MemberIds(g);
      e := GroupHasEdge(w, Elements(links), groups, g, l);
    } else {
      e := LinkEdge(w, l);
      assert e in LoneEdges(w, groups, Elements(links));
    }
  }

  lemma EdgeOfMembers(w: Wiring, links: set<Link>, groups: seq<LinkGroup>, g: LinkGroup, key: string, e: Edge, l: Link)
    requires UniqueLinks(links) && FromGroup(w, LinkTable(links), groups, g, key, e) && l in e.links
    ensures g in groups && l.id in MemberIds(g) && Eligible(w, l) && PairKey(w, l) == key && l in links
    ensures e.groupId == g.id
  {
    hide Eligible, LeftOf, RightOf, Rank, PairKey;
    MembersEligible(w, LinkTable(links), MemberIds(g));
  }

  lemma EdgeLinkRuns(w: Wiring, links: seq<Link>, groups: seq<LinkGroup>, e: Edge, l: Link)
    requires UniqueLinks(Elements(links)) && DisjointGroups(groups) && e in AllEdges(w, Elements(links), groups) && l in e.links
    ensures l in links && Runs(w, l) && !StandsBy(groups, l)
    ensures if Grouped(groups, l.id) then exists g :: g in groups && l.id in g.linkIds && e.groupId == g.id else e.groupId == ""
  {
    hide Runs, UniqueLinks, LinkTable, Eligible, AllEdges, PairKey, FromGroup;
    LinkOrigin(w, links, groups, e, l);
    RunsIs(w, l);
    if Grouped(groups, l.id) {
      var g :| FromGroup(w, LinkTable(Elements(links)), groups, g, PairKey(w, l), e) && l.id in g.linkIds;
      EdgeOfMembers(w, Elements(links), groups, g, PairKey(w, l), e, l);
    }
  }

  /** A link is part of an edge exactly when it and its ports carry the VLAN, it joins
      two bridges, and no other link of a failover group stands in for it. */
  lemma LinkHasEdge(w: Wiring, links: seq<Link>, groups: seq<LinkGroup>, l: Link)
    requires UniqueLinks(Elements(links)) && DisjointGroups(groups) && l in links
    ensures (exists e :: e in AllEdges(w, Elements(links), groups) && l in e.links) <==> Runs(w, l) && !StandsBy(groups, l)
  {
    hide *;
    if e :| e in AllEdges(w, Elements(links), groups) && l in e.links { EdgeLinkRuns(w, links, groups, e, l); }
    if Runs(w, l) && !StandsBy(groups, l) { var e := LinkGetsEdge(w, links, groups, l); }
  }

  predicate SameBridges(w: Wiring, l: Link, m: Link) {
    && l.sourceDeviceId in w.bridgeOf && l.targetDeviceId in w.bridgeOf && m.sourceDeviceId in w.bridgeOf && m.targetDeviceId in w.bridgeOf
    && {w.bridgeOf[l.sourceDeviceId], w.bridgeOf[l.targetDeviceId]} == {w.bridgeOf[m.sourceDeviceId], w.bridgeOf[m.targetDeviceId]}
  }

  lemma SameBridgesKey(w: Wiring, l: Link, m: Link)
    requires NamedBridges(w) && Eligible(w, l) && Eligible(w, m)
    ensures SameBridges(w, l, m) <==> PairKey(w, l) == PairKey(w, m)
  {
    RunsIs(w, l);
    RunsIs(w, m);
    hide Eligible;
    if PairKey(w, l) == PairKey(w, m) { PairKeyInjective(w, l, m); }
    if SameBridges(w, l, m) { SameEnds(w, l, m); }
  }

  lemma SameEnds(w: Wiring, l: Link, m: Link)
    requires Eligible(w, l) && Eligible(w, m) && SameBridges(w, l, m)
    ensures LeftOf(w, l) == LeftOf(w, m) && RightOf(w, l) == RightOf(w, m)
  {
    var a, b := w.bridgeOf[l.sourceDeviceId], w.bridgeOf[l.targetDeviceId];
    var c, d := w.bridgeOf[m.sourceDeviceId], w.bridgeOf[m.targetDeviceId];
    assert a in {c, d} && b in {c, d};
    LessTotal(a, b);
    if Less(a, b) && Less(b, a) {
      LessTransitive(a, b, a);
      LessIrreflexive(a);
    }
  }

  predicate SharesGroup(groups: seq<LinkGroup>, l: Link, m: Link) {
    exists g :: g in groups && l.id in g.linkIds && m.id in g.linkIds
  }

  /** Two links that are part of edges share one exactly when they are of one group
      and join the same two bridges. */
  lemma LinksShareEdge(w: Wiring, links: seq<Link>, groups: seq<LinkGroup>, a: Edge, b: Edge, l: Link, m: Link)
    requires UniqueLinks(Elements(links)) && DisjointGroups(groups) && NamedBridges(w) && l != m
    requires a in AllEdges(w, Elements(links), groups) && l in a.links && b in AllEdges(w, Elements(links), groups) && m in b.links
    ensures a == b <==> SharesGroup(groups, l, m) && SameBridges(w, l, m)
  {
    hide Runs, UniqueLinks, LinkTable, Eligible, AllEdges, PairKey, FromGroup, SameBridges, NamedBridges, LinkEdge, DisjointGroups;
    EdgeLinkRuns(w, links, groups, a, l);
    EdgeLinkRuns(w, links, groups, b, m);
    RunsIs(w, l);
    RunsIs(w, m);
    SameBridgesKey(w, l, m);
    LinkOrigin(w, links, groups, a, l);
    LinkOrigin(w, links, groups, b, m);
    var table := LinkTable(Elements(links));
    if a == b {
      if Grouped(groups, l.id) {
        var g :| FromGroup(w, table, groups, g, PairKey(w, l), a) && l.id in g.linkIds;
        EdgeOfMembers(w, Elements(links), groups, g, PairKey(w, l), a, m);
        MembersAmong(groups, g, m.id);
      } else {
        LoneLink(w, l, a, m);
      }
    }
    if SharesGroup(groups, l, m) && SameBridges(w, l, m) {
      var g :| g in groups && l.id in g.linkIds && m.id in g.linkIds;
      var h :| FromGroup(w, table, groups, h, PairKey(w, l), a) && l.id in h.linkIds;
      var k :| FromGroup(w, table, groups, k, PairKey(w, m), b) && m.id in k.linkIds;
      EdgeOfMembers(w, Elements(links), groups, h, PairKey(w, l), a, l);
      EdgeOfMembers(w, Elements(links), groups, k, PairKey(w, m), b, m);
      OneGroup(groups, g, h, l.id);
      OneGroup(groups, g, k, m.id);
      SameGroupEdge(w, table, groups, g, g, PairKey(w, l), a, b, l.id);
    }
  }

  lemma OneGroup(groups: seq<LinkGroup>, g: LinkGroup, h: LinkGroup, id: Id)
    requires DisjointGroups(groups) && g in groups && h in groups && id in g.linkIds && id in h.linkIds
    ensures g == h
  {
  }

  lemma MembersAmong(groups: seq<LinkGroup>, g: LinkGroup, id: Id)
    requires DisjointGroups(groups) && g in groups && id in MemberIds(g)
    ensures id in g.linkIds
  {
  }

  lemma LoneLink(w: Wiring, l: Link, e: Edge, m: Link)
    requires e == LinkEdge(w, l) && m in e.links
    ensures m == l
  {
  }
}
