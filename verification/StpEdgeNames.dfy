/** How the logical edges are named and in which order they hold their links: both
    decide between equally near bridges. */
module StpEdgeNames {
  import opened Text
  import opened Sorting
  import opened Lists
  import opened Topology
  import opened StpModel
  import opened StpEdges
  import opened StpEdgeFacts

  function PairName(e: Edge): string { e.left + "\0" + e.right }

  /** The pairs of bridges that the edges of a group join. */
  ghost function PairsOf(edges: set<Edge>, group: Id): set<string> { set e | e in edges && e.groupId == group :: PairName(e) }

  ghost function Earlier(pairs: set<string>, pair: string): set<string> { set p | p in pairs && Less(p, pair) }

  ghost predicate NamedGroups(groups: seq<LinkGroup>) { forall g | g in groups :: g.id != "" }

  lemma GroupOfEdge(w: Wiring, links: seq<Link>, groups: seq<LinkGroup>, g: LinkGroup, e: Edge) returns (key: string)
    requires UniqueLinks(Elements(links)) && DisjointGroups(groups) && NamedGroups(groups) && g in groups
    requires e in AllEdges(w, Elements(links), groups) && e.groupId == g.id
    ensures FromGroup(w, LinkTable(Elements(links)), groups, g, key, e)
  {
    hide AllEdges, LinkTable, UniqueLinks, Keys, WithKey, Members;
    EdgeOrigin(w, links, groups, e);
    var h, k :| FromGroup(w, LinkTable(Elements(links)), groups, h, k, e);
    var i :| 0 <= i < |groups| && groups[i] == g;
    var j :| 0 <= j < |groups| && groups[j] == h;
    key := k;
  }

  lemma PairIs(w: Wiring, table: map<Id, Link>, groups: seq<LinkGroup>, g: LinkGroup, key: string, e: Edge)
    requires FromGroup(w, table, groups, g, key, e)
    ensures PairName(e) == key && e.groupId == g.id && e.id == EdgeName(g.id, Keys(w, Members(w, table, MemberIds(g))), key)
  {
    hide LeftOf, RightOf, Eligible, Keys, Members, MemberIds;
    var bundled := WithKey(w, Members(w, table, MemberIds(g)), key);
    assert bundled[0] in bundled;
  }

  lemma KeyHasEdge(w: Wiring, links: set<Link>, groups: seq<LinkGroup>, g: LinkGroup, key: string)
    requires UniqueLinks(links) && DisjointGroups(groups) && g in groups && key in Keys(w, Members(w, LinkTable(links), MemberIds(g)))
    ensures GroupEdge(w, LinkTable(links), g, key) in AllEdges(w, links, groups)
  {
    hide GroupEdge, UniqueLinks, Eligible;
    var ms := Members(w, LinkTable(links), MemberIds(g));
    var l :| l in ms && PairKey(w, l) == key;
    MembersListed(w, LinkTable(links), MemberIds(g), l);
    assert l in links && l.id in g.linkIds;
    assert Met(links, g) && GroupEdge(w, LinkTable(links), g, key) in GroupEdges(w, LinkTable(links), g);
  }

  lemma {:induction false} MembersListed(w: Wiring, table: map<Id, Link>, ids: seq<Id>, l: Link)
    requires l in Members(w, table, ids)
    ensures exists id :: id in ids && id in table && table[id] == l
  {
    hide Eligible;
    var last := ids[|ids| - 1];
    if !(last in table && table[last] == l) {
      MembersListed(w, table, ids[..|ids| - 1], l);
      assert ids == ids[..|ids| - 1] + [last];
    }
  }

  /** An edge outside all groups is named after its link. An edge of a group is named
      after the group, and numbered when the group joins several pairs of bridges: by
      the place of its pair among theirs. */
  lemma EdgeNamed(w: Wiring, links: seq<Link>, groups: seq<LinkGroup>, e: Edge)
    requires UniqueLinks(Elements(links)) && DisjointGroups(groups) && NamedGroups(groups)
    requires e in AllEdges(w, Elements(links), groups)
    ensures e.groupId == "" ==> |e.links| == 1 && e.id == e.links[0].id
    ensures e.groupId != "" ==>
      var pairs := PairsOf(AllEdges(w, Elements(links), groups), e.groupId);
      e.id == if |pairs| == 1 then e.groupId
              else e.groupId + ":" + Decimal(|Earlier(pairs, PairName(e))| + 1)
  {
    hide AllEdges, LinkTable, UniqueLinks, Keys, GroupEdge, Members, DisjointGroups;
    EdgeOrigin(w, links, groups, e);
    if e.groupId != "" {
      var g, key :| FromGroup(w, LinkTable(Elements(links)), groups, g, key, e);
      PairIs(w, LinkTable(Elements(links)), groups, g, key, e);
      PairsAreKeys(w, links, groups, g);
      NamedAs(g.id, PairsOf(AllEdges(w, Elements(links), groups), g.id), PairName(e));
    } else {
      if g, key :| FromGroup(w, LinkTable(Elements(links)), groups, g, key, e) { PairIs(w, LinkTable(Elements(links)), groups, g, key, e); }
    }
  }

  lemma NamedAs(group: Id, pairs: set<string>, pair: string)
    requires pair in pairs
    ensures EdgeName(group, pairs, pair) ==
      if |pairs| == 1 then group else group + ":" + Decimal(|Earlier(pairs, pair)| + 1)
  {
    hide Less;
    assert |pairs| >= 1 by { assert pairs == pairs - {pair} + {pair}; }
    assert Rank(pairs, pair) == |Earlier(pairs, pair)|;
  }

  lemma PairsAreKeys(w: Wiring, links: seq<Link>, groups: seq<LinkGroup>, g: LinkGroup)
    requires UniqueLinks(Elements(links)) && DisjointGroups(groups) && NamedGroups(groups) && g in groups
    ensures PairsOf(AllEdges(w, Elements(links), groups), g.id) == Keys(w, Members(w, LinkTable(Elements(links)), MemberIds(g)))
  {
    hide AllEdges, LinkTable, UniqueLinks, Keys, GroupEdge, Members, DisjointGroups;
    var edges, table := AllEdges(w, Elements(links), groups), LinkTable(Elements(links));
    forall e | e in edges && e.groupId == g.id ensures PairName(e) in Keys(w, Members(w, table, MemberIds(g))) {
      var key := GroupOfEdge(w, links, groups, g, e);
      PairIs(w, table, groups, g, key, e);
    }
    forall key | key in Keys(w, Members(w, table, MemberIds(g))) ensures key in PairsOf(edges, g.id) {
      KeyHasEdge(w, Elements(links), groups, g, key);
      PairIs(w, table, groups, g, key, GroupEdge(w, table, g, key));
    }
  }

  // ----- the order of the links

  predicate Fits(w: Wiring, table: map<Id, Link>, key: string, id: Id) {
    id in table && Eligible(w, table[id]) && PairKey(w, table[id]) == key
  }

  function IdsOf(links: seq<Link>): seq<Id> { Map(links, (l: Link) => l.id) }

  function Fitting(w: Wiring, table: map<Id, Link>, key: string, ids: seq<Id>): seq<Id> { Filter(ids, id => Fits(w, table, key, id)) }

  lemma FittingPush(w: Wiring, table: map<Id, Link>, key: string, ids: seq<Id>, id: Id)
    ensures Fitting(w, table, key, ids + [id]) ==
      if Fits(w, table, key, id) then Fitting(w, table, key, ids) + [id] else Fitting(w, table, key, ids)
  {
    hide Fits;
    assert (ids + [id])[..|ids|] == ids;
  }

  lemma MembersPush(w: Wiring, table: map<Id, Link>, ids: seq<Id>, id: Id)
    ensures Members(w, table, ids + [id]) ==
      if id in table && Eligible(w, table[id]) then Members(w, table, ids) + [table[id]] else Members(w, table, ids)
  {
    hide Eligible;
    assert (ids + [id])[..|ids|] == ids;
  }

  lemma WithKeyPush(w: Wiring, ms: seq<Link>, l: Link, key: string)
    ensures WithKey(w, ms + [l], key) == if PairKey(w, l) == key then WithKey(w, ms, key) + [l] else WithKey(w, ms, key)
  {
    assert (ms + [l])[..|ms|] == ms;
  }

  lemma NamesPush(ms: seq<Link>, l: Link)
    ensures IdsOf(ms + [l]) == IdsOf(ms) + [l.id]
  {
  }

  lemma BundledNone(w: Wiring, table: map<Id, Link>, key: string)
    ensures IdsOf(WithKey(w, Members(w, table, []), key)) == Fitting(w, table, key, [])
  {
  }

  lemma {:induction false} BundledInOrder(w: Wiring, table: map<Id, Link>, ids: seq<Id>, key: string)
    requires forall id | id in table :: table[id].id == id
    ensures IdsOf(WithKey(w, Members(w, table, ids), key)) == Fitting(w, table, key, ids)
  {
    hide Eligible, PairKey, Members, WithKey, IdsOf, Fitting;
    if ids == [] {
      BundledNone(w, table, key);
    } else {
      var last, front := ids[|ids| - 1], ids[..|ids| - 1];
      assert ids == front + [last];
      BundledInOrder(w, table, front, key);
      MembersPush(w, table, front, last);
      FittingPush(w, table, key, front, last);
      if last in table && Eligible(w, table[last]) {
        WithKeyPush(w, Members(w, table, front), table[last], key);
        NamesPush(WithKey(w, Members(w, table, front), key), table[last]);
      }
    }
  }

  ghost predicate Holds(e: Edge, id: Id) { exists l :: l in e.links && l.id == id }

  /** An edge of a group holds its links in the order of the group's members. */
  lemma LinksInGroupOrder(w: Wiring, links: seq<Link>, groups: seq<LinkGroup>, g: LinkGroup, e: Edge)
    requires UniqueLinks(Elements(links)) && DisjointGroups(groups) && NamedGroups(groups) && g in groups
    requires e in AllEdges(w, Elements(links), groups) && e.groupId == g.id
    ensures IdsOf(e.links) == Filter(if g.mode.Failover? then [g.primaryLinkId] else g.linkIds, id => Holds(e, id))
  {
    hide AllEdges, UniqueLinks, Keys, DisjointGroups, Members, WithKey, Eligible, PairKey, LeftOf, RightOf, Filter;
    var table := LinkTable(Elements(links));
    var key := GroupOfEdge(w, links, groups, g, e);
    assert forall id | id in table :: table[id].id == id;
    BundledInOrder(w, table, MemberIds(g), key);
    forall id | id in MemberIds(g) ensures Fits(w, table, key, id) == Holds(e, id) {
      MembersNamed(w, table, MemberIds(g), key, id);
    }
    FilterSame(MemberIds(g), id => Fits(w, table, key, id), id => Holds(e, id));
  }

  lemma MembersNamed(w: Wiring, table: map<Id, Link>, ids: seq<Id>, key: string, id: Id)
    requires id in ids && forall i | i in table :: table[i].id == i
    ensures Fits(w, table, key, id) <==> exists l :: l in WithKey(w, Members(w, table, ids), key) && l.id == id
  {
    hide Eligible, PairKey, Members, WithKey, Filter;
    var bundled := WithKey(w, Members(w, table, ids), key);
    BundledInOrder(w, table, ids, key);
    var named := IdsOf(bundled);
    if Fits(w, table, key, id) {
      assert id in named;
      var k :| 0 <= k < |named| && named[k] == id;
      assert bundled[k] in bundled;
    }
    if l :| l in bundled && l.id == id {
      var k :| 0 <= k < |bundled| && bundled[k] == l;
      assert named[k] == id && id in named;
    }
  }
}
