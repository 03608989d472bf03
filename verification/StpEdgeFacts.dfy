/** What every logical edge of a VLAN satisfies, and stpEdges itself. */
module StpEdgeFacts {
  import opened Text
  import opened Sorting
  import opened Topology
  import opened StpModel
  import opened StpEdges

  /** All links of the edge join the same two bridges, named in order. */
  ghost predicate Joins(w: Wiring, e: Edge) {
    && e.id != "" && Less(e.left, e.right) && e.links != []
    && forall l | l in e.links :: Eligible(w, l) && LeftOf(w, l) == e.left && RightOf(w, l) == e.right
  }

  ghost predicate NamedBridges(w: Wiring) {
    forall d | d in w.bridgeOf :: WellFormedId(w.bridgeOf[d])
  }

  lemma {:induction false} SplitAt(c: char, a: string, b: string, x: string, y: string)
    requires a + [c] + b == x + [c] + y && c !in a && c !in x
    ensures a == x && b == y
  {
    var s, t := a + [c] + b, x + [c] + y;
    assert s[|a|] == c && t[|x|] == c;
    assert forall i | 0 <= i < |a| :: s[i] == a[i] && a[i] in a;
    assert forall i | 0 <= i < |x| :: t[i] == x[i] && x[i] in x;
    assert |a| == |x|;
    assert s[..|a|] == a && t[..|x|] == x;
    assert s[|a| + 1..] == b && t[|x| + 1..] == y;
  }

  lemma LeftBelowRight(w: Wiring, l: Link)
    requires Eligible(w, l)
    ensures Less(LeftOf(w, l), RightOf(w, l))
  {
    LessTotal(w.bridgeOf[l.sourceDeviceId], w.bridgeOf[l.targetDeviceId]);
  }

  lemma PairKeyInjective(w: Wiring, l: Link, m: Link)
    requires NamedBridges(w) && Eligible(w, l) && Eligible(w, m) && PairKey(w, l) == PairKey(w, m)
    ensures LeftOf(w, l) == LeftOf(w, m) && RightOf(w, l) == RightOf(w, m)
  {
    SplitAt('\0', LeftOf(w, l), RightOf(w, l), LeftOf(w, m), RightOf(w, m));
  }

  lemma {:induction false} MembersEligible(w: Wiring, table: map<Id, Link>, ids: seq<Id>)
    ensures forall l | l in Members(w, table, ids) :: Eligible(w, l) && exists id :: id in ids && id in table && table[id] == l
  {
    if ids != [] {
      MembersEligible(w, table, ids[..|ids| - 1]);
      var last := ids[|ids| - 1];
      assert last in ids;
      forall l | l in Members(w, table, ids) ensures Eligible(w, l) && exists id :: id in ids && id in table && table[id] == l {
        if l in Members(w, table, ids[..|ids| - 1]) {
          var id :| id in ids[..|ids| - 1] && id in table && table[id] == l;
          assert id in ids;
        }
      }
    }
  }

  lemma GroupEdgeJoins(w: Wiring, table: map<Id, Link>, g: LinkGroup, key: string)
    requires NamedBridges(w) && g.id != "" && key in Keys(w, Members(w, table, MemberIds(g)))
    ensures Joins(w, GroupEdge(w, table, g, key))
  {
    var e := GroupEdge(w, table, g, key);
    MembersEligible(w, table, MemberIds(g));
    hide Members, Eligible, LeftOf, RightOf, PairKey, NamedBridges, Rank;
    var first := e.links[0];
    assert first in e.links;
    LeftBelowRight(w, first);
    forall l | l in e.links ensures Eligible(w, l) && LeftOf(w, l) == e.left && RightOf(w, l) == e.right {
      PairKeyInjective(w, l, first);
    }
  }

  lemma EdgesJoin(w: Wiring, links: set<Link>, groups: seq<LinkGroup>, e: Edge)
    requires NamedBridges(w) && UniqueLinks(links)
    requires (forall l | l in links :: l.id != "") && (forall g | g in groups :: g.id != "")
    requires e in AllEdges(w, links, groups)
    ensures Joins(w, e)
  {
    var table := LinkTable(links);
    if l :| l in links && !Grouped(groups, l.id) && Eligible(w, l) && e == LinkEdge(w, l) {
      LeftBelowRight(w, l);
    } else {
      var g :| g in groups && Met(links, g) && e in GroupEdges(w, table, g);
      var key :| key in Keys(w, Members(w, table, MemberIds(g))) && e == GroupEdge(w, table, g, key);
      GroupEdgeJoins(w, table, g, key);
    }
  }

  lemma RankInjective(keys: set<string>, k: string, m: string)
    requires k in keys && m in keys && Rank(keys, k) == Rank(keys, m)
    ensures k == m
  {
    LessTotal(k, m);
    if Less(k, m) { RankMonotone(keys, k, m); }
    if Less(m, k) { RankMonotone(keys, m, k); }
  }

  lemma RankMonotone(keys: set<string>, k: string, m: string)
    requires k in keys && m in keys && Less(k, m)
    ensures Rank(keys, k) < Rank(keys, m)
  {
    var below, above := set x | x in keys && Less(x, k), set x | x in keys && Less(x, m);
    forall x | x in below ensures x in above { LessTransitive(x, k, m); }
    LessIrreflexive(k);
    assert k in above && k !in below;
    assert below < above;
    assert |above| == |below| + |above - below| by { assert above == below + (above - below); }
    assert k in above - below;
  }

  lemma OneKey(keys: set<string>, a: string, b: string)
    requires a in keys && b in keys && |keys| <= 1
    ensures a == b
  {
    var rest := keys - {a};
    assert |rest| == 0;
    assert b !in rest;
  }

  lemma NumberedName(g: Id, keys: set<string>, key: string)
    requires WellFormedId(g)
    ensures ':' in EdgeName(g, keys, key) <==> |keys| > 1
  {
    var a := EdgeName(g, keys, key);
    if |keys| > 1 { assert a[|g|] == ':'; }
  }

  lemma EdgeNameInjective(g: Id, gkeys: set<string>, gkey: string, h: Id, hkeys: set<string>, hkey: string)
    requires WellFormedId(g) && WellFormedId(h) && gkey in gkeys && hkey in hkeys
    requires EdgeName(g, gkeys, gkey) == EdgeName(h, hkeys, hkey)
    ensures g == h && (gkeys == hkeys ==> gkey == hkey)
  {
    NumberedName(g, gkeys, gkey);
    NumberedName(h, hkeys, hkey);
    if |gkeys| > 1 {
      SplitAt(':', g, Decimal(Rank(gkeys, gkey) + 1), h, Decimal(Rank(hkeys, hkey) + 1));
      DecimalInjective(Rank(gkeys, gkey) + 1, Rank(hkeys, hkey) + 1);
      if gkeys == hkeys { RankInjective(gkeys, gkey, hkey); }
    } else if gkeys == hkeys {
      OneKey(gkeys, gkey, hkey);
    }
  }

  lemma LinkNotGroupEdge(l: Id, g: Id, keys: set<string>, key: string)
    requires WellFormedId(l) && WellFormedId(g) && l != g
    ensures l != EdgeName(g, keys, key)
  {
    NumberedName(g, keys, key);
  }

  /** Identifiers tell the edges of a VLAN apart. */
  lemma EdgeIdsDiffer(w: Wiring, links: seq<Link>, groups: seq<LinkGroup>)
    requires DistinctLinks(links) && UniqueLinks(Elements(links)) && DisjointGroups(groups) && SeparateEdgeIds(links, groups)
    ensures SameIdSameEdge(AllEdges(w, Elements(links), groups))
  {
    var all := AllEdges(w, Elements(links), groups);
    forall a, b | a in all && b in all && a.id == b.id ensures a == b {
      SameId(w, links, groups, a, b);
    }
  }

  ghost predicate FromLink(w: Wiring, links: seq<Link>, groups: seq<LinkGroup>, l: Link, e: Edge) {
    l in links && !Grouped(groups, l.id) && Eligible(w, l) && e == LinkEdge(w, l)
  }

  ghost predicate FromGroup(w: Wiring, table: map<Id, Link>, groups: seq<LinkGroup>, g: LinkGroup, key: string, e: Edge) {
    g in groups && key in Keys(w, Members(w, table, MemberIds(g))) && e == GroupEdge(w, table, g, key)
  }

  lemma EdgeOrigin(w: Wiring, links: seq<Link>, groups: seq<LinkGroup>, e: Edge)
    requires UniqueLinks(Elements(links)) && e in AllEdges(w, Elements(links), groups)
    ensures (exists l :: FromLink(w, links, groups, l, e))
      || exists g, key :: FromGroup(w, LinkTable(Elements(links)), groups, g, key, e)
  {
    var table := LinkTable(Elements(links));
    if l :| l in links && !Grouped(groups, l.id) && Eligible(w, l) && e == LinkEdge(w, l) {
      assert FromLink(w, links, groups, l, e);
    } else {
      var g :| g in groups && Met(Elements(links), g) && e in GroupEdges(w, table, g);
      var key :| key in Keys(w, Members(w, table, MemberIds(g))) && e == GroupEdge(w, table, g, key);
      assert FromGroup(w, table, groups, g, key, e);
    }
  }

  lemma SameId(w: Wiring, links: seq<Link>, groups: seq<LinkGroup>, a: Edge, b: Edge)
    requires DistinctLinks(links) && UniqueLinks(Elements(links)) && DisjointGroups(groups) && SeparateEdgeIds(links, groups)
    requires a in AllEdges(w, Elements(links), groups) && b in AllEdges(w, Elements(links), groups) && a.id == b.id
    ensures a == b
  {
    EdgeOrigin(w, links, groups, a);
    EdgeOrigin(w, links, groups, b);
    var table := LinkTable(Elements(links));
    hide AllEdges, Members, Keys, Grouped, Eligible, LeftOf, RightOf, WithKey, UniqueLinks, EdgeName, LinkTable;
    if l :| FromLink(w, links, groups, l, a) {
      if m :| FromLink(w, links, groups, m, b) {
      } else {
        var h, hkey :| FromGroup(w, table, groups, h, hkey, b);
        LinkNotGroupEdge(l.id, h.id, Keys(w, Members(w, table, MemberIds(h))), hkey);
      }
    } else {
      var g, gkey :| FromGroup(w, table, groups, g, gkey, a);
      var gkeys := Keys(w, Members(w, table, MemberIds(g)));
      if m :| FromLink(w, links, groups, m, b) {
        LinkNotGroupEdge(m.id, g.id, gkeys, gkey);
      } else {
        var h, hkey :| FromGroup(w, table, groups, h, hkey, b);
        EdgeNameInjective(g.id, gkeys, gkey, h.id, Keys(w, Members(w, table, MemberIds(h))), hkey);
        assert g == h;
      }
    }
  }

  /** stpEdges: the logical edges of a VLAN, sorted by identifier. */
  method SortEdges(links: seq<Link>, groups: seq<LinkGroup>, w: Wiring) returns (edges: seq<Edge>)
    requires DistinctLinks(links) && DisjointGroups(groups) && SeparateEdgeIds(links, groups)
    ensures UniqueLinks(Elements(links)) && SameIdSameEdge(AllEdges(w, Elements(links), groups))
    ensures edges == SortedEdges(w, Elements(links), groups)
  {
    var collected := CollectEdges(links, groups, w);
    EdgeIdsDiffer(w, links, groups);
    EdgeOrder(AllEdges(w, Elements(links), groups));
    edges := Sort(collected, EdgeLess);
    AscendingUnique(EdgeLess, edges, SortedEdges(w, Elements(links), groups));
  }

  // ----- a link is in one edge only

  lemma {:induction false} MembersDistinct(w: Wiring, links: set<Link>, ids: seq<Id>)
    requires UniqueLinks(links) && Distinct(ids)
    ensures Distinct(Members(w, LinkTable(links), ids))
  {
    if ids != [] {
      var table := LinkTable(links);
      var front, last := ids[..|ids| - 1], ids[|ids| - 1];
      MembersDistinct(w, links, front);
      MembersEligible(w, table, front);
      assert last !in front;
      assert forall l | l in Members(w, table, front) :: l.id in front;
    }
  }

  lemma {:induction false} WithKeyDistinct(w: Wiring, ms: seq<Link>, key: string)
    requires Distinct(ms)
    ensures Distinct(WithKey(w, ms, key))
  {
    hide PairKey, Distinct;
    if ms == [] {
      NoneDistinct();
    } else {
      LastApart(ms);
      WithKeyDistinct(w, ms[..|ms| - 1], key);
      OneMoreDistinct(WithKey(w, ms[..|ms| - 1], key), ms[|ms| - 1]);
      var r := WithKey(w, ms[..|ms| - 1], key);
      assert WithKey(w, ms, key) == if PairKey(w, ms[|ms| - 1]) == key then r + [ms[|ms| - 1]] else r;
    }
  }

  lemma NoneDistinct()
    ensures Distinct<Link>([])
  {
  }

  lemma LastApart(ms: seq<Link>)
    requires Distinct(ms) && ms != []
    ensures Distinct(ms[..|ms| - 1]) && ms[|ms| - 1] !in ms[..|ms| - 1]
  {
  }

  lemma OneMoreDistinct(ms: seq<Link>, m: Link)
    requires Distinct(ms) && m !in ms
    ensures Distinct(ms + [m])
  {
  }

  /** The links of a group's edge are members of the group. */
  lemma GroupEdgeLinks(w: Wiring, links: set<Link>, groups: seq<LinkGroup>, g: LinkGroup, key: string, e: Edge)
    requires UniqueLinks(links) && DisjointGroups(groups) && FromGroup(w, LinkTable(links), groups, g, key, e)
    ensures Distinct(e.links)
    ensures forall l | l in e.links :: l in links && l.id in g.linkIds && PairKey(w, l) == key
  {
    var table := LinkTable(links);
    var ms := Members(w, table, MemberIds(g));
    MembersEligible(w, table, MemberIds(g));
    MembersDistinct(w, links, MemberIds(g));
    WithKeyDistinct(w, ms, key);
  }

  lemma EdgeLinks(w: Wiring, links: seq<Link>, groups: seq<LinkGroup>, e: Edge)
    requires UniqueLinks(Elements(links)) && DisjointGroups(groups) && e in AllEdges(w, Elements(links), groups)
    ensures Distinct(e.links) && forall l | l in e.links :: l in links
  {
    EdgeOrigin(w, links, groups, e);
    hide AllEdges, Grouped, Eligible, UniqueLinks;
    if !(exists l :: FromLink(w, links, groups, l, e)) {
      var g, key :| FromGroup(w, LinkTable(Elements(links)), groups, g, key, e);
      GroupEdgeLinks(w, Elements(links), groups, g, key, e);
    }
  }

  lemma LinkInOneEdge(w: Wiring, links: seq<Link>, groups: seq<LinkGroup>, a: Edge, b: Edge, l: Link)
    requires UniqueLinks(Elements(links)) && DisjointGroups(groups)
    requires a in AllEdges(w, Elements(links), groups) && b in AllEdges(w, Elements(links), groups)
    requires l in a.links && l in b.links
    ensures a == b
  {
    hide FromGroup, AllEdges, LinkTable, DisjointGroups, UniqueLinks, Grouped, PairKey;
    LinkOrigin(w, links, groups, a, l);
    LinkOrigin(w, links, groups, b, l);
    var table := LinkTable(Elements(links));
    if Grouped(groups, l.id) {
      var g :| FromGroup(w, table, groups, g, PairKey(w, l), a) && l.id in g.linkIds;
      var h :| FromGroup(w, table, groups, h, PairKey(w, l), b) && l.id in h.linkIds;
      SameGroupEdge(w, table, groups, g, h, PairKey(w, l), a, b, l.id);
    }
  }

  /** The link a link's edge comes from is that link, or one of its group. */
  lemma LinkOrigin(w: Wiring, links: seq<Link>, groups: seq<LinkGroup>, e: Edge, l: Link)
    requires UniqueLinks(Elements(links)) && DisjointGroups(groups) && e in AllEdges(w, Elements(links), groups) && l in e.links
    ensures if Grouped(groups, l.id)
            then exists g :: FromGroup(w, LinkTable(Elements(links)), groups, g, PairKey(w, l), e) && l.id in g.linkIds
            else FromLink(w, links, groups, l, e)
  {
    hide FromGroup, AllEdges, LinkTable, DisjointGroups, UniqueLinks, PairKey;
    EdgeOrigin(w, links, groups, e);
    if !exists m :: FromLink(w, links, groups, m, e) {
      var g, key :| FromGroup(w, LinkTable(Elements(links)), groups, g, key, e);
      GroupEdgeLinks(w, Elements(links), groups, g, key, e);
      InGroups(w, LinkTable(Elements(links)), groups, g, key, e);
    }
  }

  lemma InGroups(w: Wiring, table: map<Id, Link>, groups: seq<LinkGroup>, g: LinkGroup, key: string, e: Edge)
    requires FromGroup(w, table, groups, g, key, e)
    ensures g in groups
  {
  }

  lemma SameGroupEdge(w: Wiring, table: map<Id, Link>, groups: seq<LinkGroup>, g: LinkGroup, h: LinkGroup, key: string, a: Edge, b: Edge,
                      id: Id)
    requires DisjointGroups(groups) && FromGroup(w, table, groups, g, key, a) && FromGroup(w, table, groups, h, key, b)
    requires id in g.linkIds && id in h.linkIds
    ensures a == b
  {
    hide GroupEdge, Keys, Members;
  }
}
