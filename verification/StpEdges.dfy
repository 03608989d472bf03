/** Logical edges: the links of one VLAN between different bridges, with the
    members of a link group bundled. */
module StpEdges {
  import opened Text
  import opened Sorting
  import opened Topology
  import opened StpModel

  /** What decides whether a link takes part: the bridge of each switch, the
      ports by identifier, and the VLAN. */
  datatype Wiring = Wiring(bridgeOf: map<Id, Id>, ports: map<Id, Port>, vlan: int)

  /** Go finds a port without any VLAN where there is none: it carries nothing. */
  predicate Carries(w: Wiring, portId: Id) {
    portId in w.ports && PortCarriesVLAN(w.ports[portId], w.vlan)
  }

  predicate Eligible(w: Wiring, l: Link) {
    && l.sourceDeviceId in w.bridgeOf && l.targetDeviceId in w.bridgeOf
    && w.bridgeOf[l.sourceDeviceId] != w.bridgeOf[l.targetDeviceId]
    && w.vlan in l.vlanIds && Carries(w, l.sourcePortId) && Carries(w, l.targetPortId)
  }

  function LeftOf(w: Wiring, l: Link): Id {
    if Eligible(w, l) then Least(w.bridgeOf[l.sourceDeviceId], w.bridgeOf[l.targetDeviceId]) else ""
  }

  function RightOf(w: Wiring, l: Link): Id {
    if Eligible(w, l) then Greatest(w.bridgeOf[l.sourceDeviceId], w.bridgeOf[l.targetDeviceId]) else ""
  }

  function LinkEdge(w: Wiring, l: Link): Edge {
    Edge(l.id, "", LeftOf(w, l), RightOf(w, l), [l])
  }

  // ----- bundles

  /** A failover group forwards on its primary link only. */
  function MemberIds(g: LinkGroup): seq<Id> {
    if g.mode.Failover? then [g.primaryLinkId] else g.linkIds
  }

  /** The eligible links among ids, in that order. */
  function Members(w: Wiring, table: map<Id, Link>, ids: seq<Id>): (ms: seq<Link>) {
    if ids == [] then [] else
      var last := ids[|ids| - 1];
      Members(w, table, ids[..|ids| - 1]) + if last in table && Eligible(w, table[last]) then [table[last]] else []
  }

  function PairKey(w: Wiring, l: Link): string {
    LeftOf(w, l) + "\0" + RightOf(w, l)
  }

  ghost function Keys(w: Wiring, ms: seq<Link>): set<string> {
    set l | l in ms :: PairKey(w, l)
  }

  /** The links of ms that join the pair of bridges key stands for. */
  ghost function WithKey(w: Wiring, ms: seq<Link>, key: string): (r: seq<Link>)
    ensures forall l :: l in r <==> l in ms && PairKey(w, l) == key
    ensures r == [] <==> key !in Keys(w, ms)
  {
    if ms == [] then [] else
      var last := ms[|ms| - 1];
      var r := WithKey(w, ms[..|ms| - 1], key);
      assert forall l :: l in ms <==> l in ms[..|ms| - 1] || l == last;
      var t := r + if PairKey(w, last) == key then [last] else [];
      assert t != [] ==> t[0] in t;
      t
  }

  ghost function Rank(keys: set<string>, key: string): nat { |set k | k in keys && Less(k, key)| }

  ghost function EdgeName(group: Id, keys: set<string>, key: string): Id {
    if |keys| > 1 then group + ":" + Decimal(Rank(keys, key) + 1) else group
  }

  ghost function GroupEdge(w: Wiring, table: map<Id, Link>, g: LinkGroup, key: string): Edge
    requires key in Keys(w, Members(w, table, MemberIds(g)))
  {
    var ms := Members(w, table, MemberIds(g));
    var bundled := WithKey(w, ms, key);
    assert bundled[0] in bundled;
    Edge(EdgeName(g.id, Keys(w, ms), key), g.id, LeftOf(w, bundled[0]), RightOf(w, bundled[0]), bundled)
  }

  ghost function GroupEdges(w: Wiring, table: map<Id, Link>, g: LinkGroup): set<Edge> {
    set key | key in Keys(w, Members(w, table, MemberIds(g))) :: GroupEdge(w, table, g, key)
  }

  /** byPair lists, for each pair of bridges, the links of ms that join it. */
  ghost predicate Paired(w: Wiring, ms: seq<Link>, byPair: map<string, seq<Link>>) {
    byPair.Keys == Keys(w, ms) && forall key | key in byPair :: byPair[key] == WithKey(w, ms, key)
  }

  lemma PairedAdd(w: Wiring, ms: seq<Link>, byPair: map<string, seq<Link>>, l: Link)
    requires Paired(w, ms, byPair)
    ensures var key := PairKey(w, l);
            Paired(w, ms + [l], byPair[key := (if key in byPair then byPair[key] else []) + [l]])
  {
    var key := PairKey(w, l);
    KeysGrow(w, ms, l);
    WithKeyGrow(w, ms, l, key);
    hide WithKey, PairKey, Keys;
    var r := byPair[key := (if key in byPair then byPair[key] else []) + [l]];
    forall k | k in r ensures r[k] == WithKey(w, ms + [l], k) {
      if k != key { WithKeyGrow(w, ms, l, k); }
    }
  }

  /** The eligible members of a group, by pair of bridges. */
  method PairMembers(w: Wiring, table: map<Id, Link>, ids: seq<Id>) returns (byPair: map<string, seq<Link>>)
    ensures Paired(w, Members(w, table, ids), byPair)
  {
    byPair := map[];
    assert Keys(w, Members(w, table, [])) == {};
    hide Paired;
    for j := 0 to |ids|
      invariant Paired(w, Members(w, table, ids[..j]), byPair)
    {
      assert ids[..j + 1][..j] == ids[..j];
      ghost var before := Members(w, table, ids[..j]);
      if ids[j] in table && Eligible(w, table[ids[j]]) {
        var member := table[ids[j]];
        var key := PairKey(w, member);
        assert Members(w, table, ids[..j + 1]) == before + [member];
        PairedAdd(w, before, byPair, member);
        byPair := byPair[key := (if key in byPair then byPair[key] else []) + [member]];
      } else {
        assert Members(w, table, ids[..j + 1]) == before;
      }
    }
    assert ids[..|ids|] == ids;
  }

  lemma RankOfKey(keys: seq<string>, i: nat)
    requires Ascending(Less, keys) && i < |keys|
    ensures |Elements(keys)| == |keys| && keys[i] in Elements(keys) && Rank(Elements(keys), keys[i]) == i
  {
    LessIsStrictTotal();
    AscendingDistinct(Less, keys);
    DistinctSize(keys);
    PositionIsRank(Less, keys, i, set k | k in Elements(keys) && Less(k, keys[i]));
  }

  /** What the i-th pair contributes. */
  lemma NthEdge(w: Wiring, table: map<Id, Link>, g: LinkGroup, byPair: map<string, seq<Link>>, keys: seq<string>, i: nat)
    requires Paired(w, Members(w, table, MemberIds(g)), byPair)
    requires Ascending(Less, keys) && Elements(keys) == byPair.Keys && i < |keys|
    ensures keys[i] in byPair && keys[i] in Keys(w, Members(w, table, MemberIds(g)))
    ensures byPair[keys[i]] != []
    ensures var bundled := byPair[keys[i]];
            Edge(if |keys| > 1 then g.id + ":" + Decimal(i + 1) else g.id, g.id,
                 LeftOf(w, bundled[0]), RightOf(w, bundled[0]), bundled) == GroupEdge(w, table, g, keys[i])
  {
    hide Rank, Eligible, Members, LeftOf, RightOf, Decimal, Less, PairKey, Keys, WithKey, MemberIds, Ascending, Paired;
    RankOfKey(keys, i);
    assert keys[i] in Elements(keys);
    PairedAt(w, Members(w, table, MemberIds(g)), byPair, keys[i]);
  }

  lemma PairedAt(w: Wiring, ms: seq<Link>, byPair: map<string, seq<Link>>, key: string)
    requires Paired(w, ms, byPair) && key in byPair
    ensures byPair.Keys == Keys(w, ms) && key in Keys(w, ms) && byPair[key] == WithKey(w, ms, key) != []
  {
    hide LeftOf, RightOf, Less, PairKey, WithKey;
  }

  /** One edge for each pair, numbered when there are several. */
  method NamePairs(w: Wiring, ghost table: map<Id, Link>, g: LinkGroup, byPair: map<string, seq<Link>>)
    returns (edges: seq<Edge>)
    requires Paired(w, Members(w, table, MemberIds(g)), byPair)
    ensures Elements(edges) == GroupEdges(w, table, g)
    ensures Distinct(edges) && forall e | e in edges :: e.groupId == g.id
  {
    hide GroupEdge, GroupEdges, EdgeName, WithKey, Eligible, Members, LeftOf, RightOf, Keys, PairKey, Decimal, Less;
    ghost var ms := Members(w, table, MemberIds(g));
    var keys := SortedKeys(byPair.Keys);
    LessIsStrictTotal();
    AscendingDistinct(Less, keys);
    edges := [];
    for i := 0 to |keys|
      invariant |edges| == i
      invariant forall k | 0 <= k < i :: keys[k] in Keys(w, ms) && edges[k] == GroupEdge(w, table, g, keys[k])
    {
      NthEdge(w, table, g, byPair, keys, i);
      var bundled := byPair[keys[i]];
      var id := if |keys| > 1 then g.id + ":" + Decimal(i + 1) else g.id;
      edges := edges + [Edge(id, g.id, LeftOf(w, bundled[0]), RightOf(w, bundled[0]), bundled)];
    }
    GroupEdgesListed(w, table, g, keys, edges);
  }

  /** stpEdges, the part for one link group. */
  method BundleGroup(w: Wiring, table: map<Id, Link>, g: LinkGroup) returns (edges: seq<Edge>)
    ensures Elements(edges) == GroupEdges(w, table, g)
    ensures Distinct(edges) && forall e | e in edges :: e.groupId == g.id
  {
    var byPair := PairMembers(w, table, MemberIds(g));
    edges := NamePairs(w, table, g, byPair);
  }

  lemma KeysGrow(w: Wiring, ms: seq<Link>, l: Link)
    ensures Keys(w, ms + [l]) == Keys(w, ms) + {PairKey(w, l)}
  {
    assert forall m :: m in ms + [l] <==> m in ms || m == l;
  }

  lemma WithKeyGrow(w: Wiring, ms: seq<Link>, l: Link, key: string)
    ensures PairKey(w, l) != key ==> WithKey(w, ms + [l], key) == WithKey(w, ms, key)
    ensures PairKey(w, l) == key ==>
      WithKey(w, ms + [l], key) == (if key in Keys(w, ms) then WithKey(w, ms, key) else []) + [l]
  {
    assert (ms + [l])[..|ms|] == ms;
    assert key !in Keys(w, ms) ==> WithKey(w, ms, key) == [];
  }

  lemma GroupEdgesListed(w: Wiring, table: map<Id, Link>, g: LinkGroup, keys: seq<string>, edges: seq<Edge>)
    requires Elements(keys) == Keys(w, Members(w, table, MemberIds(g))) && Distinct(keys)
    requires |edges| == |keys|
    requires forall k | 0 <= k < |keys| ::
      keys[k] in Keys(w, Members(w, table, MemberIds(g))) && edges[k] == GroupEdge(w, table, g, keys[k])
    ensures Elements(edges) == GroupEdges(w, table, g) && Distinct(edges)
    ensures forall e | e in edges :: e.groupId == g.id
  {
    forall e ensures e in Elements(edges) <==> e in GroupEdges(w, table, g) {
      if e in GroupEdges(w, table, g) {
        var key :| key in Keys(w, Members(w, table, MemberIds(g))) && e == GroupEdge(w, table, g, key);
        assert key in Elements(keys);
        var k :| 0 <= k < |keys| && keys[k] == key;
        assert edges[k] == e;
      }
    }
    forall i, j | 0 <= i < j < |edges| ensures edges[i] != edges[j] {
      assert edges[i].links[0] in edges[i].links && edges[j].links[0] in edges[j].links;
    }
  }

  // ----- all edges

  ghost predicate Grouped(groups: seq<LinkGroup>, link: Id) {
    exists g :: g in groups && link in g.linkIds
  }

  ghost predicate UniqueLinks(links: set<Link>) {
    forall l, m | l in links && m in links && l.id == m.id :: l == m
  }

  ghost function LinkTable(links: set<Link>): map<Id, Link>
    requires UniqueLinks(links)
  {
    map l | l in links :: l.id := l
  }

  /** A group is looked at when one of its links is met. */
  ghost predicate Met(links: set<Link>, g: LinkGroup) { exists l :: l in links && l.id in g.linkIds }

  /** One edge for each eligible link outside the groups. */
  ghost function LoneEdges(w: Wiring, groups: seq<LinkGroup>, met: set<Link>): set<Edge> {
    set l | l in met && !Grouped(groups, l.id) && Eligible(w, l) :: LinkEdge(w, l)
  }

  /** The edges of each group met. */
  ghost function BundledEdges(w: Wiring, table: map<Id, Link>, groups: seq<LinkGroup>, met: set<Link>): set<Edge> {
    set g, e | g in groups && Met(met, g) && e in GroupEdges(w, table, g) :: e
  }

  /** The edges contributed by the links met so far. */
  ghost function EdgesFrom(w: Wiring, table: map<Id, Link>, groups: seq<LinkGroup>, met: set<Link>): set<Edge> {
    LoneEdges(w, groups, met) + BundledEdges(w, table, groups, met)
  }

  ghost function AllEdges(w: Wiring, links: set<Link>, groups: seq<LinkGroup>): set<Edge>
    requires UniqueLinks(links)
  {
    EdgesFrom(w, LinkTable(links), groups, links)
  }

  /** newSTPLinkIndex, the links. */
  method LinkIndex(links: seq<Link>) returns (table: map<Id, Link>)
    requires DistinctLinks(links)
    ensures UniqueLinks(Elements(links)) && table == LinkTable(Elements(links))
  {
    table := map[];
    for i := 0 to |links|
      invariant forall id :: id in table <==> exists k | 0 <= k < i :: links[k].id == id
      invariant forall k | 0 <= k < i :: links[k].id in table && table[links[k].id] == links[k]
    {
      table := table[links[i].id := links[i]];
    }
  }

  ghost predicate FindsGroup(groups: seq<LinkGroup>, groupOf: map<Id, LinkGroup>) {
    && (forall id :: id in groupOf <==> Grouped(groups, id))
    && (forall id | id in groupOf :: groupOf[id] in groups && id in groupOf[id].linkIds)
  }

  /** newSTPLinkIndex, the group of each link. */
  method GroupIndex(groups: seq<LinkGroup>) returns (groupOf: map<Id, LinkGroup>)
    ensures FindsGroup(groups, groupOf)
  {
    groupOf := map[];
    for i := 0 to |groups|
      invariant FindsGroup(groups[..i], groupOf)
    {
      var ids := groups[i].linkIds;
      assert forall g :: g in groups[..i + 1] <==> g in groups[..i] || g == groups[i];
      for j := 0 to |ids|
        invariant forall id :: id in groupOf <==> Grouped(groups[..i], id) || id in ids[..j]
        invariant forall id | id in groupOf :: groupOf[id] in groups[..i + 1] && id in groupOf[id].linkIds
      {
        groupOf := groupOf[ids[j] := groups[i]];
      }
      assert ids[..|ids|] == ids;
    }
    assert groups[..|groups|] == groups;
  }

  lemma MetGrow(met: set<Link>, l: Link, groups: seq<LinkGroup>, groupOf: map<Id, LinkGroup>, g: LinkGroup)
    requires DisjointGroups(groups) && FindsGroup(groups, groupOf) && g in groups
    ensures Met(met + {l}, g) <==> Met(met, g) || (l.id in groupOf && g == groupOf[l.id])
  {
    if l.id in groupOf && g == groupOf[l.id] { assert l in met + {l}; }
    if m :| m in met && m.id in g.linkIds { assert m in met + {l}; }
  }

  lemma LoneGrow(w: Wiring, groups: seq<LinkGroup>, met: set<Link>, l: Link)
    ensures LoneEdges(w, groups, met + {l}) ==
            LoneEdges(w, groups, met) + if !Grouped(groups, l.id) && Eligible(w, l) then {LinkEdge(w, l)} else {}
  {
    hide Grouped, Eligible, LinkEdge;
  }

  lemma BundledGrow(w: Wiring, table: map<Id, Link>, groups: seq<LinkGroup>, met: set<Link>, l: Link, groupOf: map<Id,
                    LinkGroup>)
    requires DisjointGroups(groups) && FindsGroup(groups, groupOf)
    ensures BundledEdges(w, table, groups, met + {l}) ==
            BundledEdges(w, table, groups, met) + if l.id in groupOf then GroupEdges(w, table, groupOf[l.id]) else {}
  {
    hide Met, Grouped, GroupEdges, DisjointGroups;
    forall g | g in groups ensures Met(met + {l}, g) <==> Met(met, g) || (l.id in groupOf && g == groupOf[l.id]) {
      MetGrow(met, l, groups, groupOf, g);
    }
  }

  lemma BundledMet(w: Wiring, table: map<Id, Link>, groups: seq<LinkGroup>, met: set<Link>, g: LinkGroup)
    requires g in groups && Met(met, g)
    ensures GroupEdges(w, table, g) <= BundledEdges(w, table, groups, met)
  {
    hide Met, GroupEdges;
  }

  /** Meeting one more link adds its edge, or its group's edges when none of the
      group was met before. */
  lemma EdgesGrow(w: Wiring, table: map<Id, Link>, groups: seq<LinkGroup>, met: set<Link>, l: Link, groupOf: map<Id,
                  LinkGroup>)
    requires DisjointGroups(groups) && FindsGroup(groups, groupOf)
    ensures l.id !in groupOf ==>
      EdgesFrom(w, table, groups, met + {l}) == EdgesFrom(w, table, groups, met) + if Eligible(w, l) then {LinkEdge(w, l)} else {}
    ensures l.id in groupOf && Met(met, groupOf[l.id]) ==>
      EdgesFrom(w, table, groups, met + {l}) == EdgesFrom(w, table, groups, met)
    ensures l.id in groupOf && !Met(met, groupOf[l.id]) ==>
      EdgesFrom(w, table, groups, met + {l}) == EdgesFrom(w, table, groups, met) + GroupEdges(w, table, groupOf[l.id])
    ensures forall g | g in groups :: Met(met + {l}, g) <==> Met(met, g) || (l.id in groupOf && g == groupOf[l.id])
  {
    hide Met, Grouped, GroupEdges, DisjointGroups, LoneEdges, BundledEdges, Eligible, LinkEdge;
    forall g | g in groups ensures Met(met + {l}, g) <==> Met(met, g) || (l.id in groupOf && g == groupOf[l.id]) {
      MetGrow(met, l, groups, groupOf, g);
    }
    LoneGrow(w, groups, met, l);
    BundledGrow(w, table, groups, met, l, groupOf);
    if l.id in groupOf && Met(met, groupOf[l.id]) { BundledMet(w, table, groups, met, groupOf[l.id]); }
  }

  ghost predicate SameIdSameEdge(edges: set<Edge>) {
    forall a, b | a in edges && b in edges && a.id == b.id :: a == b
  }

  predicate EdgeLess(a: Edge, b: Edge) { Less(a.id, b.id) }

  lemma EdgeOrder(edges: set<Edge>)
    requires SameIdSameEdge(edges)
    ensures StrictOrder(EdgeLess) && Comparable(EdgeLess, edges)
  {
    LessIsStrictTotal();
  }

  /** The edges of one VLAN, by identifier. */
  ghost function SortedEdges(w: Wiring, links: set<Link>, groups: seq<LinkGroup>): (r: seq<Edge>)
    requires UniqueLinks(links) && SameIdSameEdge(AllEdges(w, links, groups))
    ensures Ascending(EdgeLess, r) && Elements(r) == AllEdges(w, links, groups)
  {
    EdgeOrder(AllEdges(w, links, groups));
    SortedSet(EdgeLess, AllEdges(w, links, groups))
  }

  /** The edges listed once the links of met have been met: each comes from one
      of them or from a group processed since. */
  ghost predicate Collected(w: Wiring, table: map<Id, Link>, groups: seq<LinkGroup>, met: seq<Link>, edges: seq<Edge>,
                            processed: set<Id>) {
    && Elements(edges) == EdgesFrom(w, table, groups, Elements(met))
    && Distinct(edges) && Traced(edges, met, processed)
    && forall g | g in groups :: g.id in processed <==> Met(Elements(met), g)
  }

  ghost predicate Traced(edges: seq<Edge>, met: seq<Link>, processed: set<Id>) {
    forall e | e in edges ::
      if e.groupId == "" then |e.links| == 1 && e.links[0] in met else e.groupId in processed
  }

  lemma ElementsPush<T>(s: seq<T>, x: T)
    ensures Elements(s + [x]) == Elements(s) + {x}
  {
  }

  lemma DistinctJoin<T>(a: seq<T>, b: seq<T>)
    requires Distinct(a) && Distinct(b) && forall x | x in a :: x !in b
    ensures Distinct(a + b) && Elements(a + b) == Elements(a) + Elements(b)
  {
    var r := a + b;
    assert forall i | 0 <= i < |a| :: r[i] in a;
    assert forall i | |a| <= i < |r| :: r[i] in b && r[i] == b[i - |a|];
  }

  lemma CollectLink(w: Wiring, table: map<Id, Link>, groups: seq<LinkGroup>, met: seq<Link>, l: Link,
                    edges: seq<Edge>, processed: set<Id>, groupOf: map<Id, LinkGroup>)
    requires DisjointGroups(groups) && FindsGroup(groups, groupOf)
    requires Collected(w, table, groups, met, edges, processed) && l !in met
    ensures l.id !in groupOf ==>
      Collected(w, table, groups, met + [l], edges + if Eligible(w, l) then [LinkEdge(w, l)] else [], processed)
    ensures l.id in groupOf && groupOf[l.id].id in processed ==>
      Collected(w, table, groups, met + [l], edges, processed)
  {
    hide Eligible, LeftOf, RightOf, EdgesFrom, GroupEdges, Met, DisjointGroups;
    ElementsPush(met, l);
    EdgesGrow(w, table, groups, Elements(met), l, groupOf);
    if l.id !in groupOf && Eligible(w, l) {
      DistinctJoin(edges, [LinkEdge(w, l)]);
      assert Elements([LinkEdge(w, l)]) == {LinkEdge(w, l)};
    }
    assert edges + [] == edges;
  }

  lemma CollectGroup(w: Wiring, table: map<Id, Link>, groups: seq<LinkGroup>, met: seq<Link>, l: Link,
                     edges: seq<Edge>, processed: set<Id>, groupOf: map<Id, LinkGroup>, more: seq<Edge>)
    requires DisjointGroups(groups) && FindsGroup(groups, groupOf) && forall g | g in groups :: g.id != ""
    requires Collected(w, table, groups, met, edges, processed)
    requires l.id in groupOf && groupOf[l.id].id !in processed
    requires Elements(more) == GroupEdges(w, table, groupOf[l.id]) && Distinct(more)
    requires forall e | e in more :: e.groupId == groupOf[l.id].id
    ensures Collected(w, table, groups, met + [l], edges + more, processed + {groupOf[l.id].id})
  {
    hide EdgesFrom, GroupEdges, Met, Eligible, LinkEdge;
    var g := groupOf[l.id];
    ElementsPush(met, l);
    EdgesGrow(w, table, groups, Elements(met), l, groupOf);
    assert forall h | h in groups && h.id == g.id :: h == g;
    DistinctJoin(edges, more);
  }

  /** stpEdges before the final sort. */
  method CollectEdges(links: seq<Link>, groups: seq<LinkGroup>, w: Wiring) returns (edges: seq<Edge>)
    requires DistinctLinks(links) && DisjointGroups(groups) && forall g | g in groups :: g.id != ""
    ensures UniqueLinks(Elements(links)) && Distinct(edges)
    ensures Elements(edges) == AllEdges(w, Elements(links), groups)
  {
    var table := LinkIndex(links);
    var groupOf := GroupIndex(groups);
    edges := [];
    var processed: set<Id> := {};
    NothingCollected(w, table, groups);
    hide Collected, EdgesFrom, DisjointGroups, FindsGroup, GroupEdges, Eligible, LinkEdge;
    for i := 0 to |links|
      invariant Collected(w, table, groups, links[..i], edges, processed)
    {
      var l := links[i];
      assert links[..i + 1] == links[..i] + [l];
      if l.id in groupOf && groupOf[l.id].id !in processed {
        var g := groupOf[l.id];
        var more := BundleGroup(w, table, g);
        CollectGroup(w, table, groups, links[..i], l, edges, processed, groupOf, more);
        edges, processed := edges + more, processed + {g.id};
      } else {
        CollectLink(w, table, groups, links[..i], l, edges, processed, groupOf);
        if l.id !in groupOf && Eligible(w, l) {
          edges := edges + [LinkEdge(w, l)];
        } else {
          assert edges + [] == edges;
        }
      }
    }
    assert links[..|links|] == links;
    AllCollected(w, table, groups, links, edges, processed);
  }

  lemma NothingCollected(w: Wiring, table: map<Id, Link>, groups: seq<LinkGroup>)
    ensures Collected(w, table, groups, [], [], {})
  {
  }

  lemma AllCollected(w: Wiring, table: map<Id, Link>, groups: seq<LinkGroup>, links: seq<Link>, edges: seq<Edge>,
                     processed: set<Id>)
    requires Collected(w, table, groups, links, edges, processed)
    ensures Elements(edges) == EdgesFrom(w, table, groups, Elements(links)) && Distinct(edges)
  {
  }
}
