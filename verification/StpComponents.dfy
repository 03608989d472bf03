/** Switching domains: the edges of a VLAN split by bridge connectivity. */
module StpComponents {
  import opened Text
  import opened Sorting
  import opened StpModel
  import opened StpEdges

  ghost predicate Touches(e: Edge, v: Id) { e.left == v || e.right == v }

  ghost function Ends(edges: set<Edge>): set<Id> {
    (set e | e in edges :: e.left) + (set e | e in edges :: e.right)
  }

  ghost predicate Between(e: Edge, u: Id, v: Id) {
    (e.left == u && e.right == v) || (e.left == v && e.right == u)
  }

  ghost predicate Adjacent(edges: set<Edge>, u: Id, v: Id) {
    exists e :: e in edges && Between(e, u, v)
  }

  /** Bridges joined one to the next by edges. */
  ghost predicate Path(edges: set<Edge>, vs: seq<Id>) {
    vs != [] && forall i | 0 <= i < |vs| - 1 :: Adjacent(edges, vs[i], vs[i + 1])
  }

  ghost predicate PathBetween(edges: set<Edge>, u: Id, v: Id, vs: seq<Id>) {
    Path(edges, vs) && vs[0] == u && vs[|vs| - 1] == v
  }

  ghost predicate Connected(edges: set<Edge>, u: Id, v: Id) {
    exists vs :: PathBetween(edges, u, v, vs)
  }

  lemma ConnectedSelf(edges: set<Edge>, u: Id)
    ensures Connected(edges, u, u)
  {
    assert PathBetween(edges, u, u, [u]);
  }

  lemma ConnectedStep(edges: set<Edge>, u: Id, v: Id, x: Id)
    requires Connected(edges, u, v) && Adjacent(edges, v, x)
    ensures Connected(edges, u, x)
  {
    var vs :| PathBetween(edges, u, v, vs);
    var ws := vs + [x];
    forall i | 0 <= i < |ws| - 1 ensures Adjacent(edges, ws[i], ws[i + 1]) {
      if i < |vs| - 1 { assert Adjacent(edges, vs[i], vs[i + 1]); }
    }
    assert PathBetween(edges, u, x, ws);
  }

  lemma ConnectedBack(edges: set<Edge>, u: Id, v: Id)
    requires Connected(edges, u, v)
    ensures Connected(edges, v, u)
  {
    var vs :| PathBetween(edges, u, v, vs);
    var ws := seq(|vs|, i requires 0 <= i < |vs| => vs[|vs| - 1 - i]);
    forall i | 0 <= i < |ws| - 1 ensures Adjacent(edges, ws[i], ws[i + 1]) {
      assert Adjacent(edges, vs[|vs| - 2 - i], vs[|vs| - 2 - i + 1]);
      var e :| e in edges && Between(e, vs[|vs| - 2 - i], vs[|vs| - 1 - i]);
      assert Between(e, ws[i], ws[i + 1]);
    }
    assert PathBetween(edges, v, u, ws);
  }

  lemma ConnectedJoin(edges: set<Edge>, u: Id, v: Id, x: Id)
    requires Connected(edges, u, v) && Connected(edges, v, x)
    ensures Connected(edges, u, x)
  {
    var vs :| PathBetween(edges, u, v, vs);
    var ws :| PathBetween(edges, v, x, ws);
    var r := vs + ws[1..];
    forall i | 0 <= i < |r| - 1 ensures Adjacent(edges, r[i], r[i + 1]) {
      if i < |vs| - 1 {
        assert Adjacent(edges, vs[i], vs[i + 1]);
      } else {
        assert r[i] == ws[i - (|vs| - 1)];
        assert Adjacent(edges, ws[i - (|vs| - 1)], ws[i - (|vs| - 1) + 1]);
      }
    }
    assert PathBetween(edges, u, x, r);
  }

  /** A set of bridges that no edge leaves holds everything connected to it. */
  lemma {:induction false} ClosedKeepsConnected(edges: set<Edge>, s: set<Id>, vs: seq<Id>)
    requires forall e | e in edges :: e.left in s <==> e.right in s
    requires Path(edges, vs) && vs[0] in s
    ensures vs[|vs| - 1] in s
  {
    if |vs| > 1 {
      assert Adjacent(edges, vs[0], vs[0 + 1]);
      forall i | 0 <= i < |vs[1..]| - 1 ensures Adjacent(edges, vs[1..][i], vs[1..][i + 1]) {
        assert Adjacent(edges, vs[i + 1], vs[i + 1 + 1]);
      }
      ClosedKeepsConnected(edges, s, vs[1..]);
    }
  }

  ghost function Reach(edges: set<Edge>, start: Id): set<Id> {
    set v | v in Ends(edges) && Connected(edges, start, v)
  }

  /** The edges of s whose bridges are in reach, in the order of s. */
  ghost function Within(s: seq<Edge>, reach: set<Id>): (r: seq<Edge>)
    ensures forall e :: e in r <==> e in s && e.left in reach
  {
    if s == [] then [] else
      var last := s[|s| - 1];
      var r := Within(s[..|s| - 1], reach);
      assert forall e :: e in s <==> e in s[..|s| - 1] || e == last;
      r + if last.left in reach then [last] else []
  }

  lemma {:induction false} WithinAscends(s: seq<Edge>, reach: set<Id>)
    requires Ascending(EdgeLess, s)
    ensures Ascending(EdgeLess, Within(s, reach))
  {
    if s != [] {
      WithinAscends(s[..|s| - 1], reach);
      var r := Within(s[..|s| - 1], reach);
      forall i | 0 <= i < |r| ensures EdgeLess(r[i], s[|s| - 1]) {
        assert r[i] in s[..|s| - 1];
      }
    }
  }

  /** The least bridge of a domain stands for it. */
  ghost predicate IsSeed(edges: set<Edge>, v: Id) {
    v in Ends(edges) && forall u | u in Ends(edges) && Connected(edges, v, u) :: v == u || Less(v, u)
  }

  ghost function Seeds(edges: set<Edge>): set<Id> { set v | v in Ends(edges) && IsSeed(edges, v) }

  ghost function SeedOrder(edges: set<Edge>): (r: seq<Id>)
    ensures Elements(r) == Seeds(edges) && Ascending(Less, r)
  {
    LessIsStrictTotal();
    SortedSet(Less, Seeds(edges))
  }

  /** The domains of a VLAN, in the order of their least bridges. */
  ghost function Components(edges: seq<Edge>): (r: seq<seq<Edge>>)
    ensures |r| == |SeedOrder(Elements(edges))|
    ensures forall i | 0 <= i < |r| :: r[i] == Within(edges, Reach(Elements(edges), SeedOrder(Elements(edges))[i]))
  {
    var seeds := SeedOrder(Elements(edges));
    seq(|seeds|, i requires 0 <= i < |seeds| => Within(edges, Reach(Elements(edges), seeds[i])))
  }

  // ----- the search

  ghost predicate Lists(edges: seq<Edge>, adjacency: map<Id, seq<Edge>>) {
    && adjacency.Keys == Ends(Elements(edges))
    && forall v, e | v in adjacency :: e in adjacency[v] <==> e in edges && Touches(e, v)
  }

  ghost function Listed(adjacency: map<Id, seq<Edge>>, e: Edge): map<Id, seq<Edge>> {
    var left := adjacency[e.left := (if e.left in adjacency then adjacency[e.left] else []) + [e]];
    left[e.right := (if e.right in left then left[e.right] else []) + [e]]
  }

  lemma ListedKeys(adjacency: map<Id, seq<Edge>>, e: Edge)
    ensures Listed(adjacency, e).Keys == adjacency.Keys + {e.left, e.right}
  {
  }

  lemma ListEdge(edges: seq<Edge>, adjacency: map<Id, seq<Edge>>, e: Edge)
    requires Lists(edges, adjacency)
    ensures Lists(edges + [e], Listed(adjacency, e))
  {
    hide Ends, Touches, Listed;
    EndsGrow(edges, e);
    ListedKeys(adjacency, e);
    var r := Listed(adjacency, e);
    forall v, x | v in r ensures x in r[v] <==> x in edges + [e] && Touches(x, v) {
      ListEdgeAt(edges, adjacency, e, v, x);
    }
  }

  lemma EndsGrow(edges: seq<Edge>, e: Edge)
    ensures Ends(Elements(edges + [e])) == Ends(Elements(edges)) + {e.left, e.right}
  {
    assert Elements(edges + [e]) == Elements(edges) + {e};
  }

  lemma ListEdgeAt(edges: seq<Edge>, adjacency: map<Id, seq<Edge>>, e: Edge, v: Id, x: Edge)
    requires Lists(edges, adjacency) && v in Listed(adjacency, e)
    ensures x in Listed(adjacency, e)[v] <==> x in edges + [e] && Touches(x, v)
  {
    if v in adjacency {
      assert x in adjacency[v] <==> x in edges && Touches(x, v);
    } else {
      assert x in edges ==> !Touches(x, v);
    }
    hide Ends, Lists;
  }

  method Adjacency(edges: seq<Edge>) returns (adjacency: map<Id, seq<Edge>>)
    ensures Lists(edges, adjacency)
  {
    adjacency := map[];
    assert Ends(Elements<Edge>([])) == {};
    for i := 0 to |edges|
      invariant Lists(edges[..i], adjacency)
    {
      hide Lists;
      var e := edges[i];
      assert edges[..i + 1] == edges[..i] + [e];
      ListEdge(edges[..i], adjacency, e);
      adjacency := adjacency[e.left := (if e.left in adjacency then adjacency[e.left] else []) + [e]];
      adjacency := adjacency[e.right := (if e.right in adjacency then adjacency[e.right] else []) + [e]];
    }
    assert edges[..|edges|] == edges;
  }

  /** No edge leaves s. */
  ghost predicate Closed(edges: set<Edge>, s: set<Id>) {
    forall e | e in edges :: e.left in s <==> e.right in s
  }

  /** While one domain is being searched from start: the bridges found and not
      in the queue have had their edges recorded. */
  ghost predicate Searching(edges: seq<Edge>, before: set<Id>, start: Id, found: set<Id>, queue: seq<Id>,
                            current: set<Id>, byId: map<Id, Edge>) {
    && start in found && found !! before && found <= Ends(Elements(edges))
    && (forall v | v in queue :: v in found)
    && (forall v | v in found :: Connected(Elements(edges), start, v))
    && (forall id | id in byId :: byId[id] in edges && byId[id].id == id && byId[id].left in found && byId[id].right in found)
    && forall v, e | v in found && v !in queue && v !in current && e in edges && Touches(e, v) :: e.id in byId
  }

  lemma OtherEnd(edges: set<Edge>, before: set<Id>, start: Id, v: Id, e: Edge)
    requires Closed(edges, before) && e in edges && Touches(e, v) && v !in before && Connected(edges, start, v)
    ensures var next := if e.left == v then e.right else e.left;
            next !in before && next in Ends(edges) && Connected(edges, start, next)
  {
    var next := if e.left == v then e.right else e.left;
    assert Between(e, v, next);
    ConnectedStep(edges, start, v, next);
  }

  /** One step of the inner loop: the edge is recorded and its other end found. */
  lemma SearchStep(edges: seq<Edge>, before: set<Id>, start: Id, found: set<Id>, queue: seq<Id>, current: Id,
                   byId: map<Id, Edge>, e: Edge)
    requires Ascending(EdgeLess, edges) && Closed(Elements(edges), before) && e in edges && Touches(e, current)
    requires current in found && Searching(edges, before, start, found, queue, {current}, byId)
    ensures var next := if e.left == current then e.right else e.left;
            Searching(edges, before, start, found + {next},
              if next in found then queue else queue + [next], {current}, byId[e.id := e])
  {
    OtherEnd(Elements(edges), before, start, current, e);
    hide Connected, Ends, Ascending;
    var next := if e.left == current then e.right else e.left;
    var queue' := if next in found then queue else queue + [next];
    assert forall v | v in queue :: v in queue';
  }

  lemma Searched(edges: seq<Edge>, before: set<Id>, start: Id, found: set<Id>, byId: map<Id, Edge>)
    requires Closed(Elements(edges), before) && SameIdSameEdge(Elements(edges))
    requires Searching(edges, before, start, found, [], {}, byId)
    ensures found == Reach(Elements(edges), start) && Closed(Elements(edges), before + found)
    ensures forall id | id in byId :: byId[id] in edges
    ensures Elements(Within(edges, found)) == set id | id in byId :: byId[id]
  {
    var all := Elements(edges);
    forall e | e in all && (e.left in found || e.right in found) ensures Recorded(e, found, byId) {
      SearchedEdge(edges, before, start, found, byId, e);
    }
    forall v | v in Reach(all, start) ensures v in found {
      var vs :| PathBetween(all, start, v, vs);
      ClosedKeepsConnected(all, found, vs);
    }
    hide Connected, Ends, Path;
    forall e | e in Within(edges, found) ensures Recorded(e, found, byId) {}
  }

  ghost predicate Recorded(e: Edge, found: set<Id>, byId: map<Id, Edge>) {
    e.left in found && e.right in found && e.id in byId && byId[e.id] == e
  }

  lemma SearchedEdge(edges: seq<Edge>, before: set<Id>, start: Id, found: set<Id>, byId: map<Id, Edge>, e: Edge)
    requires SameIdSameEdge(Elements(edges)) && e in edges && (e.left in found || e.right in found)
    requires Searching(edges, before, start, found, [], {}, byId)
    ensures Recorded(e, found, byId)
  {
    hide Connected, Ends;
    assert Touches(e, if e.left in found then e.left else e.right);
    assert byId[e.id] in Elements(edges) && e in Elements(edges);
  }

  /** The inner loop: the edges at one bridge. */
  method SearchBridge(edges: seq<Edge>, touching: seq<Edge>, ghost before: set<Id>, ghost start: Id, current: Id,
                      visited: set<Id>, queue: seq<Id>, byId: map<Id, Edge>, ghost found: set<Id>)
    returns (visited': set<Id>, queue': seq<Id>, byId': map<Id, Edge>, ghost found': set<Id>)
    requires Ascending(EdgeLess, edges) && Closed(Elements(edges), before) && current in found
    requires forall e | e in touching :: e in edges && Touches(e, current)
    requires visited == before + found && Searching(edges, before, start, found, queue, {current}, byId)
    ensures visited' == before + found' && Searching(edges, before, start, found', queue', {current}, byId')
    ensures forall e | e in touching :: e.id in byId'
    ensures found <= found' && (found' == found ==> queue' == queue)
  {
    visited', queue', byId', found' := visited, queue, byId, found;
    hide Connected, Ends, Searching, Closed, Ascending;
    for i := 0 to |touching|
      invariant visited' == before + found' && current in found'
      invariant Searching(edges, before, start, found', queue', {current}, byId')
      invariant forall k | 0 <= k < i :: touching[k].id in byId'
      invariant found <= found' && (found' == found ==> queue' == queue)
    {
      var e := touching[i];
      assert e in touching;
      SearchStep(edges, before, start, found', queue', current, byId', e);
      SearchStepFresh(edges, before, start, found', queue', current, byId', e);
      byId' := byId'[e.id := e];
      var next := if e.left == current then e.right else e.left;
      if next !in visited' {
        visited', queue', found' := visited' + {next}, queue' + [next], found' + {next};
      } else {
        assert found' + {next} == found';
      }
    }
  }

  lemma SearchStepFresh(edges: seq<Edge>, before: set<Id>, start: Id, found: set<Id>, queue: seq<Id>, current: Id,
                        byId: map<Id, Edge>, e: Edge)
    requires Closed(Elements(edges), before) && e in edges && Touches(e, current)
    requires current in found && Searching(edges, before, start, found, queue, {current}, byId)
    ensures (if e.left == current then e.right else e.left) !in before
  {
    OtherEnd(Elements(edges), before, start, current, e);
  }

  /** Taking a bridge from the queue makes it current; once its edges are
      recorded it is done with. */
  lemma SearchTake(edges: seq<Edge>, before: set<Id>, start: Id, found: set<Id>, queue: seq<Id>, byId: map<Id, Edge>)
    requires Searching(edges, before, start, found, queue, {}, byId) && queue != []
    ensures queue[0] in found && queue[0] in Ends(Elements(edges))
    ensures Searching(edges, before, start, found, queue[1..], {queue[0]}, byId)
  {
    hide Connected, Ends;
    assert forall v | v in queue :: v == queue[0] || v in queue[1..];
  }

  lemma SearchLeave(edges: seq<Edge>, before: set<Id>, start: Id, found: set<Id>, queue: seq<Id>, current: Id,
                    byId: map<Id, Edge>)
    requires Searching(edges, before, start, found, queue, {current}, byId)
    requires forall e | e in edges && Touches(e, current) :: e.id in byId
    ensures Searching(edges, before, start, found, queue, {}, byId)
  {
    hide Connected, Ends;
  }

  lemma SearchProgress(edges: seq<Edge>, before: set<Id>, start: Id, found: set<Id>, queue: seq<Id>, current: set<Id>,
                       byId: map<Id, Edge>, earlier: set<Id>)
    requires Searching(edges, before, start, found, queue, current, byId) && earlier <= found
    ensures |Ends(Elements(edges)) - found| <= |Ends(Elements(edges)) - earlier|
    ensures |Ends(Elements(edges)) - found| == |Ends(Elements(edges)) - earlier| ==> found == earlier
  {
    var all := Ends(Elements(edges));
    SubsetSize(all - found, all - earlier);
    assert all - found == all - earlier ==> found == earlier by {
      if all - found == all - earlier {
        assert forall v | v in found :: v in all && v !in all - found;
      }
    }
  }

  lemma SearchStart(edges: seq<Edge>, before: set<Id>, start: Id)
    requires start in Ends(Elements(edges)) && start !in before
    ensures Searching(edges, before, start, {start}, [start], {}, map[])
  {
    ConnectedSelf(Elements(edges), start);
  }

  /** Everything reachable from start, and the edges there. */
  method SearchDomain(edges: seq<Edge>, adjacency: map<Id, seq<Edge>>, visited: set<Id>, start: Id)
    returns (visited': set<Id>, component: seq<Edge>)
    requires Ascending(EdgeLess, edges) && SameIdSameEdge(Elements(edges)) && Lists(edges, adjacency)
    requires Closed(Elements(edges), visited) && start in Ends(Elements(edges)) && start !in visited
    ensures visited' == visited + Reach(Elements(edges), start) && Closed(Elements(edges), visited')
    ensures component == Within(edges, Reach(Elements(edges), start))
  {
    hide Connected, Ends, Searching, Closed, Ascending, SameIdSameEdge, Within, Reach;
    var queue := [start];
    var byId: map<Id, Edge> := map[];
    visited' := visited + {start};
    ghost var found := {start};
    SearchStart(edges, visited, start);
    while queue != []
      invariant visited' == visited + found
      invariant Searching(edges, visited, start, found, queue, {}, byId)
      decreases |Ends(Elements(edges)) - found|, |queue|
    {
      var current := queue[0];
      ghost var earlier := found;
      SearchTake(edges, visited, start, found, queue, byId);
      queue := queue[1..];
      visited', queue, byId, found := SearchBridge(edges, adjacency[current], visited, start, current, visited', queue, byId, found);
      SearchLeave(edges, visited, start, found, queue, current, byId);
      SearchProgress(edges, visited, start, found, queue, {}, byId, earlier);
    }
    Searched(edges, visited, start, found, byId);
    component := Collect(edges, byId);
    WithinAscends(edges, found);
    LessIsStrictTotal();
    AscendingUnique(EdgeLess, component, Within(edges, found));
  }

  method Collect(ghost edges: seq<Edge>, byId: map<Id, Edge>) returns (component: seq<Edge>)
    requires SameIdSameEdge(Elements(edges)) && forall id | id in byId :: byId[id] in edges
    ensures Ascending(EdgeLess, component) && Elements(component) == set id | id in byId :: byId[id]
  {
    var values := set id | id in byId :: byId[id];
    EdgeOrder(values);
    var listed := Listing(values);
    component := Sort(listed, EdgeLess);
  }

  /** What the outer loop has visited: everything connected to the bridges it
      has passed. Those of them that are seeds gave a domain each. */
  ghost predicate Split(edges: seq<Edge>, passed: seq<Id>, visited: set<Id>, seeds: seq<Id>, components: seq<seq<Edge>>) {
    && Closed(Elements(edges), visited)
    && VisitedFrom(Elements(edges), passed, visited)
    && SeedsAmong(Elements(edges), passed, seeds)
    && DomainsOf(edges, seeds, components)
  }

  ghost predicate VisitedFrom(edges: set<Edge>, passed: seq<Id>, visited: set<Id>) {
    forall v :: v in visited <==> v in Ends(edges) && exists u :: u in passed && Connected(edges, u, v)
  }

  ghost predicate SeedsAmong(edges: set<Edge>, passed: seq<Id>, seeds: seq<Id>) {
    Ascending(Less, seeds) && forall v :: v in seeds <==> v in passed && IsSeed(edges, v)
  }

  ghost predicate DomainsOf(edges: seq<Edge>, seeds: seq<Id>, components: seq<seq<Edge>>) {
    |components| == |seeds| && forall i | 0 <= i < |seeds| :: components[i] == Within(edges, Reach(Elements(edges), seeds[i]))
  }

  lemma NotSeed(edges: set<Edge>, u: Id, v: Id)
    requires Connected(edges, u, v) && u in Ends(edges) && Less(u, v)
    ensures !IsSeed(edges, v)
  {
    hide Connected, Ends;
    ConnectedBack(edges, u, v);
    LessIrreflexive(u);
    if Less(v, u) { LessTransitive(u, v, u); }
  }

  lemma PassVisited(edges: seq<Edge>, ids: seq<Id>, i: nat, visited: set<Id>, seeds: seq<Id>, components: seq<seq<Edge>>)
    requires i < |ids| && Ascending(Less, ids) && Elements(ids) == Ends(Elements(edges))
    requires Split(edges, ids[..i], visited, seeds, components) && ids[i] in visited
    ensures Split(edges, ids[..i + 1], visited, seeds, components)
  {
    hide VisitedFrom, SeedsAmong, DomainsOf, Closed, Ascending, Ends;
    VisitedStays(Elements(edges), ids, i, visited);
    SeedsStay(Elements(edges), ids, i, visited, seeds);
  }

  lemma VisitedStays(edges: set<Edge>, ids: seq<Id>, i: nat, visited: set<Id>)
    requires i < |ids| && VisitedFrom(edges, ids[..i], visited) && ids[i] in visited
    ensures VisitedFrom(edges, ids[..i + 1], visited)
  {
    hide Connected, Ends;
    assert ids[..i + 1] == ids[..i] + [ids[i]];
    var u :| u in ids[..i] && Connected(edges, u, ids[i]);
    forall v | v in Ends(edges) && Connected(edges, ids[i], v) ensures v in visited {
      ConnectedJoin(edges, u, ids[i], v);
    }
  }

  lemma SeedsStay(edges: set<Edge>, ids: seq<Id>, i: nat, visited: set<Id>, seeds: seq<Id>)
    requires i < |ids| && Ascending(Less, ids) && Elements(ids) == Ends(edges)
    requires VisitedFrom(edges, ids[..i], visited) && ids[i] in visited && SeedsAmong(edges, ids[..i], seeds)
    ensures SeedsAmong(edges, ids[..i + 1], seeds)
  {
    hide Connected, IsSeed, Ends;
    assert ids[..i + 1] == ids[..i] + [ids[i]];
    var u :| u in ids[..i] && Connected(edges, u, ids[i]);
    assert u in Elements(ids);
    var k :| 0 <= k < i && ids[k] == u;
    NotSeed(edges, u, ids[i]);
  }

  /** The first unvisited bridge is the least of its domain. */
  lemma FirstIsSeed(edges: seq<Edge>, ids: seq<Id>, i: nat, visited: set<Id>)
    requires i < |ids| && Ascending(Less, ids) && Elements(ids) == Ends(Elements(edges))
    requires ids[i] !in visited
    requires VisitedFrom(Elements(edges), ids[..i], visited)
    ensures IsSeed(Elements(edges), ids[i])
  {
    hide Connected, Ends;
    var all := Elements(edges);
    var start := ids[i];
    assert start in Elements(ids);
    forall u | u in Ends(all) && Connected(all, start, u) ensures start == u || Less(start, u) {
      assert u in Elements(ids);
      var k :| 0 <= k < |ids| && ids[k] == u;
      ConnectedBack(all, start, u);
      assert forall j | 0 <= j < i :: ids[j] in ids[..i] && ids[j] != u;
    }
  }

  lemma SeedsGrow(ids: seq<Id>, i: nat, seeds: seq<Id>, edges: set<Edge>)
    requires i < |ids| && Ascending(Less, ids) && IsSeed(edges, ids[i]) && SeedsAmong(edges, ids[..i], seeds)
    ensures SeedsAmong(edges, ids[..i + 1], seeds + [ids[i]])
  {
    hide IsSeed;
    assert ids[..i + 1] == ids[..i] + [ids[i]];
    forall k | 0 <= k < |seeds| ensures Less(seeds[k], ids[i]) {
      assert seeds[k] in seeds;
      var j :| 0 <= j < i && ids[j] == seeds[k];
    }
  }

  lemma VisitedGrow(edges: set<Edge>, ids: seq<Id>, i: nat, visited: set<Id>)
    requires i < |ids| && VisitedFrom(edges, ids[..i], visited)
    ensures VisitedFrom(edges, ids[..i + 1], visited + Reach(edges, ids[i]))
  {
    hide Connected, Ends;
    assert ids[..i + 1] == ids[..i] + [ids[i]];
    forall v ensures v in visited + Reach(edges, ids[i]) <==>
        v in Ends(edges) && exists u :: u in ids[..i + 1] && Connected(edges, u, v) {
      if v in Reach(edges, ids[i]) { assert ids[i] in ids[..i + 1] && Connected(edges, ids[i], v); }
      if v in visited {
        var u :| u in ids[..i] && Connected(edges, u, v);
        assert u in ids[..i + 1];
      }
    }
  }

  lemma PassSeed(edges: seq<Edge>, ids: seq<Id>, i: nat, visited: set<Id>, seeds: seq<Id>, components: seq<seq<Edge>>)
    requires i < |ids| && Ascending(Less, ids) && Elements(ids) == Ends(Elements(edges))
    requires Split(edges, ids[..i], visited, seeds, components) && ids[i] !in visited
    requires Closed(Elements(edges), visited + Reach(Elements(edges), ids[i]))
    ensures Split(edges, ids[..i + 1], visited + Reach(Elements(edges), ids[i]), seeds + [ids[i]],
              components + [Within(edges, Reach(Elements(edges), ids[i]))])
  {
    hide VisitedFrom, SeedsAmong, Closed, Connected, Ends, IsSeed, Ascending, Within, Reach;
    FirstIsSeed(edges, ids, i, visited);
    SeedsGrow(ids, i, seeds, Elements(edges));
    VisitedGrow(Elements(edges), ids, i, visited);
  }

  lemma SplitNone(edges: seq<Edge>)
    ensures Split(edges, [], {}, [], [])
  {
  }

  lemma SplitAll(edges: seq<Edge>, ids: seq<Id>, visited: set<Id>, seeds: seq<Id>, components: seq<seq<Edge>>)
    requires Elements(ids) == Ends(Elements(edges)) && Split(edges, ids, visited, seeds, components)
    ensures components == Components(edges)
  {
    var all := Elements(edges);
    hide Connected, IsSeed, Ends, Reach, Within, Closed;
    assert forall v :: v in ids <==> v in Elements(ids);
    assert Elements(seeds) == Seeds(all);
    LessIsStrictTotal();
    AscendingUnique(Less, seeds, SeedOrder(all));
  }

  /** stpComponents. */
  method SplitEdges(edges: seq<Edge>) returns (components: seq<seq<Edge>>)
    requires Ascending(EdgeLess, edges) && SameIdSameEdge(Elements(edges))
    ensures components == Components(edges)
  {
    hide Connected, IsSeed, Ends, Reach, Within, SameIdSameEdge, Ascending, Closed, VisitedFrom, SeedsAmong, DomainsOf;
    var adjacency := Adjacency(edges);
    var ids := SortedKeys(adjacency.Keys);
    var visited: set<Id> := {};
    ghost var seeds: seq<Id> := [];
    components := [];
    SplitNone(edges);
    for i := 0 to |ids|
      invariant Split(edges, ids[..i], visited, seeds, components)
    {
      if ids[i] in visited {
        PassVisited(edges, ids, i, visited, seeds, components);
      } else {
        assert ids[i] in Elements(ids);
        var visited', component := SearchDomain(edges, adjacency, visited, ids[i]);
        PassSeed(edges, ids, i, visited, seeds, components);
        visited, components, seeds := visited', components + [component], seeds + [ids[i]];
      }
    }
    assert ids[..|ids|] == ids;
    SplitAll(edges, ids, visited, seeds, components);
  }
}
