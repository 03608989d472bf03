/** Election and convergence in one domain: the least bridge is the root, and a
    breadth-first search from it, trying edges in the order of their
    identifiers, gives every bridge its distance, parent and parent edge. */
module StpSearch {
  import opened Text
  import opened Sorting
  import opened BreadthFirst
  import opened StpModel
  import opened StpEdges
  import opened StpComponents
  import opened StpTree

  predicate ArcLess(a: Arc<Id>, b: Arc<Id>) { Less(a.tag, b.tag) || (a.tag == b.tag && Less(a.to, b.to)) }

  lemma ArcOrder(arcs: set<Arc<Id>>)
    ensures StrictOrder(ArcLess) && Comparable(ArcLess, arcs)
  {
    LessIsStrictTotal();
  }

  function Other(e: Edge, v: Id): Id { if e.left == v then e.right else e.left }

  ghost function ArcsAt(edges: set<Edge>, v: Id): set<Arc<Id>> {
    set e | e in edges && Touches(e, v) :: Arc(Other(e, v), e.id)
  }

  ghost function SortedArcs(arcs: set<Arc<Id>>): (r: seq<Arc<Id>>)
    ensures Elements(r) == arcs && Ascending(ArcLess, r)
  {
    ArcOrder(arcs);
    SortedSet(ArcLess, arcs)
  }

  /** The edges as arcs both ways, at each bridge by edge identifier. */
  ghost function GraphOf(edges: set<Edge>): Graph<Id> {
    map v | v in Ends(edges) :: SortedArcs(ArcsAt(edges, v))
  }

  ghost predicate ArcLists(edges: seq<Edge>, adjacency: map<Id, seq<Arc<Id>>>) {
    && adjacency.Keys == Ends(Elements(edges))
    && forall v | v in adjacency :: Distinct(adjacency[v]) && Elements(adjacency[v]) == ArcsAt(Elements(edges), v)
  }

  ghost function WithArcs(adjacency: map<Id, seq<Arc<Id>>>, e: Edge): map<Id, seq<Arc<Id>>> {
    adjacency[e.left := (if e.left in adjacency then adjacency[e.left] else []) + [Arc(e.right, e.id)]]
             [e.right := (if e.right in adjacency then adjacency[e.right] else []) + [Arc(e.left, e.id)]]
  }

  lemma ArcsGrow(edges: seq<Edge>, e: Edge, v: Id)
    ensures ArcsAt(Elements(edges + [e]), v) ==
              ArcsAt(Elements(edges), v) + if Touches(e, v) then {Arc(Other(e, v), e.id)} else {}
  {
    assert Elements(edges + [e]) == Elements(edges) + {e};
  }

  lemma NoArcs(edges: set<Edge>, v: Id)
    requires v !in Ends(edges)
    ensures ArcsAt(edges, v) == {}
  {
  }

  lemma ArcIds(edges: seq<Edge>, v: Id, e: Edge)
    requires forall f | f in edges :: f.id != e.id
    ensures forall a | a in ArcsAt(Elements(edges), v) :: a.tag != e.id
  {
  }

  lemma ListArcsAt(edges: seq<Edge>, adjacency: map<Id, seq<Arc<Id>>>, e: Edge, v: Id)
    requires ArcLists(edges, adjacency) && e.left != e.right && v in WithArcs(adjacency, e)
    requires forall f | f in edges :: f.id != e.id
    ensures var r := WithArcs(adjacency, e)[v];
            Distinct(r) && Elements(r) == ArcsAt(Elements(edges + [e]), v)
  {
    ArcsGrow(edges, e, v);
    ArcIds(edges, v, e);
    NewArc(edges, adjacency, e, v);
  }

  lemma NewArc(edges: seq<Edge>, adjacency: map<Id, seq<Arc<Id>>>, e: Edge, v: Id)
    requires ArcLists(edges, adjacency) && e.left != e.right && v in WithArcs(adjacency, e)
    requires forall a | a in ArcsAt(Elements(edges), v) :: a.tag != e.id
    ensures var r := WithArcs(adjacency, e)[v];
            && Distinct(r)
            && Elements(r) == ArcsAt(Elements(edges), v) + if Touches(e, v) then {Arc(Other(e, v), e.id)} else {}
  {
    hide ArcsAt, Ends;
    var a := Arc(Other(e, v), e.id);
    var listed := if v in adjacency then adjacency[v] else [];
    if v !in adjacency { NoArcs(Elements(edges), v); }
    var r := WithArcs(adjacency, e)[v];
    assert forall b | b in listed :: b in Elements(listed) && b != a;
    if Touches(e, v) {
      assert r == listed + [a];
      assert Elements(listed + [a]) == Elements(listed) + {a};
    }
  }

  lemma ListArcs(edges: seq<Edge>, adjacency: map<Id, seq<Arc<Id>>>, e: Edge)
    requires ArcLists(edges, adjacency) && e.left != e.right && forall f | f in edges :: f.id != e.id
    ensures ArcLists(edges + [e], WithArcs(adjacency, e))
  {
    hide ArcsAt, Ends;
    EndsGrow(edges, e);
    forall v | v in WithArcs(adjacency, e) ensures
        Distinct(WithArcs(adjacency, e)[v]) && Elements(WithArcs(adjacency, e)[v]) == ArcsAt(Elements(edges + [e]), v) {
      ListArcsAt(edges, adjacency, e, v);
    }
  }

  lemma NoArcLists()
    ensures ArcLists([], map[])
  {
    assert Ends(Elements<Edge>([])) == {};
  }

  /** simulateSTPComponent, the adjacency lists before they are sorted. */
  method ListNeighbors(edges: seq<Edge>) returns (adjacency: map<Id, seq<Arc<Id>>>)
    requires Ascending(EdgeLess, edges) && forall e | e in edges :: e.left != e.right
    ensures ArcLists(edges, adjacency)
  {
    hide ArcLists;
    NoArcLists();
    adjacency := map[];
    for i := 0 to |edges|
      invariant ArcLists(edges[..i], adjacency)
    {
      var e := edges[i];
      assert edges[..i + 1] == edges[..i] + [e];
      EarlierIds(edges, i);
      ListArcs(edges[..i], adjacency, e);
      adjacency := adjacency[e.left := (if e.left in adjacency then adjacency[e.left] else []) + [Arc(e.right, e.id)]];
      adjacency := adjacency[e.right := (if e.right in adjacency then adjacency[e.right] else []) + [Arc(e.left, e.id)]];
    }
    assert edges[..|edges|] == edges;
  }

  lemma EarlierIds(edges: seq<Edge>, i: nat)
    requires Ascending(EdgeLess, edges) && i < |edges|
    ensures forall f | f in edges[..i] :: f.id != edges[i].id
  {
    LessIsStrictTotal();
  }

  lemma ListedAt(edges: seq<Edge>, adjacency: map<Id, seq<Arc<Id>>>, v: Id)
    requires ArcLists(edges, adjacency) && v in adjacency
    ensures Distinct(adjacency[v]) && Elements(adjacency[v]) == ArcsAt(Elements(edges), v)
  {
  }

  method SortArcs(arcs: seq<Arc<Id>>) returns (r: seq<Arc<Id>>)
    requires Distinct(arcs)
    ensures r == SortedArcs(Elements(arcs))
  {
    ArcOrder(Elements(arcs));
    r := Sort(arcs, ArcLess);
    AscendingUnique(ArcLess, r, SortedArcs(Elements(arcs)));
  }

  /** The adjacency lists, each sorted by edge. */
  method SortNeighbors(edges: seq<Edge>) returns (adjacency: map<Id, seq<Arc<Id>>>)
    requires Ascending(EdgeLess, edges) && forall e | e in edges :: e.left != e.right
    ensures adjacency == GraphOf(Elements(edges))
  {
    hide ArcLists, ArcsAt, Ends, Ascending, SortedArcs, GraphOf;
    var listed := ListNeighbors(edges);
    var ids := Listing(listed.Keys);
    adjacency := map[];
    for i := 0 to |ids|
      invariant adjacency.Keys == Elements(ids[..i])
      invariant forall v | v in adjacency :: adjacency[v] == SortedArcs(ArcsAt(Elements(edges), v))
    {
      assert ids[i] in Elements(ids);
      assert ids[..i + 1] == ids[..i] + [ids[i]];
      ListedAt(edges, listed, ids[i]);
      var sorted := SortArcs(listed[ids[i]]);
      adjacency := adjacency[ids[i] := sorted];
    }
    assert ids[..|ids|] == ids;
    GraphSorted(edges, listed, adjacency);
  }

  lemma GraphSorted(edges: seq<Edge>, listed: map<Id, seq<Arc<Id>>>, adjacency: map<Id, seq<Arc<Id>>>)
    requires ArcLists(edges, listed) && adjacency.Keys == listed.Keys
    requires forall v | v in adjacency :: adjacency[v] == SortedArcs(ArcsAt(Elements(edges), v))
    ensures adjacency == GraphOf(Elements(edges))
  {
    hide ArcsAt, Ends, SortedArcs;
  }

  // ----- the election

  ghost predicate Registered(bridges: map<Id, Bridge>, ids: set<Id>) {
    ids <= bridges.Keys && forall id | id in bridges :: bridges[id].id == id
  }

  /** The election order on identifiers. */
  function RankLess(bridges: map<Id, Bridge>): (Id, Id) -> bool {
    (a: Id, b: Id) => a in bridges && b in bridges && BridgeLess(bridges[a], bridges[b])
  }

  lemma RankOrder(bridges: map<Id, Bridge>, ids: set<Id>)
    requires Registered(bridges, ids)
    ensures StrictOrder(RankLess(bridges)) && Comparable(RankLess(bridges), ids)
  {
    LessIsStrictTotal();
    var lt := RankLess(bridges);
    assert forall a, b :: lt(a, b) <==> a in bridges && b in bridges && BridgeLess(bridges[a], bridges[b]);
    assert StrictOrder(lt) && Comparable(lt, ids);
  }

  ghost function Ranked(bridges: map<Id, Bridge>, ids: set<Id>): (r: seq<Id>)
    requires Registered(bridges, ids)
    ensures Elements(r) == ids && Ascending(RankLess(bridges), r) && |r| == |ids|
  {
    RankOrder(bridges, ids);
    SortedSet(RankLess(bridges), ids)
  }

  /** The root is the bridge of the domain with the lowest priority and, among
      those, the lowest identifier. */
  ghost predicate IsElected(bridges: map<Id, Bridge>, ids: set<Id>, root: Id)
    requires Registered(bridges, ids)
  {
    root in ids && forall v | v in ids :: v == root || BridgeLess(bridges[root], bridges[v])
  }

  lemma FirstIsElected(bridges: map<Id, Bridge>, ids: set<Id>)
    requires Registered(bridges, ids) && ids != {}
    ensures Ranked(bridges, ids) != [] && IsElected(bridges, ids, Ranked(bridges, ids)[0])
  {
    var r := Ranked(bridges, ids);
    assert forall v | v in ids :: v in Elements(r);
    assert r[0] in Elements(r);
    forall v | v in ids ensures v == r[0] || RankLess(bridges)(r[0], v) {
      assert v in Elements(r);
    }
  }

  method RankBridges(bridges: map<Id, Bridge>, ids: set<Id>) returns (r: seq<Id>)
    requires Registered(bridges, ids)
    ensures r == Ranked(bridges, ids)
  {
    RankOrder(bridges, ids);
    var listed := Listing(ids);
    r := Sort(listed, RankLess(bridges));
    AscendingUnique(RankLess(bridges), r, Ranked(bridges, ids));
  }

  // ----- convergence

  ghost function Converged(edges: set<Edge>, root: Id): Tree {
    var s := Run(GraphOf(edges), Start(root));
    Tree(s.dist, s.parent, s.tag)
  }

  /** The inner loop: the neighbours of one bridge. */
  method FollowNeighbors(neighbors: seq<Arc<Id>>, current: Id, queue: seq<Id>, distance: map<Id, nat>,
                         parentBridge: map<Id, Id>, parentEdge: map<Id, Id>)
    returns (queue': seq<Id>, distance': map<Id, nat>, parentBridge': map<Id, Id>, parentEdge': map<Id, Id>)
    requires current in distance
    ensures Search(queue', distance', parentBridge', parentEdge') ==
              Scan(Search(queue, distance, parentBridge, parentEdge), current, neighbors, |neighbors|)
  {
    queue', distance', parentBridge', parentEdge' := queue, distance, parentBridge, parentEdge;
    for i := 0 to |neighbors|
      invariant Search(queue', distance', parentBridge', parentEdge') ==
                  Scan(Search(queue, distance, parentBridge, parentEdge), current, neighbors, i)
    {
      var neighbor := neighbors[i];
      if neighbor.to !in distance' {
        distance' := distance'[neighbor.to := distance'[current] + 1];
        parentBridge' := parentBridge'[neighbor.to := current];
        parentEdge' := parentEdge'[neighbor.to := neighbor.tag];
        queue' := queue' + [neighbor.to];
      }
    }
  }

  /** The search of simulateSTPComponent. */
  method Converge(adjacency: map<Id, seq<Arc<Id>>>, root: Id)
    returns (distance: map<Id, nat>, parentBridge: map<Id, Id>, parentEdge: map<Id, Id>)
    ensures Search([], distance, parentBridge, parentEdge) == Run(adjacency, Start(root))
  {
    hide Targets;
    distance, parentBridge, parentEdge := map[root := 0], map[], map[];
    var queue := [root];
    while queue != []
      invariant Queued(Search(queue, distance, parentBridge, parentEdge))
      invariant Run(adjacency, Search(queue, distance, parentBridge, parentEdge)) == Run(adjacency, Start(root))
      decreases |Targets(adjacency) - distance.Keys|, |queue|
    {
      ghost var before := Search(queue, distance, parentBridge, parentEdge);
      ExpandProgress(adjacency, before);
      var current := queue[0];
      var neighbors := if current in adjacency then adjacency[current] else [];
      queue, distance, parentBridge, parentEdge :=
        FollowNeighbors(neighbors, current, queue[1..], distance, parentBridge, parentEdge);
      assert Search(queue, distance, parentBridge, parentEdge) == Expand(adjacency, before);
    }
  }

  /** n is the least number of edges on a path from u to v. */
  ghost predicate HopDistance(edges: set<Edge>, u: Id, v: Id, n: nat) {
    && (exists vs :: PathBetween(edges, u, v, vs) && |vs| == n + 1)
    && forall vs | PathBetween(edges, u, v, vs) :: n + 1 <= |vs|
  }

  lemma ArcIsEdge(edges: set<Edge>, u: Id, a: Arc<Id>)
    ensures a in Out(GraphOf(edges), u) <==> exists e :: e in edges && e.id == a.tag && Between(e, u, a.to) && Touches(e, u) && Other(e, u) == a.to
  {
    var g := GraphOf(edges);
    if u in Ends(edges) {
      assert a in Out(g, u) <==> a in Elements(SortedArcs(ArcsAt(edges, u)));
    } else {
      NoArcs(edges, u);
    }
  }

  lemma ArcsAreAdjacency(edges: set<Edge>, u: Id, v: Id)
    requires forall e | e in edges :: e.left != e.right
    ensures HasArc(GraphOf(edges), u, v) <==> Adjacent(edges, u, v)
  {
    hide GraphOf, SortedArcs, ArcsAt, Ends;
    var out := Out(GraphOf(edges), u);
    if HasArc(GraphOf(edges), u, v) {
      var i :| 0 <= i < |out| && out[i].to == v;
      ArcIsEdge(edges, u, out[i]);
    }
    if Adjacent(edges, u, v) {
      var e :| e in edges && Between(e, u, v);
      ArcIsEdge(edges, u, Arc(v, e.id));
      var i :| 0 <= i < |out| && out[i] == Arc(v, e.id);
    }
  }

  lemma WalkIsPath(edges: set<Edge>, vs: seq<Id>)
    requires forall e | e in edges :: e.left != e.right
    ensures Walk(GraphOf(edges), vs) <==> Path(edges, vs)
  {
    if vs != [] {
      forall i | 0 <= i < |vs| - 1 ensures HasArc(GraphOf(edges), vs[i], vs[i + 1]) <==> Adjacent(edges, vs[i], vs[i + 1]) {
        ArcsAreAdjacency(edges, vs[i], vs[i + 1]);
      }
    }
  }

  lemma ConvergedHangs(edges: set<Edge>, root: Id, v: Id)
    requires Rooted(GraphOf(edges), root, Run(GraphOf(edges), Start(root))) && v in Converged(edges, root).parent
    ensures v in Ends(edges) && HangsBy(edges, Converged(edges, root), v)
  {
    hide GraphOf, SortedArcs, ArcsAt, Run, Out;
    var g := GraphOf(edges);
    var s := Run(g, Start(root));
    assert Hangs(g, s, v);
    ArcIsEdge(edges, s.parent[v], Arc(v, s.tag[v]));
  }

  /** The search reaches the whole domain and its distances are the least
      numbers of hops from the root. */
  lemma ConvergedTree(edges: set<Edge>, bridges: map<Id, Bridge>, root: Id)
    requires Domain(edges, bridges) && root in Ends(edges)
    ensures TreeOf(edges, root, Converged(edges, root))
    ensures forall v | v in Ends(edges) ::
      v in Converged(edges, root).dist && HopDistance(edges, root, v, Converged(edges, root).dist[v])
  {
    hide GraphOf, Ends, HopDistance, Connected, Walk, Distance, HangsBy, SameIdSameEdge;
    var g := GraphOf(edges);
    var s := Run(g, Start(root));
    var t := Converged(edges, root);
    SearchFindsDistances(g, root);
    forall e | e in edges ensures e.left != e.right { LessIrreflexive(e.left); }
    forall v | v in Ends(edges) ensures v in t.dist && HopDistance(edges, root, v, t.dist[v]) {
      DistanceIsHops(edges, root, s, v);
    }
    forall v | v in t.parent ensures HangsBy(edges, t, v) && v in Ends(edges) {
      ConvergedHangs(edges, root, v);
    }
    KeysAreEnds(edges, root, s);
  }

  lemma KeysAreEnds(edges: set<Edge>, root: Id, s: Search<Id>)
    requires root in Ends(edges) && Rooted(GraphOf(edges), root, s)
    requires forall v | v in s.parent :: v in Ends(edges)
    requires forall v | v in Ends(edges) :: v in s.dist
    ensures s.dist.Keys == Ends(edges)
  {
  }

  lemma DistanceIsHops(edges: set<Edge>, root: Id, s: Search<Id>, v: Id)
    requires forall e | e in edges :: e.left != e.right
    requires Connected(edges, root, v)
    requires forall v | v in s.dist :: Distance(GraphOf(edges), root, v, s.dist[v])
    requires forall vs: seq<Id> | Walk(GraphOf(edges), vs) && vs[0] == root :: vs[|vs| - 1] in s.dist
    ensures v in s.dist && HopDistance(edges, root, v, s.dist[v])
  {
    hide GraphOf, Path;
    var g := GraphOf(edges);
    var us :| PathBetween(edges, root, v, us);
    WalkIsPath(edges, us);
    assert Distance(g, root, v, s.dist[v]);
    var ws :| Walk(g, ws) && ws[0] == root && ws[|ws| - 1] == v && |ws| == s.dist[v] + 1;
    WalkIsPath(edges, ws);
    assert PathBetween(edges, root, v, ws);
    forall vs | PathBetween(edges, root, v, vs) ensures s.dist[v] + 1 <= |vs| {
      WalkIsPath(edges, vs);
    }
  }
}
