/** Convergence paths, materialized while a budget of identifiers lasts. */
module StpPaths {
  import opened Outcomes
  import opened Text
  import opened Sorting
  import opened Topology
  import opened StpModel
  import opened StpEdges
  import opened StpComponents
  import opened StpTree

  /** From a bridge to the root: the bridges passed, and the physical links of
      the edges in between. */
  datatype PathRecord = PathRecord(bridgeId: Id, bridgeIds: seq<Id>, linkIds: seq<Id>)

  /** Everything about one domain once its tree has converged. */
  ghost predicate Grown(edges: set<Edge>, root: Id, t: Tree) {
    SameIdSameEdge(edges) && TreeOf(edges, root, t)
  }

  ghost function PathBridges(edges: set<Edge>, root: Id, t: Tree, v: Id): (r: seq<Id>)
    requires Grown(edges, root, t) && v in t.dist
    ensures |r| == t.dist[v] + 1 && r[0] == v && r[|r| - 1] == root
    decreases t.dist[v]
  {
    if v == root then [v] else
      assert HangsBy(edges, t, v);
      [v] + PathBridges(edges, root, t, t.parent[v])
  }

  ghost function EdgeTable(edges: set<Edge>): map<Id, Edge>
    requires SameIdSameEdge(edges)
  {
    map e | e in edges :: e.id := e
  }

  function LinkIds(links: seq<Link>): seq<Id> {
    if links == [] then [] else LinkIds(links[..|links| - 1]) + [links[|links| - 1].id]
  }

  /** The edge a bridge hangs by. */
  ghost function UpEdge(edges: set<Edge>, root: Id, t: Tree, v: Id): (e: Edge)
    requires Grown(edges, root, t) && v in t.parent
    ensures e in edges && e.id == t.via[v] && Between(e, v, t.parent[v])
  {
    assert HangsBy(edges, t, v);
    EdgeTable(edges)[t.via[v]]
  }

  ghost function PathLinks(edges: set<Edge>, root: Id, t: Tree, v: Id): (r: seq<Id>)
    requires Grown(edges, root, t) && v in t.dist
    decreases t.dist[v]
  {
    if v == root then [] else
      assert HangsBy(edges, t, v);
      LinkIds(UpEdge(edges, root, t, v).links) + PathLinks(edges, root, t, t.parent[v])
  }

  ghost function FullPath(edges: set<Edge>, root: Id, t: Tree, v: Id): PathRecord
    requires Grown(edges, root, t) && v in t.dist
  {
    PathRecord(v, PathBridges(edges, root, t, v), PathLinks(edges, root, t, v))
  }

  function Entries(p: PathRecord): nat { |p.bridgeIds| + |p.linkIds| }

  /** A path is emitted when the budget covers every identifier in it, and only
      then; a path that is given up uses up what was left. */
  ghost function ChargedPath(edges: set<Edge>, root: Id, t: Tree, v: Id, budget: nat): (Option<PathRecord>, nat)
    requires Grown(edges, root, t) && v in t.dist
  {
    var p := FullPath(edges, root, t, v);
    if Entries(p) <= budget then (Some(p), budget - Entries(p)) else (None, 0)
  }

  /** The bridges of a path are joined one to the next by tree edges. */
  lemma {:induction false} PathFollowsTree(edges: set<Edge>, root: Id, t: Tree, v: Id)
    requires Grown(edges, root, t) && v in t.dist
    ensures PathBetween(TreeEdges(edges, t), v, root, PathBridges(edges, root, t, v))
    decreases t.dist[v]
  {
    hide TreeEdges, TreeOf, HangsBy, SameIdSameEdge;
    if v != root {
      UpHangs(edges, root, t, v);
      var u := t.parent[v];
      PathFollowsTree(edges, root, t, u);
      var e := ParentEdge(edges, root, t, v);
      var r, us := PathBridges(edges, root, t, v), PathBridges(edges, root, t, u);
      assert r == [v] + us;
      forall i | 0 <= i < |r| - 1 ensures Adjacent(TreeEdges(edges, t), r[i], r[i + 1]) {
        if i > 0 { assert Adjacent(TreeEdges(edges, t), us[i - 1], us[i - 1 + 1]); }
      }
    }
  }

  /** Charging the links of one edge. */
  method ChargeLinks(links: seq<Link>, linkIds: seq<Id>, budget: nat) returns (linkIds': seq<Id>, budget': nat,
                     complete: bool)
    ensures complete <==> |links| <= budget
    ensures complete ==> linkIds' == linkIds + LinkIds(links) && budget' == budget - |links|
    ensures !complete ==> budget' == 0
  {
    linkIds', budget' := linkIds, budget;
    for i := 0 to |links|
      invariant i <= budget && budget' == budget - i && linkIds' == linkIds + LinkIds(links[..i])
    {
      if budget' <= 0 { return linkIds', budget', false; }
      assert links[..i + 1][..i] == links[..i];
      budget' := budget' - 1;
      linkIds' := linkIds' + [links[i].id];
    }
    assert links[..|links|] == links;
    complete := true;
  }

  lemma LinkIdsLength(links: seq<Link>)
    ensures |LinkIds(links)| == |links|
  {
  }

  /** Climbing from v has passed bridgeIds and linkIds, paid for one by one, and
      stands at the last of them. */
  ghost predicate Climbing(edges: set<Edge>, root: Id, t: Tree, v: Id, current: Id,
                           bridgeIds: seq<Id>, linkIds: seq<Id>, budget: nat, left: nat) {
    && Grown(edges, root, t) && v in t.dist && current in t.dist
    && bridgeIds + PathBridges(edges, root, t, current)[1..] == PathBridges(edges, root, t, v)
    && linkIds + PathLinks(edges, root, t, current) == PathLinks(edges, root, t, v)
    && budget == left + |bridgeIds| + |linkIds|
  }

  lemma StartClimbing(edges: set<Edge>, root: Id, t: Tree, v: Id, budget: nat)
    requires Grown(edges, root, t) && v in t.dist && budget > 0
    ensures Climbing(edges, root, t, v, v, [v], [], budget, budget - 1)
  {
  }

  lemma ClimbStep(edges: set<Edge>, root: Id, t: Tree, v: Id, current: Id, bridgeIds: seq<Id>, linkIds: seq<Id>,
                  budget: nat, left: nat)
    requires Climbing(edges, root, t, v, current, bridgeIds, linkIds, budget, left) && current != root
    ensures current in t.via && t.via[current] in EdgeTable(edges) && current in t.parent
    ensures t.parent[current] in t.dist && t.dist[t.parent[current]] < t.dist[current]
    ensures var links := EdgeTable(edges)[t.via[current]].links;
            if |links| + 1 <= left
            then Climbing(edges, root, t, v, t.parent[current], bridgeIds + [t.parent[current]], linkIds + LinkIds(links),
                          budget, left - |links| - 1)
            else ChargedPath(edges, root, t, v, budget) == (None, 0)
  {
    hide TreeOf, SameIdSameEdge, PathBridges, PathLinks, LinkIds, EdgeTable;
    UpStep(edges, root, t, current);
    var links := EdgeTable(edges)[t.via[current]].links;
    var up := t.parent[current];
    assert bridgeIds + PathBridges(edges, root, t, current)[1..] == (bridgeIds + [up]) + PathBridges(edges, root, t, up)[1..];
    assert linkIds + PathLinks(edges, root, t, current) == (linkIds + LinkIds(links)) + PathLinks(edges, root, t, up);
  }

  lemma ClimbEnd(edges: set<Edge>, root: Id, t: Tree, v: Id, bridgeIds: seq<Id>, linkIds: seq<Id>, budget: nat, left: nat)
    requires Climbing(edges, root, t, v, root, bridgeIds, linkIds, budget, left)
    ensures ChargedPath(edges, root, t, v, budget) == (Some(PathRecord(v, bridgeIds, linkIds)), left)
  {
    assert PathBridges(edges, root, t, root)[1..] == [] && PathLinks(edges, root, t, root) == [];
    assert bridgeIds + [] == bridgeIds && linkIds + [] == linkIds;
  }

  /** buildSTPPath. */
  method BuildPath(ghost edges: set<Edge>, ghost t: Tree, v: Id, root: Id,
                   parentBridge: map<Id, Id>, parentEdge: map<Id, Id>, table: map<Id, Edge>, budget: nat)
    returns (path: Option<PathRecord>, budget': nat)
    requires Grown(edges, root, t) && v in t.dist
    requires parentBridge == t.parent && parentEdge == t.via && table == EdgeTable(edges)
    ensures (path, budget') == ChargedPath(edges, root, t, v, budget)
  {
    hide Climbing, Grown, EdgeTable, PathBridges, PathLinks;
    budget' := budget;
    if budget' <= 0 { return None, budget'; }
    budget' := budget' - 1;
    var bridgeIds, linkIds := [v], [];
    var current := v;
    StartClimbing(edges, root, t, v, budget);
    Parented(edges, root, t, v);
    while current != root && current in parentEdge
      invariant current in t.dist && (current != root ==> current in parentEdge)
      invariant Climbing(edges, root, t, v, current, bridgeIds, linkIds, budget, budget')
      decreases if current in t.dist then t.dist[current] else 0
    {
      ClimbStep(edges, root, t, v, current, bridgeIds, linkIds, budget, budget');
      var complete;
      linkIds, budget', complete := ChargeLinks(table[parentEdge[current]].links, linkIds, budget');
      if !complete || budget' <= 0 { return None, budget'; }
      budget' := budget' - 1;
      current := parentBridge[current];
      bridgeIds := bridgeIds + [current];
      Parented(edges, root, t, current);
    }
    ClimbEnd(edges, root, t, v, bridgeIds, linkIds, budget, budget');
    path := Some(PathRecord(v, bridgeIds, linkIds));
  }

  lemma Parented(edges: set<Edge>, root: Id, t: Tree, v: Id)
    requires Grown(edges, root, t) && v in t.dist
    ensures v != root ==> v in t.via
  {
  }

  /** One step towards the root. */
  lemma UpStep(edges: set<Edge>, root: Id, t: Tree, v: Id)
    requires Grown(edges, root, t) && v in t.dist && v != root
    ensures v in t.via && v in t.parent && t.parent[v] in t.dist && t.dist[t.parent[v]] < t.dist[v]
    ensures t.via[v] in EdgeTable(edges)
    ensures var links := EdgeTable(edges)[t.via[v]].links;
            && |LinkIds(links)| == |links|
            && PathLinks(edges, root, t, v) == LinkIds(links) + PathLinks(edges, root, t, t.parent[v])
            && PathBridges(edges, root, t, v)[1..] == [t.parent[v]] + PathBridges(edges, root, t, t.parent[v])[1..]
  {
    hide TreeOf, SameIdSameEdge, HangsBy, EdgeTable, LinkIds;
    UpHangs(edges, root, t, v);
    LinkIdsLength(EdgeTable(edges)[t.via[v]].links);
    assert PathBridges(edges, root, t, v) == [v] + PathBridges(edges, root, t, t.parent[v]);
  }

  lemma UpHangs(edges: set<Edge>, root: Id, t: Tree, v: Id)
    requires Grown(edges, root, t) && v in t.dist && v != root
    ensures v in t.via && v in t.parent && t.parent[v] in t.dist && t.dist[t.parent[v]] < t.dist[v]
    ensures t.via[v] in EdgeTable(edges) && UpEdge(edges, root, t, v) == EdgeTable(edges)[t.via[v]]
  {
    assert HangsBy(edges, t, v);
  }
}
