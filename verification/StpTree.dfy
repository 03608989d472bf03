/** Roles: what the tree found by the breadth-first search makes of each edge,
    and why the edges left unblocked form a spanning tree. */
module StpTree {
  import opened Text
  import opened Sorting
  import opened StpModel
  import opened StpEdges
  import opened StpComponents

  datatype Role = RootRole | DesignatedRole | BlockedRole

  /** The outcome of the search: distances, and each bridge's parent and the
      identifier of the edge towards it. */
  datatype Tree = Tree(dist: map<Id, nat>, parent: map<Id, Id>, via: map<Id, Id>)

  /** Every bridge of the domain but the root has a parent, one step nearer the
      root and joined to it by the edge recorded. */
  ghost predicate TreeOf(edges: set<Edge>, root: Id, t: Tree) {
    && t.dist.Keys == Ends(edges) && root in t.dist && t.dist[root] == 0
    && t.parent.Keys == t.dist.Keys - {root} && t.via.Keys == t.parent.Keys
    && forall v | v in t.parent :: HangsBy(edges, t, v)
  }

  ghost predicate HangsBy(edges: set<Edge>, t: Tree, v: Id)
    requires v in t.parent
  {
    && v in t.via && v in t.dist && t.parent[v] in t.dist
    && t.dist[v] == t.dist[t.parent[v]] + 1
    && exists e :: e in edges && e.id == t.via[v] && Between(e, v, t.parent[v])
  }

  predicate IsParentEdge(t: Tree, e: Edge, child: Id, parent: Id) {
    child in t.via && t.via[child] == e.id && child in t.parent && t.parent[child] == parent
  }

  /** stpEdgeRoles: the roles of the left and of the right end. */
  function EdgeRoles(e: Edge, t: Tree, bridges: map<Id, Bridge>): (Role, Role)
    requires e.left in t.dist && e.right in t.dist && e.left in bridges && e.right in bridges
  {
    if IsParentEdge(t, e, e.left, e.right) then (RootRole, DesignatedRole)
    else if IsParentEdge(t, e, e.right, e.left) then (DesignatedRole, RootRole)
    else
      var leftWins := if t.dist[e.left] == t.dist[e.right]
        then BridgeLess(bridges[e.left], bridges[e.right]) else t.dist[e.left] < t.dist[e.right];
      if leftWins then (DesignatedRole, BlockedRole) else (BlockedRole, DesignatedRole)
  }

  function RoleAt(e: Edge, t: Tree, bridges: map<Id, Bridge>, v: Id): Role
    requires e.left in t.dist && e.right in t.dist && e.left in bridges && e.right in bridges
  {
    if v == e.right then EdgeRoles(e, t, bridges).1 else EdgeRoles(e, t, bridges).0
  }

  ghost predicate Domain(edges: set<Edge>, bridges: map<Id, Bridge>) {
    && edges != {} && SameIdSameEdge(edges) && Ends(edges) <= bridges.Keys
    && (forall e | e in edges :: Less(e.left, e.right))
    && forall u, v | u in Ends(edges) && v in Ends(edges) :: Connected(edges, u, v)
  }

  ghost function TreeEdges(edges: set<Edge>, t: Tree): set<Edge> {
    set e | e in edges && (IsParentEdge(t, e, e.left, e.right) || IsParentEdge(t, e, e.right, e.left))
  }

  /** The edge towards v's parent. */
  lemma ParentEdge(edges: set<Edge>, root: Id, t: Tree, v: Id) returns (e: Edge)
    requires TreeOf(edges, root, t) && v in t.parent
    ensures e in TreeEdges(edges, t) && e.id == t.via[v] && Between(e, v, t.parent[v])
  {
    assert HangsBy(edges, t, v);
    e :| e in edges && e.id == t.via[v] && Between(e, v, t.parent[v]);
    assert IsParentEdge(t, e, v, t.parent[v]);
  }

  /** An edge recorded for a bridge joins it to its parent. */
  lemma ViaJoins(edges: set<Edge>, root: Id, t: Tree, e: Edge, v: Id)
    requires SameIdSameEdge(edges) && TreeOf(edges, root, t) && e in edges && v in t.via && t.via[v] == e.id
    ensures v in t.parent && Between(e, v, t.parent[v]) && t.parent[v] in t.dist && t.dist[v] == t.dist[t.parent[v]] + 1
    ensures e in TreeEdges(edges, t)
  {
    assert HangsBy(edges, t, v);
    var f := ParentEdge(edges, root, t, v);
    assert f == e;
  }

  /** What the tree says about the two ends of an edge. */
  ghost predicate EndsKnown(root: Id, t: Tree, bridges: map<Id, Bridge>, e: Edge) {
    && e.left != e.right && e.left in t.dist && e.right in t.dist && e.left in bridges && e.right in bridges
    && (e.left in t.via && t.via[e.left] == e.id ==> IsParentEdge(t, e, e.left, e.right) && t.dist[e.left] == t.dist[e.right] + 1)
    && (e.right in t.via && t.via[e.right] == e.id ==> IsParentEdge(t, e, e.right, e.left) && t.dist[e.right] == t.dist[e.left] + 1)
    && root !in t.via && (e.left == root <==> t.dist[e.left] == 0) && (e.right == root <==> t.dist[e.right] == 0)
  }

  lemma TreeKnowsEnds(edges: set<Edge>, root: Id, t: Tree, bridges: map<Id, Bridge>, e: Edge)
    requires Domain(edges, bridges) && TreeOf(edges, root, t) && e in edges
    ensures EndsKnown(root, t, bridges, e)
  {
    LessIrreflexive(e.left);
    if e.left in t.via && t.via[e.left] == e.id { ViaJoins(edges, root, t, e, e.left); }
    if e.right in t.via && t.via[e.right] == e.id { ViaJoins(edges, root, t, e, e.right); }
    RootDistance(edges, root, t, e);
  }

  lemma RolesFromEnds(root: Id, t: Tree, bridges: map<Id, Bridge>, e: Edge, v: Id)
    requires EndsKnown(root, t, bridges, e) && Touches(e, v)
    ensures RoleAt(e, t, bridges, v).RootRole? <==> v in t.via && t.via[v] == e.id
    ensures v == root ==> RoleAt(e, t, bridges, v).DesignatedRole?
  {
    hide BridgeLess;
  }

  /** Every edge has exactly one designated end. The other end is a root port
      when the edge is in the tree and blocked when it is not; root ports are
      the ends of the bridges that hang by the edge, and the root bridge is
      designated everywhere. */
  lemma RolesOfEdge(edges: set<Edge>, root: Id, t: Tree, bridges: map<Id, Bridge>, e: Edge)
    requires Domain(edges, bridges) && TreeOf(edges, root, t) && e in edges
    ensures e.left in t.dist && e.right in t.dist
    ensures var (l, r) := EdgeRoles(e, t, bridges);
            && (l.DesignatedRole? <==> !r.DesignatedRole?)
            && (l.BlockedRole? || r.BlockedRole? <==> e !in TreeEdges(edges, t))
    ensures forall v | Touches(e, v) ::
      && (RoleAt(e, t, bridges, v).RootRole? <==> v in t.via && t.via[v] == e.id)
      && (v == root ==> RoleAt(e, t, bridges, v).DesignatedRole?)
  {
    hide TreeOf, BridgeLess, Ends, RoleAt;
    TreeKnowsEnds(edges, root, t, bridges, e);
    forall v | Touches(e, v) ensures
      && (RoleAt(e, t, bridges, v).RootRole? <==> v in t.via && t.via[v] == e.id)
      && (v == root ==> RoleAt(e, t, bridges, v).DesignatedRole?)
    {
      RolesFromEnds(root, t, bridges, e, v);
    }
  }

  lemma RootDistance(edges: set<Edge>, root: Id, t: Tree, e: Edge)
    requires TreeOf(edges, root, t) && e in edges
    ensures e.left in t.dist && e.right in t.dist
    ensures e.left == root <==> t.dist[e.left] == 0
    ensures e.right == root <==> t.dist[e.right] == 0
  {
    assert e.left in Ends(edges) && e.right in Ends(edges);
    if e.left != root { assert HangsBy(edges, t, e.left); }
    if e.right != root { assert HangsBy(edges, t, e.right); }
  }

  // ----- the tree

  /** A closed walk along distinct bridges and distinct edges. */
  ghost predicate Cycle(edges: set<Edge>, vs: seq<Id>, es: seq<Edge>) {
    && 1 <= |vs| == |es| && Distinct(vs) && Distinct(es)
    && forall i | 0 <= i < |es| :: es[i] in edges && Between(es[i], vs[i], vs[if i + 1 == |vs| then 0 else i + 1])
  }

  /** Connects all bridges without a cycle, with one edge fewer than bridges. */
  ghost predicate SpanningTree(tree: set<Edge>, edges: set<Edge>) {
    && tree <= edges && |tree| + 1 == |Ends(edges)|
    && (forall u, v | u in Ends(edges) && v in Ends(edges) :: Connected(tree, u, v))
    && forall vs, es :: !Cycle(tree, vs, es)
  }

  lemma {:induction false} RootReaches(edges: set<Edge>, root: Id, t: Tree, v: Id)
    requires TreeOf(edges, root, t) && v in t.dist
    ensures Connected(TreeEdges(edges, t), root, v)
    decreases t.dist[v]
  {
    if v == root {
      ConnectedSelf(TreeEdges(edges, t), root);
    } else {
      assert HangsBy(edges, t, v);
      RootReaches(edges, root, t, t.parent[v]);
      var e := ParentEdge(edges, root, t, v);
      assert Between(e, t.parent[v], v);
      ConnectedStep(TreeEdges(edges, t), root, t.parent[v], v);
    }
  }

  lemma TreeEdgesAmong(edges: set<Edge>, t: Tree)
    ensures TreeEdges(edges, t) <= edges
  {
  }

  /** A tree edge hangs one of its ends from the other. */
  lemma ChildOf(edges: set<Edge>, root: Id, t: Tree, e: Edge, u: Id, v: Id)
    requires SameIdSameEdge(edges) && TreeOf(edges, root, t) && e in TreeEdges(edges, t) && Between(e, u, v)
    ensures u in t.dist && v in t.dist
    ensures || (u in t.via && t.via[u] == e.id && t.dist[u] == t.dist[v] + 1)
            || (v in t.via && t.via[v] == e.id && t.dist[v] == t.dist[u] + 1)
  {
    var c := if IsParentEdge(t, e, e.left, e.right) then e.left else e.right;
    assert HangsBy(edges, t, c);
  }

  ghost function Furthest(t: Tree, vs: seq<Id>): (i: nat)
    requires vs != [] && forall v | v in vs :: v in t.dist
    ensures i < |vs| && forall j | 0 <= j < |vs| :: t.dist[vs[j]] <= t.dist[vs[i]]
  {
    if |vs| == 1 then 0 else
      var us := vs[..|vs| - 1];
      var i := Furthest(t, us);
      assert forall j | 0 <= j < |us| :: us[j] == vs[j] && t.dist[us[j]] <= t.dist[us[i]];
      if t.dist[vs[i]] < t.dist[vs[|vs| - 1]] then |vs| - 1 else i
  }

  /** At the furthest bridge of a cycle both cycle edges would be the edge it
      hangs by. */
  lemma NoCycle(edges: set<Edge>, root: Id, t: Tree, vs: seq<Id>, es: seq<Edge>)
    requires SameIdSameEdge(edges) && TreeOf(edges, root, t) && forall e | e in edges :: e.left != e.right
    ensures !Cycle(TreeEdges(edges, t), vs, es)
  {
    hide TreeEdges, TreeOf;
    var tree := TreeEdges(edges, t);
    TreeEdgesAmong(edges, t);
    if Cycle(tree, vs, es) {
      var n := |vs|;
      forall i | 0 <= i < n ensures vs[i] in t.dist {
        ChildOf(edges, root, t, es[i], vs[i], vs[if i + 1 == n then 0 else i + 1]);
      }
      var i := Furthest(t, vs);
      var after, before := if i + 1 == n then 0 else i + 1, if i == 0 then n - 1 else i - 1;
      ChildOf(edges, root, t, es[i], vs[i], vs[after]);
      ChildOf(edges, root, t, es[before], vs[before], vs[i]);
      assert false;
    }
  }

  /** Different bridges hang by different edges. */
  lemma ViaDiffers(edges: set<Edge>, root: Id, t: Tree, u: Id, v: Id, e: Edge)
    requires SameIdSameEdge(edges) && TreeOf(edges, root, t) && e in edges
    requires u in t.via && v in t.via && t.via[u] == e.id && t.via[v] == e.id
    ensures u == v
  {
    ViaJoins(edges, root, t, e, u);
    ViaJoins(edges, root, t, e, v);
  }

  ghost predicate HoldsOne(t: Tree, vs: set<Id>, e: Edge) { exists v :: v in vs && v in t.via && t.via[v] == e.id }

  ghost function EdgesVia(edges: set<Edge>, t: Tree, vs: set<Id>): set<Edge> {
    set e | e in edges && HoldsOne(t, vs, e)
  }

  lemma EdgesViaGrow(edges: set<Edge>, t: Tree, vs: set<Id>, v: Id, e: Edge)
    requires v in t.via && e in edges && t.via[v] == e.id && forall f | f in edges && f.id == e.id :: f == e
    requires forall u | u in vs && u in t.via :: t.via[u] != e.id
    ensures EdgesVia(edges, t, vs + {v}) == EdgesVia(edges, t, vs) + {e} && e !in EdgesVia(edges, t, vs)
  {
    forall f | f in edges ensures HoldsOne(t, vs + {v}, f) <==> HoldsOne(t, vs, f) || f == e {
      if HoldsOne(t, vs, f) {
        var u :| u in vs && u in t.via && t.via[u] == f.id;
        assert u in vs + {v};
      }
      if f == e { assert v in vs + {v}; }
    }
  }

  lemma {:induction false} TreeSize(edges: set<Edge>, root: Id, t: Tree, vs: set<Id>)
    requires SameIdSameEdge(edges) && TreeOf(edges, root, t) && vs <= t.via.Keys
    ensures |EdgesVia(edges, t, vs)| == |vs|
  {
    hide EdgesVia, TreeEdges, SameIdSameEdge, HangsBy;
    if vs == {} {
      NoEdges(edges, t);
    } else {
      var v :| v in vs;
      var rest := vs - {v};
      TreeSize(edges, root, t, rest);
      var e := OneMore(edges, root, t, rest, v);
      assert vs == rest + {v};
    }
  }

  lemma NoEdges(edges: set<Edge>, t: Tree)
    ensures EdgesVia(edges, t, {}) == {}
  {
  }

  lemma OneMore(edges: set<Edge>, root: Id, t: Tree, vs: set<Id>, v: Id) returns (e: Edge)
    requires SameIdSameEdge(edges) && TreeOf(edges, root, t) && v in t.via && v !in vs
    ensures EdgesVia(edges, t, vs + {v}) == EdgesVia(edges, t, vs) + {e} && e !in EdgesVia(edges, t, vs)
  {
    e := ParentEdge(edges, root, t, v);
    forall u | u in vs && u in t.via ensures t.via[u] != e.id {
      if t.via[u] == e.id { ViaDiffers(edges, root, t, u, v, e); }
    }
    EdgesViaGrow(edges, t, vs, v, e);
  }

  lemma TreeEdgesVia(edges: set<Edge>, root: Id, t: Tree)
    requires SameIdSameEdge(edges) && TreeOf(edges, root, t)
    ensures TreeEdges(edges, t) == EdgesVia(edges, t, t.via.Keys)
  {
    forall e | e in edges ensures e in TreeEdges(edges, t) <==> HoldsOne(t, t.via.Keys, e) {
      if HoldsOne(t, t.via.Keys, e) {
        var v :| v in t.via && t.via[v] == e.id;
        ViaJoins(edges, root, t, e, v);
      }
    }
  }

  lemma TreeCount(edges: set<Edge>, root: Id, t: Tree)
    requires SameIdSameEdge(edges) && TreeOf(edges, root, t)
    ensures |TreeEdges(edges, t)| + 1 == |Ends(edges)|
  {
    hide TreeEdges, EdgesVia, Ends, SameIdSameEdge;
    TreeSize(edges, root, t, t.via.Keys);
    TreeEdgesVia(edges, root, t);
    assert t.via.Keys == Ends(edges) - {root} && root in Ends(edges);
  }

  lemma TreeIsSpanning(edges: set<Edge>, root: Id, t: Tree, bridges: map<Id, Bridge>)
    requires Domain(edges, bridges) && TreeOf(edges, root, t)
    ensures SpanningTree(TreeEdges(edges, t), edges)
  {
    var tree := TreeEdges(edges, t);
    TreeCount(edges, root, t);
    forall u, v | u in Ends(edges) && v in Ends(edges) ensures Connected(tree, u, v) {
      RootReaches(edges, root, t, u);
      RootReaches(edges, root, t, v);
      ConnectedBack(tree, root, u);
      ConnectedJoin(tree, u, root, v);
    }
    forall e | e in edges ensures e.left != e.right { LessIrreflexive(e.left); }
    hide Cycle, Connected, Ends;
    forall vs, es ensures !Cycle(tree, vs, es) { NoCycle(edges, root, t, vs, es); }
  }
}
