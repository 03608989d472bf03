/** Which of several equally short ways to the root a bridge takes. */
module StpSearchOrder {
  import opened Text
  import opened Sorting
  import opened BreadthFirst
  import opened SearchOrder
  import opened StpModel
  import opened StpEdges
  import opened StpComponents
  import opened StpTree
  import opened StpSearch
  import opened StpInstance
  import opened StpTheorems

  /** Of the bridges found so far the one at j hangs from the first that it is joined
      to, and by the first of the edges between the two. */
  ghost predicate HangsFirst(edges: set<Edge>, t: Tree, found: seq<Id>, j: nat, i: nat)
    requires i < |found| && j < |found|
  {
    var v, u := found[j], found[i];
    && v in t.parent && t.parent[v] == u && v in t.via
    && (forall h | 0 <= h < i :: !Adjacent(edges, found[h], v))
    && forall f | f in edges && Between(f, u, v) :: f.id == t.via[v] || Less(t.via[v], f.id)
  }

  lemma ArcAmong(edges: set<Edge>, f: Edge, u: Id, v: Id) returns (k: nat)
    requires f in edges && Between(f, u, v) && f.left != f.right
    ensures k < |Out(GraphOf(edges), u)| && Out(GraphOf(edges), u)[k] == Arc(v, f.id)
  {
    hide GraphOf;
    ArcIsEdge(edges, u, Arc(v, f.id));
    k :| k < |Out(GraphOf(edges), u)| && Out(GraphOf(edges), u)[k] == Arc(v, f.id);
  }

  lemma ArcsAscend(edges: set<Edge>, u: Id, j: nat, k: nat)
    requires j < k < |Out(GraphOf(edges), u)|
    ensures ArcLess(Out(GraphOf(edges), u)[j], Out(GraphOf(edges), u)[k])
  {
    hide ArcsAt, ArcLess;
  }

  lemma FirstArcIsFirst(edges: set<Edge>, s: Search<Id>, found: seq<Id>, spots: seq<Spot>, j: nat)
    requires Ordered(GraphOf(edges), s, found, spots, Spot(|found|, 0)) && 1 <= j < |found|
    requires forall e | e in edges :: e.left != e.right
    ensures spots[j].node < j && HangsFirst(edges, Tree(s.dist, s.parent, s.tag), found, j, spots[j].node)
  {
    hide GraphOf, ArcLess;
    var g, a := GraphOf(edges), spots[j];
    var v, u := found[j], found[a.node];
    assert FoundBy(g, s, found, Spot(|found|, 0), j, a);
    forall h: nat, f | h < |found| && f in edges && Between(f, found[h], v) ensures h >= a.node {
      var k := ArcAmong(edges, f, found[h], v);
      assert IsSpot(g, found, Spot(h, k)) && ArcAt(g, found, Spot(h, k)).to == v;
    }
    forall f | f in edges && Between(f, u, v) ensures f.id == s.tag[v] || Less(s.tag[v], f.id) {
      var k := ArcAmong(edges, f, u, v);
      assert IsSpot(g, found, Spot(a.node, k)) && !Earlier(Spot(a.node, k), a);
      LaterTag(edges, u, a.arc, k);
    }
  }

  lemma LaterTag(edges: set<Edge>, u: Id, j: nat, k: nat)
    requires j <= k < |Out(GraphOf(edges), u)| && Out(GraphOf(edges), u)[j].to == Out(GraphOf(edges), u)[k].to
    ensures Out(GraphOf(edges), u)[j].tag == Out(GraphOf(edges), u)[k].tag
      || Less(Out(GraphOf(edges), u)[j].tag, Out(GraphOf(edges), u)[k].tag)
  {
    hide GraphOf, Less;
    if j < k {
      ArcsAscend(edges, u, j, k);
      LessIrreflexive(Out(GraphOf(edges), u)[j].to);
    }
  }

  lemma OtherTag(edges: set<Edge>, u: Id, j: nat, k: nat)
    requires j < k < |Out(GraphOf(edges), u)| && Out(GraphOf(edges), u)[j].to != Out(GraphOf(edges), u)[k].to
    requires SameIdSameEdge(edges)
    ensures Less(Out(GraphOf(edges), u)[j].tag, Out(GraphOf(edges), u)[k].tag)
  {
    hide GraphOf, Less, Out;
    var a, b := Out(GraphOf(edges), u)[j], Out(GraphOf(edges), u)[k];
    ArcsAscend(edges, u, j, k);
    ArcIsEdge(edges, u, a);
    ArcIsEdge(edges, u, b);
    assert a.tag != b.tag;
  }

  /** Bridges hang in the order in which they are found. */
  ghost predicate InSearchOrder(edges: set<Edge>, t: Tree, found: seq<Id>) {
    && (forall j | 1 <= j < |found| :: HasFirst(edges, t, found, j))
    && forall j, k, i, h | 1 <= j < k < |found| && 0 <= i < j && 0 <= h < k
         && HangsFirst(edges, t, found, j, i) && HangsFirst(edges, t, found, k, h) :: HangsBefore(t, found, j, k, i, h)
  }

  ghost predicate HasFirst(edges: set<Edge>, t: Tree, found: seq<Id>, j: nat)
    requires j < |found|
  {
    exists i | 0 <= i < j :: HangsFirst(edges, t, found, j, i)
  }

  predicate HangsBefore(t: Tree, found: seq<Id>, j: nat, k: nat, i: nat, h: nat)
    requires j < |found| && k < |found|
  {
    i < h || (i == h && found[j] in t.via && found[k] in t.via && Less(t.via[found[j]], t.via[found[k]]))
  }

  lemma OrderOfTwo(edges: set<Edge>, s: Search<Id>, found: seq<Id>, spots: seq<Spot>, j: nat, k: nat)
    requires Ordered(GraphOf(edges), s, found, spots, Spot(|found|, 0)) && 1 <= j < k < |found| && SameIdSameEdge(edges)
    ensures found[j] in s.tag && found[k] in s.tag
    ensures spots[j].node < spots[k].node || (spots[j].node == spots[k].node && Less(s.tag[found[j]], s.tag[found[k]]))
  {
    hide GraphOf, Less, FirstTo, SameIdSameEdge;
    var g, a, b := GraphOf(edges), spots[j], spots[k];
    assert FoundBy(g, s, found, Spot(|found|, 0), j, a) && FoundBy(g, s, found, Spot(|found|, 0), k, b);
    assert Earlier(a, b);
    SpotLeads(g, found, a, found[j]);
    SpotLeads(g, found, b, found[k]);
    if a.node == b.node { OtherTag(edges, found[a.node], a.arc, b.arc); }
  }

  lemma SpotLeads<L>(g: Graph<L>, found: seq<Id>, a: Spot, v: Id)
    requires FirstTo(g, found, a, v)
    ensures IsSpot(g, found, a) && ArcAt(g, found, a).to == v
  {
  }

  lemma OneParent(edges: set<Edge>, t: Tree, found: seq<Id>, j: nat, i: nat, h: nat)
    requires Distinct(found) && j < |found| && i < |found| && h < |found|
    requires HangsFirst(edges, t, found, j, i) && HangsFirst(edges, t, found, j, h)
    ensures i == h
  {
    assert found[i] == found[h];
  }

  lemma SpotsInOrder(edges: set<Edge>, s: Search<Id>, found: seq<Id>, spots: seq<Spot>)
    requires Ordered(GraphOf(edges), s, found, spots, Spot(|found|, 0)) && Distinct(found) && |spots| == |found|
    requires SameIdSameEdge(edges) && forall e | e in edges :: e.left != e.right
    ensures InSearchOrder(edges, Tree(s.dist, s.parent, s.tag), found)
  {
    hide GraphOf, HangsFirst, Ordered, SameIdSameEdge;
    var t := Tree(s.dist, s.parent, s.tag);
    forall j | 1 <= j < |found| ensures HasFirst(edges, t, found, j) { FirstArcIsFirst(edges, s, found, spots, j); }
    forall j, k, i, h | 1 <= j < k < |found| && 0 <= i < j && 0 <= h < k
        && HangsFirst(edges, t, found, j, i) && HangsFirst(edges, t, found, k, h)
      ensures HangsBefore(t, found, j, k, i, h)
    {
      FirstArcIsFirst(edges, s, found, spots, j);
      FirstArcIsFirst(edges, s, found, spots, k);
      OneParent(edges, t, found, j, i, spots[j].node);
      OneParent(edges, t, found, k, h, spots[k].node);
      OrderOfTwo(edges, s, found, spots, j, k);
    }
  }

  /** The search finds the bridges in an order in which each hangs from the first it
      is joined to, by the least edge between them, and those that hang earlier, or
      from the same bridge by a lesser edge, come earlier: so that priorities,
      identifiers and edges decide the whole tree. */
  lemma TreeInSearchOrder(x: Setting) returns (found: seq<Id>)
    requires Ready(x)
    ensures Distinct(found) && Elements(found) == Ends(Elements(x.edges)) && found != [] && found[0] == RootOf(x)
    ensures InSearchOrder(Elements(x.edges), TreeFor(x), found)
  {
    hide Ready, GraphOf, Run, InSearchOrder, Ordered, RootOf, SameIdSameEdge;
    var edges, root := Elements(x.edges), RootOf(x);
    var spots: seq<Spot>;
    found, spots := SearchFindsInOrder(GraphOf(edges), root);
    var s := Run(GraphOf(edges), Start(root));
    EdgesPlain(x);
    OrderedParts(GraphOf(edges), s, found, spots);
    FoundAll(x, s, found);
    SpotsInOrder(edges, s, found, spots);
  }

  lemma EdgesPlain(x: Setting)
    requires Ready(x)
    ensures SameIdSameEdge(Elements(x.edges)) && forall e | e in Elements(x.edges) :: e.left != e.right
    ensures TreeFor(x) == Converged(Elements(x.edges), RootOf(x))
  {
    hide LinksApart, Registered, RootOf;
    forall e | e in Elements(x.edges) ensures e.left != e.right { LessIrreflexive(e.left); }
  }

  lemma OrderedParts<L>(g: Graph<L>, s: Search<L>, found: seq<Id>, spots: seq<Spot>)
    requires Ordered(g, s, found, spots, Spot(|found|, 0))
    ensures Distinct(found) && |spots| == |found| && forall v :: v in found <==> v in s.dist
  {
  }

  lemma FoundAll(x: Setting, s: Search<Id>, found: seq<Id>)
    requires Ready(x) && TreeFor(x).dist == s.dist && forall v :: v in found <==> v in s.dist
    ensures Elements(found) == Ends(Elements(x.edges))
  {
    hide Ready, Converged, RootOf;
    assert TreeFor(x).dist.Keys == Ends(Elements(x.edges));
  }
}
