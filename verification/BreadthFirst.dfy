/** Breadth-first search over tagged arcs, as the repository writes it in
    several places: a queue, a map of distances that doubles as the set of
    visited nodes, and for each node the parent and the arc it was found by. */
module BreadthFirst {
  import opened Text
  import opened Sorting

  datatype Arc<L> = Arc(to: Id, tag: L)

  type Graph<L> = map<Id, seq<Arc<L>>>

  /** The arcs that leave v: a missing key is an empty list. */
  ghost function Out<L>(g: Graph<L>, v: Id): seq<Arc<L>> { if v in g then g[v] else [] }

  datatype Search<L> = Search(queue: seq<Id>, dist: map<Id, nat>, parent: map<Id, Id>, tag: map<Id, L>)

  ghost function Start<L>(root: Id): Search<L> { Search([root], map[root := 0], map[], map[]) }

  /** Following one arc from an expanded node. */
  ghost function Discover<L>(s: Search<L>, from: Id, a: Arc<L>): (r: Search<L>)
    requires from in s.dist
  {
    if a.to in s.dist then s else
      Search(s.queue + [a.to], s.dist[a.to := s.dist[from] + 1], s.parent[a.to := from], s.tag[a.to := a.tag])
  }

  /** Following the first n arcs of a list. */
  ghost function Scan<L>(s: Search<L>, from: Id, arcs: seq<Arc<L>>, n: nat): (r: Search<L>)
    requires from in s.dist && n <= |arcs|
    ensures s.dist.Keys <= r.dist.Keys && s.queue <= r.queue
    ensures forall q | q in r.queue :: q in s.queue || q in r.dist
    ensures forall v | v in r.dist :: v in s.dist || exists i | 0 <= i < n :: arcs[i].to == v
    ensures r.dist.Keys == s.dist.Keys ==> r.queue == s.queue
  {
    if n == 0 then s else
      var before := Scan(s, from, arcs, n - 1);
      Discover(before, from, arcs[n - 1])
  }

  ghost predicate Queued<L>(s: Search<L>) { forall q | q in s.queue :: q in s.dist }

  /** Taking the head of the queue and following all its arcs. */
  ghost function Expand<L>(g: Graph<L>, s: Search<L>): (r: Search<L>)
    requires Queued(s) && s.queue != []
    ensures Queued(r)
  {
    Scan(s.(queue := s.queue[1..]), s.queue[0], Out(g, s.queue[0]), |Out(g, s.queue[0])|)
  }

  ghost function Targets<L>(g: Graph<L>): set<Id> {
    set v, i | v in g && 0 <= i < |g[v]| :: g[v][i].to
  }

  lemma ExpandProgress<L>(g: Graph<L>, s: Search<L>)
    requires Queued(s) && s.queue != []
    ensures var r := Expand(g, s);
            var before, after := Targets(g) - s.dist.Keys, Targets(g) - r.dist.Keys;
            |after| < |before| || (|after| == |before| && |r.queue| < |s.queue|)
  {
    var r := Expand(g, s);
    var before, after := Targets(g) - s.dist.Keys, Targets(g) - r.dist.Keys;
    assert after <= before;
    if r.dist.Keys != s.dist.Keys {
      var v :| v in r.dist && v !in s.dist;
      var c := s.queue[0];
      var i :| 0 <= i < |Out(g, c)| && Out(g, c)[i].to == v;
      assert c in g && g[c][i].to == v;
      assert v in before && v !in after;
      SubsetSize(after, before);
    }
  }

  /** The whole search. */
  ghost function Run<L>(g: Graph<L>, s: Search<L>): (r: Search<L>)
    requires Queued(s)
    decreases |Targets(g) - s.dist.Keys|, |s.queue|
  {
    if s.queue == [] then s else
      ExpandProgress(g, s);
      Run(g, Expand(g, s))
  }

  // ----- what every step keeps

  /** Every node but the root hangs from a parent one step nearer the root, by
      an arc of the graph. */
  ghost predicate Rooted<L>(g: Graph<L>, root: Id, s: Search<L>) {
    && root in s.dist && s.dist[root] == 0
    && s.parent.Keys == s.dist.Keys - {root} && s.tag.Keys == s.parent.Keys
    && forall v | v in s.parent :: Hangs(g, s, v)
  }

  ghost predicate Hangs<L>(g: Graph<L>, s: Search<L>, v: Id)
    requires v in s.parent
  {
    var u := s.parent[v];
    v in s.dist && v in s.tag && u in s.dist && s.dist[v] == s.dist[u] + 1 && Arc(v, s.tag[v]) in Out(g, u)
  }

  /** A node's arcs lead to visited nodes at most one step further. */
  ghost predicate Settled<L>(g: Graph<L>, s: Search<L>, v: Id, n: nat)
    requires v in s.dist && n <= |Out(g, v)|
  {
    forall i | 0 <= i < n :: Out(g, v)[i].to in s.dist && s.dist[Out(g, v)[i].to] <= s.dist[v] + 1
  }

  /** The queue holds distinct nodes in order of distance, all at distance d or
      d + 1, and no node is further than d + 1. */
  ghost predicate Front<L>(s: Search<L>, d: nat) {
    && Queued(s) && Distinct(s.queue)
    && (forall v | v in s.dist :: s.dist[v] <= d + 1)
    && (forall i | 0 <= i < |s.queue| :: d <= s.dist[s.queue[i]])
    && (forall i, j | 0 <= i < j < |s.queue| :: s.dist[s.queue[i]] <= s.dist[s.queue[j]])
  }

  /** Between two expansions. */
  ghost predicate Inv<L>(g: Graph<L>, root: Id, s: Search<L>) {
    && Rooted(g, root, s) && Queued(s)
    && (s.queue != [] ==> Front(s, s.dist[s.queue[0]]))
    && forall v | v in s.dist && v !in s.queue :: Settled(g, s, v, |Out(g, v)|)
  }

  /** While c, just taken from the queue, has had its first n arcs followed. */
  ghost predicate Mid<L>(g: Graph<L>, root: Id, s: Search<L>, c: Id, n: nat) {
    && Rooted(g, root, s) && c in s.dist && c !in s.queue && n <= |Out(g, c)|
    && Front(s, s.dist[c])
    && Settled(g, s, c, n)
    && forall v | v in s.dist && v !in s.queue && v != c :: Settled(g, s, v, |Out(g, v)|)
  }

  lemma StartInv<L>(g: Graph<L>, root: Id)
    ensures Inv(g, root, Start<L>(root))
  {
  }

  lemma TakeMid<L>(g: Graph<L>, root: Id, s: Search<L>)
    requires Inv(g, root, s) && s.queue != []
    ensures Mid(g, root, s.(queue := s.queue[1..]), s.queue[0], 0)
  {
    hide Front, Out, Rooted, Settled;
    TakeFront(s);
    TakeRooted(g, root, s);
    var t := s.(queue := s.queue[1..]);
    forall v | v in t.dist ensures Settled(g, t, v, 0) && (Settled(g, t, v, |Out(g, v)|) <==> Settled(g, s, v, |Out(g, v)|)) {
      TakeSettled(g, s, v);
    }
  }

  lemma TakeRooted<L>(g: Graph<L>, root: Id, s: Search<L>)
    requires Rooted(g, root, s) && s.queue != []
    ensures Rooted(g, root, s.(queue := s.queue[1..]))
  {
    forall v | v in s.parent ensures Hangs(g, s.(queue := s.queue[1..]), v) { assert Hangs(g, s, v); }
  }

  lemma TakeSettled<L>(g: Graph<L>, s: Search<L>, v: Id)
    requires v in s.dist && s.queue != []
    ensures var t := s.(queue := s.queue[1..]);
            Settled(g, t, v, 0) && (Settled(g, t, v, |Out(g, v)|) <==> Settled(g, s, v, |Out(g, v)|))
  {
  }

  lemma TakeFront<L>(s: Search<L>)
    requires Queued(s) && s.queue != [] && Front(s, s.dist[s.queue[0]])
    ensures s.queue[0] !in s.queue[1..] && forall v :: v in s.queue[1..] <==> v in s.queue && v != s.queue[0]
    ensures Front(s.(queue := s.queue[1..]), s.dist[s.queue[0]])
  {
    var rest := s.queue[1..];
    assert forall i | 0 <= i < |rest| :: rest[i] == s.queue[i + 1];
    assert forall v | v in s.queue && v != s.queue[0] :: v in rest;
  }

  lemma DiscoverRooted<L>(g: Graph<L>, root: Id, s: Search<L>, c: Id, a: Arc<L>)
    requires Rooted(g, root, s) && c in s.dist && a in Out(g, c)
    ensures Rooted(g, root, Discover(s, c, a))
  {
    var t := Discover(s, c, a);
    forall v | v in t.parent ensures Hangs(g, t, v) {
      if a.to in s.dist || v != a.to { assert Hangs(g, s, v); }
    }
  }

  lemma DiscoverFront<L>(s: Search<L>, c: Id, a: Arc<L>)
    requires c in s.dist && Front(s, s.dist[c])
    ensures Front(Discover(s, c, a), s.dist[c])
    ensures forall q :: q in Discover(s, c, a).queue <==> q in s.queue || (q == a.to && a.to !in s.dist)
  {
    var t := Discover(s, c, a);
    if a.to !in s.dist {
      assert t.queue == s.queue + [a.to];
      assert forall i | 0 <= i < |s.queue| :: t.queue[i] == s.queue[i] && s.queue[i] in s.queue && t.queue[i] != a.to;
    }
  }

  lemma DiscoverMid<L>(g: Graph<L>, root: Id, s: Search<L>, c: Id, n: nat)
    requires Mid(g, root, s, c, n) && n < |Out(g, c)|
    ensures Mid(g, root, Discover(s, c, Out(g, c)[n]), c, n + 1)
  {
    var a := Out(g, c)[n];
    var t := Discover(s, c, a);
    DiscoverRooted(g, root, s, c, a);
    DiscoverFront(s, c, a);
    assert forall v | v in s.dist :: v in t.dist && t.dist[v] == s.dist[v];
    assert Settled(g, t, c, n + 1);
    forall v | v in t.dist && v !in t.queue && v != c ensures Settled(g, t, v, |Out(g, v)|) {
      assert Settled(g, s, v, |Out(g, v)|);
    }
  }

  lemma LastMid<L>(g: Graph<L>, root: Id, s: Search<L>, c: Id)
    requires Mid(g, root, s, c, |Out(g, c)|)
    ensures Inv(g, root, s)
  {
  }

  lemma MidKnows<L>(g: Graph<L>, root: Id, s: Search<L>, c: Id)
    requires Mid(g, root, s, c, 0)
    ensures c in s.dist
  {
  }

  lemma ScanStep<L>(s: Search<L>, c: Id, arcs: seq<Arc<L>>, n: nat)
    requires c in s.dist && n <= |arcs|
    ensures Scan(s, c, arcs, 0) == s
    ensures n > 0 ==> Scan(s, c, arcs, n) == Discover(Scan(s, c, arcs, n - 1), c, arcs[n - 1])
  {
    hide Discover;
  }

  lemma {:induction false} ScanMid<L>(g: Graph<L>, root: Id, s: Search<L>, c: Id, n: nat)
    requires Mid(g, root, s, c, 0) && n <= |Out(g, c)|
    ensures Mid(g, root, Scan(s, c, Out(g, c), n), c, n)
  {
    hide Mid, Scan, Discover, Out;
    MidKnows(g, root, s, c);
    ScanStep(s, c, Out(g, c), n);
    if n > 0 {
      ScanMid(g, root, s, c, n - 1);
      DiscoverMid(g, root, Scan(s, c, Out(g, c), n - 1), c, n - 1);
    }
  }

  lemma {:induction false} RunInv<L>(g: Graph<L>, root: Id, s: Search<L>)
    requires Inv(g, root, s)
    ensures Inv(g, root, Run(g, s)) && Run(g, s).queue == []
    decreases |Targets(g) - s.dist.Keys|, |s.queue|
  {
    if s.queue != [] {
      var c := s.queue[0];
      TakeMid(g, root, s);
      ScanMid(g, root, s.(queue := s.queue[1..]), c, |Out(g, c)|);
      LastMid(g, root, Expand(g, s), c);
      ExpandProgress(g, s);
      RunInv(g, root, Expand(g, s));
    }
  }

  // ----- distances

  ghost predicate HasArc<L>(g: Graph<L>, u: Id, v: Id) {
    exists i | 0 <= i < |Out(g, u)| :: Out(g, u)[i].to == v
  }

  /** Nodes joined one to the next by arcs. Its length in arcs is |vs| - 1. */
  ghost predicate Walk<L>(g: Graph<L>, vs: seq<Id>) {
    vs != [] && forall i | 0 <= i < |vs| - 1 :: HasArc(g, vs[i], vs[i + 1])
  }

  /** n is the length of a shortest walk from u to v. */
  ghost predicate Distance<L>(g: Graph<L>, u: Id, v: Id, n: nat) {
    && (exists vs: seq<Id> :: Walk(g, vs) && vs[0] == u && vs[|vs| - 1] == v && |vs| == n + 1)
    && forall vs: seq<Id> | Walk(g, vs) && vs[0] == u && vs[|vs| - 1] == v :: n + 1 <= |vs|
  }

  /** The node, its parent, its parent's parent, up to the root. */
  ghost function Ancestors<L>(g: Graph<L>, root: Id, s: Search<L>, v: Id): (vs: seq<Id>)
    requires Rooted(g, root, s) && v in s.dist
    ensures |vs| == s.dist[v] + 1 && vs[0] == v && vs[|vs| - 1] == root
    ensures forall u | u in vs :: u in s.dist
    decreases s.dist[v]
  {
    if v == root then [v] else
      assert Hangs(g, s, v);
      [v] + Ancestors(g, root, s, s.parent[v])
  }

  /** A walk no longer than the node being expanded is far ends at a visited
      node no further than the walk is long. */
  lemma {:induction false} WalkVisited<L>(g: Graph<L>, root: Id, s: Search<L>, c: Id, n: nat, vs: seq<Id>)
    requires Mid(g, root, s, c, n)
    requires Walk(g, vs) && vs[0] == root && |vs| - 1 <= s.dist[c]
    ensures vs[|vs| - 1] in s.dist && s.dist[vs[|vs| - 1]] <= |vs| - 1
    decreases |vs|
  {
    if |vs| > 1 {
      var u := vs[|vs| - 2];
      WalkVisited(g, root, s, c, n, vs[..|vs| - 1]);
      assert Settled(g, s, u, |Out(g, u)|);
      assert HasArc(g, vs[|vs| - 2], vs[|vs| - 2 + 1]);
    }
  }

  /** After the search every walk from the root ends at a visited node. */
  lemma {:induction false} WalkFinished<L>(g: Graph<L>, root: Id, s: Search<L>, vs: seq<Id>)
    requires Inv(g, root, s) && s.queue == []
    requires Walk(g, vs) && vs[0] == root
    ensures vs[|vs| - 1] in s.dist && s.dist[vs[|vs| - 1]] <= |vs| - 1
    decreases |vs|
  {
    if |vs| > 1 {
      var u := vs[|vs| - 2];
      WalkFinished(g, root, s, vs[..|vs| - 1]);
      assert Settled(g, s, u, |Out(g, u)|);
      assert HasArc(g, vs[|vs| - 2], vs[|vs| - 2 + 1]);
    }
  }

  /** The walk from the root down to a visited node. */
  lemma {:induction false} WalkTo<L>(g: Graph<L>, root: Id, s: Search<L>, v: Id) returns (vs: seq<Id>)
    requires Rooted(g, root, s) && v in s.dist
    ensures Walk(g, vs) && vs[0] == root && vs[|vs| - 1] == v && |vs| == s.dist[v] + 1
    ensures forall u | u in vs :: u in s.dist
    decreases s.dist[v]
  {
    if v == root {
      vs := [root];
    } else {
      assert Hangs(g, s, v);
      var u := s.parent[v];
      var us := WalkTo(g, root, s, u);
      var i :| 0 <= i < |Out(g, u)| && Out(g, u)[i] == Arc(v, s.tag[v]);
      assert HasArc(g, u, v);
      vs := us + [v];
      assert vs[|vs| - 2] == u;
      forall i | 0 <= i < |vs| - 1 ensures HasArc(g, vs[i], vs[i + 1]) {
        if i < |us| - 1 { assert HasArc(g, us[i], us[i + 1]); }
      }
    }
  }

  /** The search computes shortest distances, to exactly the nodes a walk from
      the root reaches. */
  lemma SearchFindsDistances<L>(g: Graph<L>, root: Id)
    ensures var s := Run(g, Start<L>(root));
            && Inv(g, root, s) && s.queue == []
            && (forall v | v in s.dist :: Distance(g, root, v, s.dist[v]))
            && (forall vs: seq<Id> | Walk(g, vs) && vs[0] == root :: vs[|vs| - 1] in s.dist)
  {
    StartInv(g, root);
    RunInv(g, root, Start<L>(root));
    var s := Run(g, Start<L>(root));
    forall v | v in s.dist ensures Distance(g, root, v, s.dist[v]) {
      var ws := WalkTo(g, root, s, v);
      forall vs: seq<Id> | Walk(g, vs) && vs[0] == root && vs[|vs| - 1] == v ensures s.dist[v] + 1 <= |vs| {
        WalkFinished(g, root, s, vs);
      }
    }
    forall vs: seq<Id> | Walk(g, vs) && vs[0] == root ensures vs[|vs| - 1] in s.dist {
      WalkFinished(g, root, s, vs);
    }
  }
}
