/** The order in which the breadth-first search finds nodes, and that it decides
    from which node and by which arc each is found. */
module SearchOrder {
  import opened Text
  import opened Sorting
  import opened BreadthFirst

  /** An arc, by the positions of the node it leaves in the order found and of the
      arc among those of the node. */
  datatype Spot = Spot(node: nat, arc: nat)

  predicate Earlier(a: Spot, b: Spot) { a.node < b.node || (a.node == b.node && a.arc < b.arc) }

  ghost predicate IsSpot<L>(g: Graph<L>, found: seq<Id>, a: Spot) {
    a.node < |found| && a.arc < |Out(g, found[a.node])|
  }

  ghost function ArcAt<L>(g: Graph<L>, found: seq<Id>, a: Spot): Arc<L>
    requires IsSpot(g, found, a)
  {
    Out(g, found[a.node])[a.arc]
  }

  /** The first arc that leads to the node, in the order in which arcs are tried. */
  ghost predicate FirstTo<L>(g: Graph<L>, found: seq<Id>, a: Spot, v: Id) {
    && IsSpot(g, found, a) && ArcAt(g, found, a).to == v
    && forall b | IsSpot(g, found, b) && Earlier(b, a) :: ArcAt(g, found, b).to != v
  }

  /** The node at position j was found by the arc, before the arc next. */
  ghost predicate FoundBy<L>(g: Graph<L>, s: Search<L>, found: seq<Id>, next: Spot, j: nat, a: Spot)
    requires j < |found|
  {
    && FirstTo(g, found, a, found[j]) && Earlier(a, next) && a.node < j
    && found[j] in s.parent && s.parent[found[j]] == found[a.node]
    && found[j] in s.tag && s.tag[found[j]] == ArcAt(g, found, a).tag
  }

  /** found lists the nodes in the order they were found, by the arcs in spots; the
      arcs before next have been tried. */
  ghost predicate Ordered<L>(g: Graph<L>, s: Search<L>, found: seq<Id>, spots: seq<Spot>, next: Spot) {
    && |spots| == |found| > 0 && Distinct(found) && (forall v :: v in found <==> v in s.dist)
    && (forall a | IsSpot(g, found, a) && Earlier(a, next) :: ArcAt(g, found, a).to in s.dist)
    && (forall j | 1 <= j < |found| :: FoundBy(g, s, found, next, j, spots[j]))
    && forall i, j | 1 <= i < j < |found| :: Earlier(spots[i], spots[j])
  }

  lemma StillFound<L>(g: Graph<L>, s: Search<L>, found: seq<Id>, next: Spot, j: nat, a: Spot, s': Search<L>, more: seq<Id>, next': Spot)
    requires j < |found| <= |more| && more[..|found|] == found && FoundBy(g, s, found, next, j, a)
    requires Earlier(next, next') || next == next'
    requires found[j] in s'.parent && s'.parent[found[j]] == s.parent[found[j]]
    requires found[j] in s'.tag && s'.tag[found[j]] == s.tag[found[j]]
    ensures FoundBy(g, s', more, next', j, a)
  {
    assert forall k | 0 <= k < |found| :: more[k] == found[k];
    forall b | IsSpot(g, more, b) && Earlier(b, a) ensures ArcAt(g, more, b).to != found[j] {
      assert IsSpot(g, found, b) && ArcAt(g, found, b) == ArcAt(g, more, b);
    }
  }

  /** One arc of the node at position next.node. */
  lemma ArcFollowed<L>(g: Graph<L>, s: Search<L>, found: seq<Id>, spots: seq<Spot>, next: Spot)
      returns (more: seq<Id>, spots': seq<Spot>)
    requires Ordered(g, s, found, spots, next) && IsSpot(g, found, next) && s.queue == found[next.node + 1..]
    ensures found[next.node] in s.dist && |found| <= |more| && more[..|found|] == found
    ensures var s' := Discover(s, found[next.node], ArcAt(g, found, next));
            && Ordered(g, s', more, spots', Spot(next.node, next.arc + 1)) && s'.queue == more[next.node + 1..]
  {
    var u, a := found[next.node], ArcAt(g, found, next);
    var s', next' := Discover(s, u, a), Spot(next.node, next.arc + 1);
    if a.to in s.dist {
      more, spots' := found, spots;
      SpotsTried(g, s, found, next);
      forall j | 1 <= j < |found| ensures FoundBy(g, s', more, next', j, spots'[j]) {
        StillFound(g, s, found, next, j, spots[j], s', more, next');
      }
    } else {
      more, spots' := found + [a.to], spots + [next];
      NewNode(g, s, found, spots, next);
    }
  }

  lemma SpotsTried<L>(g: Graph<L>, s: Search<L>, found: seq<Id>, next: Spot)
    requires IsSpot(g, found, next) && ArcAt(g, found, next).to in s.dist
    requires forall a | IsSpot(g, found, a) && Earlier(a, next) :: ArcAt(g, found, a).to in s.dist
    ensures forall a | IsSpot(g, found, a) && Earlier(a, Spot(next.node, next.arc + 1)) :: ArcAt(g, found, a).to in s.dist
  {
    hide ArcAt;
    forall a | IsSpot(g, found, a) && Earlier(a, Spot(next.node, next.arc + 1)) ensures ArcAt(g, found, a).to in s.dist {
      assert a == next || Earlier(a, next);
    }
  }

  lemma NewNode<L>(g: Graph<L>, s: Search<L>, found: seq<Id>, spots: seq<Spot>, next: Spot)
    requires Ordered(g, s, found, spots, next) && IsSpot(g, found, next) && ArcAt(g, found, next).to !in s.dist
    ensures var a := ArcAt(g, found, next);
            && found[next.node] in s.dist
            && Ordered(g, Discover(s, found[next.node], a), found + [a.to], spots + [next], Spot(next.node, next.arc + 1))
  {
    var a := ArcAt(g, found, next);
    var s', more, next' := Discover(s, found[next.node], a), found + [a.to], Spot(next.node, next.arc + 1);
    forall b | IsSpot(g, more, b) && Earlier(b, next') ensures ArcAt(g, more, b).to in s'.dist {
      assert IsSpot(g, found, b) && ArcAt(g, found, b) == ArcAt(g, more, b) && (b == next || Earlier(b, next));
    }
    forall j | 1 <= j < |more| ensures FoundBy(g, s', more, next', j, (spots + [next])[j]) {
      if j < |found| {
        assert found[j] in found && found[j] != a.to;
        StillFound(g, s, found, next, j, spots[j], s', more, next');
      } else {
        LastFound(g, s, found, next);
      }
    }
  }

  lemma LastFound<L>(g: Graph<L>, s: Search<L>, found: seq<Id>, next: Spot)
    requires IsSpot(g, found, next) && ArcAt(g, found, next).to !in s.dist && found[next.node] in s.dist
    requires forall b | IsSpot(g, found, b) && Earlier(b, next) :: ArcAt(g, found, b).to in s.dist
    ensures var a := ArcAt(g, found, next);
            FoundBy(g, Discover(s, found[next.node], a), found + [a.to], Spot(next.node, next.arc + 1), |found|, next)
  {
    var a := ArcAt(g, found, next);
    var more := found + [a.to];
    forall b | IsSpot(g, more, b) && Earlier(b, next) ensures ArcAt(g, more, b).to != a.to {
      assert IsSpot(g, found, b) && ArcAt(g, found, b) == ArcAt(g, more, b);
    }
  }

  /** The first n arcs of the node at position m. */
  lemma {:induction false} ArcsFollowed<L>(g: Graph<L>, s: Search<L>, found: seq<Id>, spots: seq<Spot>, m: nat, n: nat)
      returns (more: seq<Id>, spots': seq<Spot>)
    requires Ordered(g, s, found, spots, Spot(m, 0)) && m < |found| && n <= |Out(g, found[m])| && s.queue == found[m + 1..]
    ensures found[m] in s.dist && |found| <= |more| && more[..|found|] == found
    ensures var s' := Scan(s, found[m], Out(g, found[m]), n);
            Ordered(g, s', more, spots', Spot(m, n)) && s'.queue == more[m + 1..]
  {
    hide Ordered, Discover, Out;
    FoundKnown(g, s, found, spots, Spot(m, 0), m);
    if n == 0 {
      more, spots' := found, spots;
    } else {
      var part, partSpots := ArcsFollowed(g, s, found, spots, m, n - 1);
      SamePrefix(found, part, m);
      more, spots' := NextFollowed(g, s, found[m], part, partSpots, m, n);
      PrefixOf(found, part, more);
    }
  }

  lemma NextFollowed<L>(g: Graph<L>, s: Search<L>, u: Id, part: seq<Id>, spots: seq<Spot>, m: nat, n: nat)
      returns (more: seq<Id>, spots': seq<Spot>)
    requires u in s.dist && m < |part| && part[m] == u && 1 <= n <= |Out(g, u)|
    requires var b := Scan(s, u, Out(g, u), n - 1);
      Ordered(g, b, part, spots, Spot(m, n - 1)) && b.queue == part[m + 1..]
    ensures |part| <= |more| && more[..|part|] == part
    ensures var s' := Scan(s, u, Out(g, u), n);
            Ordered(g, s', more, spots', Spot(m, n)) && s'.queue == more[m + 1..]
  {
    hide Ordered, Discover, Out, FoundBy, FirstTo;
    more, spots' := ArcFollowed(g, Scan(s, u, Out(g, u), n - 1), part, spots, Spot(m, n - 1));
  }

  lemma SamePrefix(found: seq<Id>, part: seq<Id>, m: nat)
    requires m < |found| <= |part| && part[..|found|] == found
    ensures part[m] == found[m]
  {
  }

  lemma PrefixOf(found: seq<Id>, part: seq<Id>, more: seq<Id>)
    requires |found| <= |part| <= |more| && part[..|found|] == found && more[..|part|] == part
    ensures more[..|found|] == found
  {
    assert more[..|found|] == more[..|part|][..|found|];
  }

  lemma FoundKnown<L>(g: Graph<L>, s: Search<L>, found: seq<Id>, spots: seq<Spot>, next: Spot, m: nat)
    requires Ordered(g, s, found, spots, next) && m < |found|
    ensures found[m] in s.dist
  {
    assert found[m] in found;
  }

  lemma NodeDone<L>(g: Graph<L>, s: Search<L>, found: seq<Id>, spots: seq<Spot>, m: nat)
    requires m < |found| && Ordered(g, s, found, spots, Spot(m, |Out(g, found[m])|))
    ensures Ordered(g, s, found, spots, Spot(m + 1, 0))
  {
    var next, next' := Spot(m, |Out(g, found[m])|), Spot(m + 1, 0);
    forall a | IsSpot(g, found, a) && Earlier(a, next') ensures ArcAt(g, found, a).to in s.dist { assert Earlier(a, next); }
    forall j | 1 <= j < |found| ensures FoundBy(g, s, found, next', j, spots[j]) {
      StillFound(g, s, found, next, j, spots[j], s, found, next');
    }
  }

  /** The whole search. */
  lemma {:induction false} RunOrdered<L>(g: Graph<L>, s: Search<L>, found: seq<Id>, spots: seq<Spot>, m: nat)
      returns (all: seq<Id>, spots': seq<Spot>)
    requires Queued(s) && Ordered(g, s, found, spots, Spot(m, 0)) && m <= |found| && s.queue == found[m..]
    ensures Ordered(g, Run(g, s), all, spots', Spot(|all|, 0)) && all[0] == found[0]
    decreases |Targets(g) - s.dist.Keys|, |s.queue|
  {
    hide Ordered, Scan;
    if s.queue == [] {
      all, spots' := found, spots;
    } else {
      var taken := s.(queue := s.queue[1..]);
      assert s.queue[0] == found[m] && taken.queue == found[m + 1..];
      SameOrdered(g, s, taken, found, spots, Spot(m, 0));
      var part, partSpots := ArcsFollowed(g, taken, found, spots, m, |Out(g, found[m])|);
      assert part[m] == found[m] && part[0] == found[0];
      NodeDone(g, Expand(g, s), part, partSpots, m);
      ExpandProgress(g, s);
      all, spots' := RunOrdered(g, Expand(g, s), part, partSpots, m + 1);
    }
  }

  lemma SameOrdered<L>(g: Graph<L>, s: Search<L>, s': Search<L>, found: seq<Id>, spots: seq<Spot>, next: Spot)
    requires Ordered(g, s, found, spots, next) && s' == s.(queue := s'.queue)
    ensures Ordered(g, s', found, spots, next)
  {
    forall j | 1 <= j < |found| ensures FoundBy(g, s', found, next, j, spots[j]) {
      StillFound(g, s, found, next, j, spots[j], s', found, next);
    }
  }

  /** Every node but the first is found by the first arc that leads to it, when the
      arcs of the nodes are tried in the order in which those are found; and nodes
      are found in the order of these arcs. */
  lemma SearchFindsInOrder<L>(g: Graph<L>, root: Id) returns (found: seq<Id>, spots: seq<Spot>)
    ensures Ordered(g, Run(g, Start(root)), found, spots, Spot(|found|, 0)) && found[0] == root
  {
    StartOrdered(g, root);
    found, spots := RunOrdered(g, Start(root), [root], [Spot(0, 0)], 0);
  }

  lemma StartOrdered<L>(g: Graph<L>, root: Id)
    ensures Ordered(g, Start<L>(root), [root], [Spot(0, 0)], Spot(0, 0))
  {
  }
}
