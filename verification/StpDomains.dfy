/** The split into switching domains is the partition by connectivity. */
module StpDomains {
  import opened Text
  import opened Sorting
  import opened StpModel
  import opened StpEdges
  import opened StpComponents
  import opened StpTree

  lemma ReachClosed(edges: set<Edge>, start: Id)
    ensures Closed(edges, Reach(edges, start))
  {
    forall e | e in edges ensures e.left in Reach(edges, start) <==> e.right in Reach(edges, start) {
      assert Between(e, e.left, e.right) && Between(e, e.right, e.left);
      if Connected(edges, start, e.left) { ConnectedStep(edges, start, e.left, e.right); }
      if Connected(edges, start, e.right) { ConnectedStep(edges, start, e.right, e.left); }
    }
  }

  lemma DomainEdges(edges: seq<Edge>, start: Id)
    requires start in Ends(Elements(edges))
    ensures var component := Within(edges, Reach(Elements(edges), start));
            && component != [] && Elements(component) <= Elements(edges)
            && Ends(Elements(component)) == Reach(Elements(edges), start)
  {
    var all := Elements(edges);
    var reach := Reach(all, start);
    var component := Within(edges, reach);
    ReachClosed(all, start);
    ConnectedSelf(all, start);
    hide Connected;
    forall v | v in reach ensures v in Ends(Elements(component)) {
      var e :| e in all && (e.left == v || e.right == v);
      assert e in component;
      assert e in Elements(component);
    }
    assert component != [] by {
      assert start in Ends(Elements(component));
    }
  }

  /** A path that starts in a closed set of bridges uses only edges inside. */
  lemma {:induction false} PathInside(edges: seq<Edge>, reach: set<Id>, vs: seq<Id>)
    requires Closed(Elements(edges), reach) && Path(Elements(edges), vs) && vs[0] in reach
    ensures Path(Elements(Within(edges, reach)), vs) && vs[|vs| - 1] in reach
  {
    var inside := Elements(Within(edges, reach));
    if |vs| > 1 {
      var front := vs[..|vs| - 1];
      forall i | 0 <= i < |front| - 1 ensures Adjacent(Elements(edges), front[i], front[i + 1]) {
        assert Adjacent(Elements(edges), vs[i], vs[i + 1]);
      }
      PathInside(edges, reach, front);
      var u, v := vs[|vs| - 2], vs[|vs| - 2 + 1];
      assert Adjacent(Elements(edges), u, v);
      var e :| e in Elements(edges) && Between(e, u, v);
      assert e in inside;
      forall i | 0 <= i < |vs| - 1 ensures Adjacent(inside, vs[i], vs[i + 1]) {
        if i < |front| - 1 { assert Adjacent(inside, front[i], front[i + 1]); }
      }
    }
  }

  lemma DomainConnected(edges: seq<Edge>, start: Id, u: Id, v: Id)
    requires u in Reach(Elements(edges), start) && v in Reach(Elements(edges), start)
    ensures Connected(Elements(Within(edges, Reach(Elements(edges), start))), u, v)
  {
    var all := Elements(edges);
    ReachClosed(all, start);
    ConnectedBack(all, start, u);
    ConnectedJoin(all, u, start, v);
    var vs :| PathBetween(all, u, v, vs);
    PathInside(edges, Reach(all, start), vs);
    assert PathBetween(Elements(Within(edges, Reach(all, start))), u, v, vs);
  }

  /** Each of the domains is connected by its own edges. */
  lemma ComponentIsDomain(edges: seq<Edge>, bridges: map<Id, Bridge>, i: nat)
    requires Ascending(EdgeLess, edges) && SameIdSameEdge(Elements(edges)) && Ends(Elements(edges)) <= bridges.Keys
    requires forall e | e in edges :: Less(e.left, e.right)
    requires i < |Components(edges)|
    ensures Ascending(EdgeLess, Components(edges)[i]) && Elements(Components(edges)[i]) <= Elements(edges)
    ensures Domain(Elements(Components(edges)[i]), bridges)
  {
    var all := Elements(edges);
    var start := SeedOrder(all)[i];
    assert start in Elements(SeedOrder(all));
    var component := Within(edges, Reach(all, start));
    DomainEdges(edges, start);
    WithinAscends(edges, Reach(all, start));
    assert Elements(component) != {} by { assert component[0] in Elements(component); }
    hide Connected, Ends, Ascending;
    forall u, v | u in Ends(Elements(component)) && v in Ends(Elements(component)) ensures Connected(Elements(component), u, v) {
      DomainConnected(edges, start, u, v);
    }
  }

  /** Every bridge has the least bridge of its domain. */
  lemma SeedExists(edges: set<Edge>, v: Id) returns (seed: Id)
    requires v in Ends(edges)
    ensures IsSeed(edges, seed) && Connected(edges, seed, v)
  {
    ConnectedSelf(edges, v);
    LessIsStrictTotal();
    hide Connected, Ends;
    assert v in Reach(edges, v);
    seed := LeastOf(Less, Reach(edges, v));
    forall u | u in Ends(edges) && Connected(edges, seed, u) ensures seed == u || Less(seed, u) {
      ConnectedJoin(edges, v, seed, u);
    }
    ConnectedBack(edges, v, seed);
  }

  lemma SeedUnique(edges: set<Edge>, a: Id, b: Id, v: Id)
    requires IsSeed(edges, a) && IsSeed(edges, b) && Connected(edges, a, v) && Connected(edges, b, v)
    ensures a == b
  {
    ConnectedBack(edges, b, v);
    ConnectedJoin(edges, a, v, b);
    ConnectedBack(edges, a, b);
    LessIsStrictTotal();
  }

  lemma SeedAt(edges: seq<Edge>, i: nat)
    requires i < |Components(edges)|
    ensures IsSeed(Elements(edges), SeedOrder(Elements(edges))[i])
  {
    assert SeedOrder(Elements(edges))[i] in Elements(SeedOrder(Elements(edges)));
  }

  /** Every edge is in a domain, and two edges are in the same one exactly when
      a path joins them. */
  lemma DomainsPartitionEdges(edges: seq<Edge>)
    ensures var domains := Components(edges);
            && (forall e | e in edges :: exists i :: 0 <= i < |domains| && e in domains[i])
            && (forall i, j, e: Edge, f: Edge | 0 <= i < |domains| && 0 <= j < |domains| && e in domains[i] && f in domains[j] ::
                  i == j <==> Connected(Elements(edges), e.left, f.left))
  {
    var all := Elements(edges);
    var domains := Components(edges);
    forall e | e in edges ensures exists i :: 0 <= i < |domains| && e in domains[i] { DomainOf(edges, e); }
    forall i, j, e: Edge, f: Edge | 0 <= i < |domains| && 0 <= j < |domains| && e in domains[i] && f in domains[j]
      ensures i == j <==> Connected(all, e.left, f.left)
    {
      SameDomain(edges, i, j, e, f);
    }
  }

  lemma DomainOf(edges: seq<Edge>, e: Edge)
    requires e in edges
    ensures exists i :: 0 <= i < |Components(edges)| && e in Components(edges)[i]
  {
    var all := Elements(edges);
    assert e.left in Ends(all);
    var seed := SeedExists(all, e.left);
    assert seed in Elements(SeedOrder(all));
    var i :| 0 <= i < |SeedOrder(all)| && SeedOrder(all)[i] == seed;
    hide Connected;
    assert e in Components(edges)[i];
  }

  lemma SameDomain(edges: seq<Edge>, i: nat, j: nat, e: Edge, f: Edge)
    requires i < |Components(edges)| && j < |Components(edges)| && e in Components(edges)[i] && f in Components(edges)[j]
    ensures i == j <==> Connected(Elements(edges), e.left, f.left)
  {
    var all := Elements(edges);
    var seeds := SeedOrder(all);
    SeedAt(edges, i);
    SeedAt(edges, j);
    if i == j {
      ConnectedBack(all, seeds[i], e.left);
      ConnectedJoin(all, e.left, seeds[i], f.left);
    }
    if Connected(all, e.left, f.left) {
      ConnectedJoin(all, seeds[i], e.left, f.left);
      SeedUnique(all, seeds[i], seeds[j], f.left);
      LessIsStrictTotal();
      AscendingDistinct(Less, seeds);
    }
  }

  /** No bridge is shared, and one domain has a bridge below all of the other. */
  ghost predicate Precedes(a: seq<Edge>, b: seq<Edge>) {
    && Ends(Elements(a)) !! Ends(Elements(b))
    && exists u :: u in Ends(Elements(a)) && forall v | v in Ends(Elements(b)) :: Less(u, v)
  }

  ghost predicate HasBridge(domain: seq<Edge>, v: Id) { v in Ends(Elements(domain)) }

  /** No bridge is in two domains, every bridge with an edge is in one, and the
      domains come in the order of their least bridges. */
  lemma DomainsPartitionBridges(edges: seq<Edge>)
    ensures var domains := Components(edges);
            && (forall v | v in Ends(Elements(edges)) :: exists i :: 0 <= i < |domains| && HasBridge(domains[i], v))
            && (forall i, j | 0 <= i < j < |domains| :: Precedes(domains[i], domains[j]))
  {
    hide Ends, Components, Precedes, HasBridge;
    var domains := Components(edges);
    forall v | v in Ends(Elements(edges)) ensures exists i :: 0 <= i < |domains| && HasBridge(domains[i], v) {
      DomainOfBridge(edges, v);
    }
    forall i, j | 0 <= i < j < |domains| ensures Precedes(domains[i], domains[j]) {
      DomainsApart(edges, i, j);
    }
  }

  lemma DomainOfBridge(edges: seq<Edge>, v: Id)
    requires v in Ends(Elements(edges))
    ensures exists i :: 0 <= i < |Components(edges)| && HasBridge(Components(edges)[i], v)
  {
    hide Connected, Ends;
    var all := Elements(edges);
    var seeds := SeedOrder(all);
    var seed := SeedExists(all, v);
    SeedListed(all, seed);
    var i :| 0 <= i < |seeds| && seeds[i] == seed;
    DomainEdges(edges, seed);
    assert HasBridge(Components(edges)[i], v);
  }

  lemma SeedListed(edges: set<Edge>, seed: Id)
    requires IsSeed(edges, seed)
    ensures seed in Ends(edges) && seed in SeedOrder(edges)
  {
    assert seed in Elements(SeedOrder(edges));
  }

  lemma DomainsApart(edges: seq<Edge>, i: nat, j: nat)
    requires i < j < |Components(edges)|
    ensures Precedes(Components(edges)[i], Components(edges)[j])
  {
    var all := Elements(edges);
    var seeds := SeedOrder(all);
    SeedAt(edges, i);
    SeedAt(edges, j);
    assert Less(seeds[i], seeds[j]);
    LessIsStrictTotal();
    DomainEdges(edges, seeds[i]);
    DomainEdges(edges, seeds[j]);
    ConnectedSelf(all, seeds[i]);
    hide Connected, Ends;
    forall v | v in Reach(all, seeds[i]) ensures v !in Reach(all, seeds[j]) {
      if v in Reach(all, seeds[j]) { SeedUnique(all, seeds[i], seeds[j], v); }
    }
    assert seeds[i] in Reach(all, seeds[i]);
    forall v | v in Reach(all, seeds[j]) ensures Less(seeds[i], v) {
      assert seeds[j] == v || Less(seeds[j], v);
    }
  }
}
