/** What the report says of each bridge of a domain, and which paths it holds. */
module StpReportFacts {
  import opened Text
  import opened Sorting
  import opened Lists
  import opened Topology
  import opened StpModel
  import opened StpEdges
  import opened StpComponents
  import opened StpTree
  import opened StpSearch
  import opened StpPaths
  import opened StpInstance
  import opened StpComponentSimulation
  import opened StpTheorems

  // ----- bridges

  function TotalMembers(bridges: seq<BridgeState>): nat {
    if bridges == [] then 0 else TotalMembers(bridges[..|bridges| - 1]) + |bridges[|bridges| - 1].deviceIds|
  }

  /** The state tells the bridge's name and priority, and its members if the budget
      that is left covers them. */
  predicate Describes(b: Bridge, left: int, s: BridgeState) {
    && s.name == b.name && s.priority == b.priority
    && s.deviceIds == if |b.deviceIds| <= left then b.deviceIds else []
  }

  /** Each state tells its bridge, out of what the earlier ones left of the budget,
      and it is flagged exactly when the members of one were left out. */
  ghost predicate Told(records: map<Id, Bridge>, states: seq<BridgeState>, members: nat, left: nat, truncated: bool) {
    && TotalMembers(states) + left == members
    && (forall k | 0 <= k < |states| :: TellsOf(records, members - TotalMembers(states[..k]), states[k]))
    && (truncated <==> exists s :: s in states && Omits(records, s))
  }

  predicate TellsOf(records: map<Id, Bridge>, left: int, s: BridgeState) {
    s.bridgeId in records && Describes(records[s.bridgeId], left, s)
  }

  predicate Omits(records: map<Id, Bridge>, s: BridgeState) {
    s.bridgeId in records && s.deviceIds != records[s.bridgeId].deviceIds
  }

  lemma ToldStep(records: map<Id, Bridge>, states: seq<BridgeState>, members: nat, left: nat, truncated: bool, s: BridgeState)
    requires Told(records, states, members, left, truncated) && TellsOf(records, left, s)
    ensures |s.deviceIds| <= left
    ensures Told(records, states + [s], members, left - |s.deviceIds|, truncated || |records[s.bridgeId].deviceIds| > left)
  {
    hide TellsOf, Omits, TotalMembers;
    var more := states + [s];
    TotalStep(states, s);
    OmitsWhen(records, left, s);
    forall k | 0 <= k < |more| ensures TellsOf(records, members - TotalMembers(more[..k]), more[k]) {
      if k < |states| { assert more[..k] == states[..k]; } else { assert more[..k] == states; }
    }
    assert forall t :: t in more <==> t in states || t == s;
  }

  lemma TotalStep(states: seq<BridgeState>, s: BridgeState)
    ensures TotalMembers(states + [s]) == TotalMembers(states) + |s.deviceIds|
  {
    assert (states + [s])[..|states|] == states;
  }

  lemma OmitsWhen(records: map<Id, Bridge>, left: nat, s: BridgeState)
    requires TellsOf(records, left, s)
    ensures s.bridgeId in records && |s.deviceIds| <= left && (Omits(records, s) <==> |records[s.bridgeId].deviceIds| > left)
    ensures |s.deviceIds| == if |records[s.bridgeId].deviceIds| > left then 0 else |records[s.bridgeId].deviceIds|
  {
  }

  lemma ReportedTold(x: Setting, r: Report, b: Id, members: nat)
    requires Ready(x) && b in Ends(Elements(x.edges)) && Told(x.bridges, r.bridges, members, r.budget.members, r.membersTruncated)
    ensures var r' := Reported(x, r, b);
            Told(x.bridges, r'.bridges, members, r'.budget.members, r'.membersTruncated)
  {
    hide Ready, Told, ChargedPath, TreeFor, RootOf, RootPorts, UpLinks, SortIds;
    KnownBridge(x, b);
    var s := StateOf(x, b, r.budget.members);
    ToldStep(x.bridges, r.bridges, members, r.budget.members, r.membersTruncated, s);
    OmitsWhen(x.bridges, r.budget.members, s);
  }

  lemma {:induction false} BridgesReported(x: Setting, n: nat, budget: Budget)
    requires Ready(x) && n <= |Order(x)|
    ensures var r := ReportUpTo(x, n, budget);
            Told(x.bridges, r.bridges, budget.members, r.budget.members, r.membersTruncated)
  {
    hide Ready, Told, Reported, Order, ReportUpTo;
    if n > 0 {
      BridgesReported(x, n - 1, budget);
      ReportStep(x, n - 1, budget);
      ReportedTold(x, ReportUpTo(x, n - 1, budget), Order(x)[n - 1], budget.members);
    } else {
      NothingReported(x, budget);
      NothingTold(x.bridges, budget.members);
    }
  }

  lemma NothingTold(records: map<Id, Bridge>, members: nat)
    ensures Told(records, [], members, members, false)
  {
  }

  /** Each state has the name and priority of its bridge, and its members whenever
      what the earlier ones left of the budget covers them; that a list was left
      out is flagged exactly when one was. */
  lemma BridgesTold(x: Setting, budget: Budget)
    requires Ready(x)
    ensures var (i, left) := InstanceOf(x, budget);
            && i.rootId in x.bridges && i.rootName == x.bridges[i.rootId].name && i.vlan == x.vlan && i.domain == x.domain
            && Told(x.bridges, i.bridges, budget.members, left.members, i.membersTruncated)
  {
    hide Ready, Told, ReportUpTo, SortedPorts, RootOf, Order;
    BridgesReported(x, |Order(x)|, budget);
    Assembled(x, budget);
  }

  // ----- paths

  ghost predicate PathsUpTo(x: Setting, n: nat, r: Report)
    requires Ready(x)
  {
    && |r.paths| <= n <= |Order(x)| && (r.pathsTruncated <==> |r.paths| < n) && (|r.paths| < n ==> r.budget.paths == 0)
    && forall k | 0 <= k < |r.paths| :: r.paths[k].bridgeId == Order(x)[k] && IsFullPath(x, r.paths[k])
  }

  lemma PathsStep(x: Setting, n: nat, r: Report)
    requires Ready(x) && n < |Order(x)| && PathsUpTo(x, n, r) && Order(x)[n] in Ends(Elements(x.edges))
    ensures PathsUpTo(x, n + 1, Reported(x, r, Order(x)[n]))
  {
    hide Ready, TreeFor, RootOf, StateOf, FullPath, Order, IsFullPath;
    var b := Order(x)[n];
    KnownBridge(x, b);
    FullPathIs(x, b);
  }

  lemma FullPathIs(x: Setting, b: Id)
    requires Ready(x) && b in TreeFor(x).dist
    ensures var p := FullPath(Elements(x.edges), RootOf(x), TreeFor(x), b);
            IsFullPath(x, p) && p.bridgeId == b && Entries(p) > 0
  {
    hide Ready, TreeFor, RootOf;
  }

  lemma {:induction false} PathsInOrder(x: Setting, n: nat, budget: Budget)
    requires Ready(x) && n <= |Order(x)|
    ensures PathsUpTo(x, n, ReportUpTo(x, n, budget))
  {
    hide Ready, PathsUpTo, Reported, Order, ReportUpTo;
    if n > 0 {
      PathsInOrder(x, n - 1, budget);
      ReportStep(x, n - 1, budget);
      PathsStep(x, n - 1, ReportUpTo(x, n - 1, budget));
    } else {
      NothingReported(x, budget);
      NoPaths(x, budget);
    }
  }

  lemma NoPaths(x: Setting, budget: Budget)
    requires Ready(x)
    ensures PathsUpTo(x, 0, Report([], [], false, false, budget))
  {
  }

  ghost function LinksOf(es: seq<Edge>): seq<Id> {
    if es == [] then [] else Map(es[0].links, (l: Link) => l.id) + LinksOf(es[1..])
  }

  /** The edges lead from each of the bridges to the next. */
  ghost predicate Leads(edges: set<Edge>, vs: seq<Id>, es: seq<Edge>) {
    |vs| == |es| + 1 && forall i | 0 <= i < |es| :: es[i] in edges && Between(es[i], vs[i], vs[i + 1])
  }

  lemma {:induction false} LinkIdsMapped(links: seq<Link>)
    ensures LinkIds(links) == Map(links, (l: Link) => l.id)
  {
    if links != [] {
      LinkIdsMapped(links[..|links| - 1]);
      assert Map(links, (l: Link) => l.id) == Map(links[..|links| - 1], (l: Link) => l.id) + [links[|links| - 1].id];
    }
  }

  lemma {:induction false} PathEdges(edges: set<Edge>, root: Id, t: Tree, v: Id) returns (es: seq<Edge>)
    requires Grown(edges, root, t) && v in t.dist
    ensures Leads(TreeEdges(edges, t), PathBridges(edges, root, t, v), es) && PathLinks(edges, root, t, v) == LinksOf(es)
    decreases t.dist[v]
  {
    hide TreeEdges, TreeOf, HangsBy, SameIdSameEdge;
    if v == root {
      es := [];
    } else {
      UpHangs(edges, root, t, v);
      var u := t.parent[v];
      var rest := PathEdges(edges, root, t, u);
      var e := UpEdge(edges, root, t, v);
      UpEdgeInTree(edges, root, t, v);
      LinkIdsMapped(e.links);
      es := [e] + rest;
      assert es[1..] == rest;
      assert PathBridges(edges, root, t, v) == [v] + PathBridges(edges, root, t, u);
    }
  }

  lemma UpEdgeInTree(edges: set<Edge>, root: Id, t: Tree, v: Id)
    requires Grown(edges, root, t) && v in t.parent
    ensures UpEdge(edges, root, t, v) in TreeEdges(edges, t)
  {
    assert HangsBy(edges, t, v);
  }

  /** The path goes from its bridge to the root along edges that forward, and lists
      the links of each of them in turn. */
  ghost predicate GoesToRoot(x: Setting, i: Instance, p: PathRecord, es: seq<Edge>)
    requires Ready(x)
  {
    && Leads(OpenEdges(Elements(x.edges), i), p.bridgeIds, es) && p.linkIds == LinksOf(es)
    && p.bridgeIds[0] == p.bridgeId && p.bridgeIds[|p.bridgeIds| - 1] == i.rootId
  }

  lemma FullPathGoes(x: Setting, budget: Budget, p: PathRecord) returns (es: seq<Edge>)
    requires Ready(x) && IsFullPath(x, p)
    ensures GoesToRoot(x, InstanceOf(x, budget).0, p, es)
  {
    hide Ready, TreeFor, RootOf, InstanceOf, BlockedIn, TreeEdges, TreeOf, SameIdSameEdge;
    var edges := Elements(x.edges);
    es := PathEdges(edges, RootOf(x), TreeFor(x), p.bridgeId);
    TreeForwards(x, budget);
    RootIs(x, budget);
  }

  lemma TreeForwards(x: Setting, budget: Budget)
    requires Ready(x)
    ensures TreeEdges(Elements(x.edges), TreeFor(x)) <= OpenEdges(Elements(x.edges), InstanceOf(x, budget).0)
  {
    hide Ready, TreeFor, InstanceOf, BlockedIn, TreeEdges;
    var i, edges := InstanceOf(x, budget).0, Elements(x.edges);
    TreeEdgesAmong(edges, TreeFor(x));
    forall e | e in edges ensures BlockedIn(i, e) <==> e !in TreeEdges(edges, TreeFor(x)) { BlockedOffTree(x, budget, e); }
  }

  lemma RootIs(x: Setting, budget: Budget)
    requires Ready(x)
    ensures InstanceOf(x, budget).0.rootId == RootOf(x)
  {
  }

  /** The paths are those of the first bridges in order, of all of them unless it is
      flagged that some are missing; each goes to the root over links that forward. */
  lemma PathsListed(x: Setting, budget: Budget)
    requires Ready(x)
    ensures var i := InstanceOf(x, budget).0;
            && |i.paths| <= |i.bridges| && (i.pathsTruncated <==> |i.paths| < |i.bridges|)
            && (forall k | 0 <= k < |i.paths| :: i.paths[k].bridgeId == i.bridges[k].bridgeId)
            && forall p | p in i.paths :: exists es :: GoesToRoot(x, i, p, es)
  {
    hide *;
    PathsOfBridges(x, budget);
    var i := InstanceOf(x, budget).0;
    forall p | p in i.paths ensures exists es :: GoesToRoot(x, i, p, es) {
      var es := FullPathGoes(x, budget, p);
    }
  }

  lemma PathsOfBridges(x: Setting, budget: Budget)
    requires Ready(x)
    ensures var i := InstanceOf(x, budget).0;
            && |i.paths| <= |i.bridges| && (i.pathsTruncated <==> |i.paths| < |i.bridges|)
            && (forall k | 0 <= k < |i.paths| :: i.paths[k].bridgeId == i.bridges[k].bridgeId)
            && forall p | p in i.paths :: IsFullPath(x, p)
  {
    hide Ready, ReportUpTo, SortedPorts, RootOf, Order, IsFullPath, TreeFor, PathsUpTo, RowsUpTo;
    var n := |Order(x)|;
    PathsInOrder(x, n, budget);
    RowsReported(x, n, budget);
    SameBridges(x, n, ReportUpTo(x, n, budget));
    Assembled(x, budget);
  }

  lemma SameBridges(x: Setting, n: nat, r: Report)
    requires Ready(x) && n <= |Order(x)| && PathsUpTo(x, n, r) && RowsUpTo(x, n, r)
    ensures |r.paths| <= |r.bridges| && (r.pathsTruncated <==> |r.paths| < |r.bridges|)
    ensures forall k | 0 <= k < |r.paths| :: r.paths[k].bridgeId == r.bridges[k].bridgeId
    ensures forall p | p in r.paths :: IsFullPath(x, p)
  {
    hide Ready, RootOf, Order, IsFullPath, TreeFor, RootPorts, UpLinks, SortIds;
  }
}
