/** How the budgets of one analysis are spent: a path is left out only when what is
    left does not cover it, and every instance starts with what the one before left. */
module StpBudget {
  import opened Text
  import opened Sorting
  import opened Topology
  import opened StpModel
  import opened StpEdges
  import opened StpComponents
  import opened StpTree
  import opened StpSearch
  import opened StpPaths
  import opened StpInstance
  import opened StpComponentSimulation
  import opened StpSimulation
  import opened StpTheorems
  import opened StpCoverage
  import opened StpReport
  import opened StpReportFacts

  // ----- the paths of one domain

  /** The path of that bridge, and it does not fit what the paths before it leave. */
  ghost predicate TooLong(x: Setting, b: Id, paths: seq<PathRecord>, budget: nat, p: PathRecord)
    requires Ready(x)
  {
    IsFullPath(x, p) && p.bridgeId == b && TotalEntries(paths) + Entries(p) > budget
  }

  ghost predicate CutAt(x: Setting, n: nat, r: Report, budget: nat)
    requires Ready(x)
  {
    |r.paths| < n <= |Order(x)| ==> exists p :: TooLong(x, Order(x)[|r.paths|], r.paths, budget, p)
  }

  lemma CutStep(x: Setting, n: nat, r: Report, budget: Budget)
    requires Ready(x) && n < |Order(x)| && Order(x)[n] in Ends(Elements(x.edges))
    requires PathsUpTo(x, n, r) && PaidUpTo(x, n, budget, r) && CutAt(x, n, r, budget.paths)
    ensures CutAt(x, n + 1, Reported(x, r, Order(x)[n]), budget.paths)
  {
    hide Ready, TreeFor, RootOf, StateOf, FullPath, Order, TotalEntries, IsFullPath;
    var b := Order(x)[n];
    KnownBridge(x, b);
    FullPathIs(x, b);
    var p := FullPath(Elements(x.edges), RootOf(x), TreeFor(x), b);
    if |r.paths| == n && Entries(p) > r.budget.paths { assert TooLong(x, b, r.paths, budget.paths, p); }
  }

  lemma {:induction false} CutReported(x: Setting, n: nat, budget: Budget)
    requires Ready(x) && n <= |Order(x)|
    ensures CutAt(x, n, ReportUpTo(x, n, budget), budget.paths)
  {
    hide Ready, PathsUpTo, PaidUpTo, CutAt, Reported, Order, ReportUpTo;
    if n > 0 {
      CutReported(x, n - 1, budget);
      ReportStep(x, n - 1, budget);
      PathsInOrder(x, n - 1, budget);
      PathsPaid(x, n - 1, budget);
      CutStep(x, n - 1, ReportUpTo(x, n - 1, budget), budget);
    } else {
      NothingCut(x, ReportUpTo(x, 0, budget), budget.paths);
    }
  }

  lemma NothingCut(x: Setting, r: Report, budget: nat)
    requires Ready(x)
    ensures CutAt(x, 0, r, budget)
  {
  }

  /** When a path is missing, the first one that is would have taken more than the
      paths before it left; nothing is left then, and otherwise all that is not
      emitted. */
  lemma PathsUntilSpent(x: Setting, budget: Budget)
    requires Ready(x)
    ensures var (i, left) := InstanceOf(x, budget);
            && |i.paths| <= |i.bridges|
            && (if i.pathsTruncated then left.paths == 0 else TotalEntries(i.paths) + left.paths == budget.paths)
            && (i.pathsTruncated ==> exists p :: Missed(x, i, p) && TotalEntries(i.paths) + Entries(p) > budget.paths)
  {
    hide *;
    PathsWithinBudget(x, budget);
    PathsListed(x, budget);
    var n := |Order(x)|;
    CutReported(x, n, budget);
    RowsReported(x, n, budget);
    Assembled(x, budget);
    if InstanceOf(x, budget).0.pathsTruncated {
      var p := FirstCut(x, ReportUpTo(x, n, budget), budget);
      MissedPath(x, budget, p);
    }
  }

  /** The path of the first bridge whose path is not in the instance. */
  ghost predicate Missed(x: Setting, i: Instance, p: PathRecord)
    requires Ready(x)
  {
    && |i.paths| < |i.bridges| && p.bridgeId == i.bridges[|i.paths|].bridgeId
    && |p.bridgeIds| == i.bridges[|i.paths|].rootPathCost + 1 && exists es :: GoesToRoot(x, i, p, es)
  }

  lemma FirstCut(x: Setting, r: Report, budget: Budget) returns (p: PathRecord)
    requires Ready(x) && CutAt(x, |Order(x)|, r, budget.paths) && |r.paths| < |r.bridges| && RowsUpTo(x, |Order(x)|, r)
    ensures IsFullPath(x, p) && p.bridgeId == r.bridges[|r.paths|].bridgeId && TotalEntries(r.paths) + Entries(p) > budget.paths
    ensures |p.bridgeIds| == r.bridges[|r.paths|].rootPathCost + 1
  {
    hide Ready, RootOf, TreeFor, Order, TotalEntries, RootPorts, UpLinks, SortIds, PathBridges, PathLinks;
    p :| TooLong(x, Order(x)[|r.paths|], r.paths, budget.paths, p);
    PathLength(x, p);
  }

  lemma PathLength(x: Setting, p: PathRecord)
    requires Ready(x) && IsFullPath(x, p)
    ensures p.bridgeId in TreeFor(x).dist && |p.bridgeIds| == TreeFor(x).dist[p.bridgeId] + 1
  {
    hide Ready, RootOf, TreeFor;
  }

  lemma MissedPath(x: Setting, budget: Budget, p: PathRecord)
    requires Ready(x) && IsFullPath(x, p)
    requires var i := InstanceOf(x, budget).0;
             && |i.paths| < |i.bridges| && p.bridgeId == i.bridges[|i.paths|].bridgeId
             && |p.bridgeIds| == i.bridges[|i.paths|].rootPathCost + 1
    ensures Missed(x, InstanceOf(x, budget).0, p)
  {
    hide Ready, InstanceOf, IsFullPath, GoesToRoot;
    var es := FullPathGoes(x, budget, p);
  }

  // ----- one instance after the other

  /** Simulating the k-th domain of the VLAN on the budget gives the instance and
      leaves the rest. */
  ghost predicate Spends(t: Topology, vlan: int, k: nat, before: Budget, i: Instance, after: Budget)
    requires StpReady(t) && k < DomainCount(t, vlan)
  {
    var n := |Components(VlanEdges(t, vlan))|;
    if k < n then Ready(SettingFor(t, vlan, k)) && InstanceOf(SettingFor(t, vlan, k), before) == (i, after)
    else IsolatedInstance(IsolatedBridges(t, vlan)[k - n], vlan, k + 1, before) == (i, after)
  }

  lemma {:induction false} ConnectedChain(settings: seq<Setting>, budget: Budget) returns (bs: seq<Budget>)
    requires AllReady(settings)
    ensures var (r, left) := ConnectedInstances(settings, budget);
            && |r| == |settings| && |bs| == |r| + 1 && bs[0] == budget && bs[|r|] == left
            && forall k | 0 <= k < |r| :: InstanceOf(settings[k], bs[k]) == (r[k], bs[k + 1])
  {
    hide Ready, InstanceOf;
    if settings == [] {
      bs := [budget];
    } else {
      var front := settings[..|settings| - 1];
      bs := ConnectedChain(front, budget);
      bs := bs + [ConnectedInstances(settings, budget).1];
    }
  }

  lemma {:induction false} LoneChain(bridges: seq<Bridge>, vlan: int, first: int, budget: Budget) returns (bs: seq<Budget>)
    ensures var (r, left) := IsolatedInstances(bridges, vlan, first, budget);
            && |r| == |bridges| && |bs| == |r| + 1 && bs[0] == budget && bs[|r|] == left
            && forall k | 0 <= k < |r| :: IsolatedInstance(bridges[k], vlan, first + k, bs[k]) == (r[k], bs[k + 1])
  {
    hide IsolatedInstance;
    if bridges == [] {
      bs := [budget];
    } else {
      var front := bridges[..|bridges| - 1];
      bs := LoneChain(front, vlan, first, budget);
      bs := bs + [IsolatedInstances(bridges, vlan, first, budget).1];
    }
  }

  lemma VlanChain(t: Topology, vlan: int, budget: Budget) returns (bs: seq<Budget>)
    requires StpReady(t)
    ensures var (r, left) := VlanInstances(t, vlan, budget);
            && |r| == DomainCount(t, vlan) && |bs| == |r| + 1 && bs[0] == budget && bs[|r|] == left
            && forall k | 0 <= k < |r| :: Spends(t, vlan, k, bs[k], r[k], bs[k + 1])
  {
    hide *;
    Counted(t, vlan);
    VlanNumbered(t, vlan, budget);
    VlanParts(t, vlan, budget);
    var n := |Components(VlanEdges(t, vlan))|;
    var settings := Settings(t, vlan);
    ConnectedCount(settings, budget);
    var middle := ConnectedInstances(settings, budget).1;
    var a := ConnectedChain(settings, budget);
    var b := LoneChain(IsolatedBridges(t, vlan), vlan, n + 1, middle);
    bs := a + b[1..];
    var r := VlanInstances(t, vlan, budget).0;
    forall k | 0 <= k < |r| ensures Spends(t, vlan, k, bs[k], r[k], bs[k + 1]) {
      if k < n { SettingAt(t, vlan, k); }
      SpendsCases(t, vlan, k, bs[k], r[k], bs[k + 1]);
    }
  }

  lemma SpendsCases(t: Topology, vlan: int, k: nat, before: Budget, i: Instance, after: Budget)
    requires StpReady(t) && k < DomainCount(t, vlan)
    requires var n := |Components(VlanEdges(t, vlan))|;
             if k < n then Ready(SettingFor(t, vlan, k)) && InstanceOf(SettingFor(t, vlan, k), before) == (i, after)
             else IsolatedInstance(IsolatedBridges(t, vlan)[k - n], vlan, k + 1, before) == (i, after)
    ensures Spends(t, vlan, k, before, i, after)
  {
    hide StpReady, Components, VlanEdges, IsolatedBridges, SettingFor, Ready, InstanceOf, IsolatedInstance;
  }

  /** The instances come VLAN by VLAN, in the order of the topology's, and domain by
      domain, and each is simulated on what the one before it left. */
  ghost predicate InTurn(t: Topology, r: seq<Instance>, vs: seq<nat>, bs: seq<Budget>)
    requires StpReady(t)
  {
    && |vs| == |r| && |bs| == |r| + 1 && (forall j | 0 <= j < |r| :: SpentAt(t, r, vs, bs, j))
    && forall i, j | 0 <= i < j < |r| :: vs[i] < vs[j] || (vs[i] == vs[j] && r[i].domain < r[j].domain)
  }

  ghost predicate SpentAt(t: Topology, r: seq<Instance>, vs: seq<nat>, bs: seq<Budget>, j: nat)
    requires StpReady(t) && j < |r| && |vs| == |r| && |bs| == |r| + 1
  {
    && vs[j] < |t.vlans| && 1 <= r[j].domain <= DomainCount(t, t.vlans[vs[j]])
    && Spends(t, t.vlans[vs[j]], r[j].domain - 1, bs[j], r[j], bs[j + 1])
  }

  lemma SpendsNumber(t: Topology, vlan: int, k: nat, before: Budget, i: Instance, after: Budget)
    requires StpReady(t) && k < DomainCount(t, vlan) && Spends(t, vlan, k, before, i, after)
    ensures i.vlan == vlan && i.domain == k + 1
  {
    hide StpReady, Components, VlanEdges, IsolatedBridges, Ready, InstanceOf, SettingFor, IsolatedInstance;
    if k < |Components(VlanEdges(t, vlan))| { InstanceNumber(SettingFor(t, vlan, k), before); }
  }

  /** The instances of one VLAN, one after the other. */
  ghost predicate VlanSpent(t: Topology, vlan: int, more: seq<Instance>, cs: seq<Budget>)
    requires StpReady(t)
  {
    && |more| == DomainCount(t, vlan) && |cs| == |more| + 1
    && forall k | 0 <= k < |more| :: Spends(t, vlan, k, cs[k], more[k], cs[k + 1]) && more[k].domain == k + 1
  }

  ghost function Repeated(v: nat, n: nat): (r: seq<nat>)
    ensures |r| == n && forall k | 0 <= k < n :: r[k] == v
  {
    seq(n, _ => v)
  }

  ghost predicate AllBelow(vs: seq<nat>, n: nat) { forall w | w in vs :: w < n }

  lemma BelowJoin(vs: seq<nat>, v: nat, n: nat)
    requires AllBelow(vs, v)
    ensures AllBelow(vs + Repeated(v, n), v + 1)
  {
  }

  lemma SpentInVlan(t: Topology, v: nat, more: seq<Instance>, cs: seq<Budget>, k: nat)
    requires StpReady(t) && v < |t.vlans| && VlanSpent(t, t.vlans[v], more, cs) && k < |more|
    ensures |cs| == |more| + 1 && 1 <= more[k].domain == k + 1 <= DomainCount(t, t.vlans[v])
    ensures Spends(t, t.vlans[v], more[k].domain - 1, cs[k], more[k], cs[k + 1])
  {
    hide StpReady, DomainCount, Spends;
  }

  lemma TurnsJoin(t: Topology, r: seq<Instance>, vs: seq<nat>, bs: seq<Budget>, v: nat, more: seq<Instance>, cs: seq<Budget>)
    requires StpReady(t) && v < |t.vlans| && InTurn(t, r, vs, bs) && AllBelow(vs, v) && VlanSpent(t, t.vlans[v], more, cs)
    requires |bs| == |r| + 1 && |cs| > 0 && cs[0] == bs[|r|]
    ensures InTurn(t, r + more, vs + Repeated(v, |more|), bs + cs[1..])
  {
    hide StpReady, DomainCount, Spends, SpentAt, VlanSpent;
    var all, ws, ds := r + more, vs + Repeated(v, |more|), bs + cs[1..];
    if more != [] { SpentInVlan(t, v, more, cs, 0); } else { NoneSpent(t, v, cs); }
    forall j | 0 <= j < |all| ensures SpentAt(t, all, ws, ds, j) {
      if j < |r| {
        assert SpentAt(t, r, vs, bs, j);
        SpentStays(t, r, vs, bs, all, ws, ds, j);
      } else {
        SpentInVlan(t, v, more, cs, j - |r|);
        SpentNow(t, all, ws, ds, j, v);
      }
    }
    forall i, j | 0 <= i < j < |all| ensures ws[i] < ws[j] || (ws[i] == ws[j] && all[i].domain < all[j].domain) {
      if j < |r| {
        assert vs[i] < vs[j] || (vs[i] == vs[j] && r[i].domain < r[j].domain);
      } else if i < |r| {
        assert vs[i] in vs;
      } else {
        SpentInVlan(t, v, more, cs, i - |r|);
        SpentInVlan(t, v, more, cs, j - |r|);
      }
    }
  }

  lemma NoneSpent(t: Topology, v: nat, cs: seq<Budget>)
    requires StpReady(t) && v < |t.vlans| && VlanSpent(t, t.vlans[v], [], cs)
    ensures |cs| == 1
  {
    hide StpReady, DomainCount, Spends;
  }

  lemma SpentStays(t: Topology, r: seq<Instance>, vs: seq<nat>, bs: seq<Budget>, all: seq<Instance>, ws: seq<nat>, ds: seq<Budget>, j: nat)
    requires StpReady(t) && j < |r| && |vs| == |r| && |bs| == |r| + 1 && SpentAt(t, r, vs, bs, j)
    requires j < |all| && |ws| == |all| && |ds| == |all| + 1
    requires all[j] == r[j] && ws[j] == vs[j] && ds[j] == bs[j] && ds[j + 1] == bs[j + 1]
    ensures SpentAt(t, all, ws, ds, j)
  {
    hide StpReady, DomainCount, Spends;
  }

  lemma SpentNow(t: Topology, all: seq<Instance>, ws: seq<nat>, ds: seq<Budget>, j: nat, v: nat)
    requires StpReady(t) && j < |all| && |ws| == |all| && |ds| == |all| + 1 && ws[j] == v < |t.vlans|
    requires 1 <= all[j].domain <= DomainCount(t, t.vlans[v]) && Spends(t, t.vlans[v], all[j].domain - 1, ds[j], all[j], ds[j + 1])
    ensures SpentAt(t, all, ws, ds, j)
  {
    hide StpReady, DomainCount, Spends;
  }

  lemma {:induction false} AllChain(t: Topology, n: nat, budget: Budget) returns (vs: seq<nat>, bs: seq<Budget>)
    requires StpReady(t) && n <= |t.vlans|
    ensures var (r, left) := AllInstances(t, n, budget);
            InTurn(t, r, vs, bs) && bs[0] == budget && bs[|r|] == left
    ensures AllBelow(vs, n)
  {
    hide *;
    AllInstancesStep(t, n, budget);
    if n == 0 {
      vs, bs := [], [budget];
      NothingInTurn(t, budget);
    } else {
      var (r, left) := AllInstances(t, n - 1, budget);
      vs, bs := AllChain(t, n - 1, budget);
      var more := VlanInstances(t, t.vlans[n - 1], left).0;
      var cs := VlanChain(t, t.vlans[n - 1], left);
      VlanInTurn(t, t.vlans[n - 1], more, cs);
      TurnsLength(t, r, vs, bs);
      TurnsJoin(t, r, vs, bs, n - 1, more, cs);
      BelowJoin(vs, n - 1, |more|);
      vs, bs := vs + Repeated(n - 1, |more|), bs + cs[1..];
    }
  }

  lemma VlanInTurn(t: Topology, vlan: int, more: seq<Instance>, cs: seq<Budget>)
    requires StpReady(t) && |more| == DomainCount(t, vlan) && |cs| == |more| + 1
    requires forall k | 0 <= k < |more| :: Spends(t, vlan, k, cs[k], more[k], cs[k + 1])
    ensures VlanSpent(t, vlan, more, cs)
  {
    hide StpReady, DomainCount, Spends;
    forall k | 0 <= k < |more| ensures more[k].domain == k + 1 { SpendsNumber(t, vlan, k, cs[k], more[k], cs[k + 1]); }
  }

  lemma TurnsLength(t: Topology, r: seq<Instance>, vs: seq<nat>, bs: seq<Budget>)
    requires StpReady(t) && InTurn(t, r, vs, bs)
    ensures |vs| == |r| && |bs| == |r| + 1
  {
    hide StpReady, SpentAt;
  }

  lemma NothingInTurn(t: Topology, budget: Budget)
    requires StpReady(t)
    ensures InTurn(t, [], [], [budget]) && AllBelow([], 0)
  {
  }

  /** The instances of the report, in the order in which they are simulated: the first
      starts with both budgets full, and each next one with what is left. */
  lemma ReportInTurn(t: Topology) returns (all: seq<Instance>, vs: seq<nat>, bs: seq<Budget>)
    requires StpReady(t) && Distinct(t.vlans)
    ensures Elements(all) == Elements(Simulated(t)) && |all| == |Simulated(t)|
    ensures InTurn(t, all, vs, bs) && |bs| == |all| + 1 && bs[0].paths == 200000 && bs[0].members == 200000
  {
    hide *;
    all := AllInstances(t, |t.vlans|, FullBudget).0;
    vs, bs := AllChain(t, |t.vlans|, FullBudget);
    TurnsLength(t, all, vs, bs);
    SameInstances(t, all);
    BudgetIs();
  }

  lemma BudgetIs()
    ensures FullBudget.paths == FullBudget.members == 200000
  {
  }

  lemma SameInstances(t: Topology, all: seq<Instance>)
    requires StpReady(t) && Distinct(t.vlans) && all == AllInstances(t, |t.vlans|, FullBudget).0
    ensures Elements(all) == Elements(Simulated(t)) && |all| == |Simulated(t)|
  {
    hide StpReady, AllInstances;
    InstancesNumbered(t, |t.vlans|, FullBudget);
    InstanceOrder(all);
    DistinctSize(all);
  }
}
