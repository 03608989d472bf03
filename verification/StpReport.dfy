/** The report as a whole: it has exactly one instance for each domain of each
    VLAN, which is the simulation of that domain. */
module StpReport {
  import opened Text
  import opened Sorting
  import opened Topology
  import opened StpModel
  import opened StpEdges
  import opened StpComponents
  import opened StpTree
  import opened StpInstance
  import opened StpSimulation
  import opened StpCoverage
  import opened StpLoops

  ghost function DomainCount(t: Topology, vlan: int): nat
    requires StpReady(t)
  {
    |Components(VlanEdges(t, vlan))| + |IsolatedBridges(t, vlan)|
  }

  /** i is what simulating the k-th domain of the VLAN gives, on some remaining
      budget: a domain with edges, or one of the bridges without. */
  ghost predicate Simulates(t: Topology, vlan: int, k: nat, left: Budget, i: Instance)
    requires StpReady(t) && k < DomainCount(t, vlan)
  {
    var n := |Components(VlanEdges(t, vlan))|;
    if k < n
    then Ready(SettingFor(t, vlan, k)) && i == InstanceOf(SettingFor(t, vlan, k), left).0
    else i == IsolatedInstance(IsolatedBridges(t, vlan)[k - n], vlan, k + 1, left).0
  }

  lemma {:induction false} LoneAt(bridges: seq<Bridge>, vlan: int, first: int, budget: Budget, k: nat) returns (left: Budget)
    requires k < |bridges|
    ensures |IsolatedInstances(bridges, vlan, first, budget).0| == |bridges|
    ensures IsolatedInstances(bridges, vlan, first, budget).0[k] == IsolatedInstance(bridges[k], vlan, first + k, left).0
  {
    hide IsolatedInstance;
    var front := bridges[..|bridges| - 1];
    IsolatedNumbered(front, vlan, first, budget);
    if k < |front| {
      left := LoneAt(front, vlan, first, budget, k);
    } else {
      left := IsolatedInstances(front, vlan, first, budget).1;
    }
  }

  lemma SettingAt(t: Topology, vlan: int, k: nat)
    requires StpReady(t) && k < |Components(VlanEdges(t, vlan))|
    ensures AllReady(Settings(t, vlan)) && k < |Settings(t, vlan)| && Settings(t, vlan)[k] == SettingFor(t, vlan, k)
    ensures Ready(SettingFor(t, vlan, k))
  {
    hide StpReady, Components, VlanEdges, BridgeRecords, WiringFor, Ready;
    SettingsReady(t, vlan);
    SettingReady(t, vlan, k);
  }

  lemma SimulatesCases(t: Topology, vlan: int, k: nat, left: Budget, i: Instance)
    requires StpReady(t) && k < DomainCount(t, vlan)
    requires var n := |Components(VlanEdges(t, vlan))|;
             if k < n
             then Ready(SettingFor(t, vlan, k)) && i == InstanceOf(SettingFor(t, vlan, k), left).0
             else i == IsolatedInstance(IsolatedBridges(t, vlan)[k - n], vlan, k + 1, left).0
    ensures Simulates(t, vlan, k, left, i)
  {
    hide StpReady, Components, VlanEdges, IsolatedBridges, SettingFor, Ready, InstanceOf, IsolatedInstance;
  }

  lemma VlanInstance(t: Topology, vlan: int, budget: Budget, k: nat) returns (left: Budget)
    requires StpReady(t) && k < |Components(VlanEdges(t, vlan))| + |IsolatedBridges(t, vlan)|
    ensures k < DomainCount(t, vlan)
    ensures |VlanInstances(t, vlan, budget).0| == DomainCount(t, vlan)
    ensures Simulates(t, vlan, k, left, VlanInstances(t, vlan, budget).0[k])
  {
    hide *;
    var n := |Components(VlanEdges(t, vlan))|;
    Counted(t, vlan);
    VlanNumbered(t, vlan, budget);
    VlanParts(t, vlan, budget);
    var settings := Settings(t, vlan);
    ConnectedCount(settings, budget);
    var i := VlanInstances(t, vlan, budget).0[k];
    if k < n {
      SettingAt(t, vlan, k);
      left := ConnectedAt(settings, budget, k);
    } else {
      left := LoneAt(IsolatedBridges(t, vlan), vlan, n + 1, ConnectedInstances(settings, budget).1, k - n);
    }
    SimulatesCases(t, vlan, k, left, i);
  }

  lemma Counted(t: Topology, vlan: int)
    requires StpReady(t)
    ensures DomainCount(t, vlan) == |Components(VlanEdges(t, vlan))| + |IsolatedBridges(t, vlan)|
  {
  }

  /** Where the j-th instance comes from. */
  lemma {:induction false} NthInstance(t: Topology, n: nat, budget: Budget, j: nat) returns (v: nat, k: nat, left: Budget)
    requires StpReady(t) && n <= |t.vlans| && j < |AllInstances(t, n, budget).0|
    ensures v < n && k < DomainCount(t, t.vlans[v]) && Simulates(t, t.vlans[v], k, left, AllInstances(t, n, budget).0[j])
  {
    hide *;
    AllInstancesStep(t, n, budget);
    if n > 0 {
      var (before, rest) := AllInstances(t, n - 1, budget);
      if j < |before| {
        v, k, left := NthInstance(t, n - 1, budget, j);
      } else {
        v, k := n - 1, j - |before|;
        Counted(t, t.vlans[v]);
        VlanNumbered(t, t.vlans[v], rest);
        left := VlanInstance(t, t.vlans[v], rest, k);
      }
    }
  }

  /** Each domain has its instance. */
  lemma {:induction false} DomainListed(t: Topology, n: nat, budget: Budget, v: nat, k: nat) returns (j: nat, left: Budget)
    requires StpReady(t) && v < n <= |t.vlans| && k < DomainCount(t, t.vlans[v])
    ensures j < |AllInstances(t, n, budget).0| && Simulates(t, t.vlans[v], k, left, AllInstances(t, n, budget).0[j])
  {
    hide *;
    AllInstancesStep(t, n, budget);
    var (before, rest) := AllInstances(t, n - 1, budget);
    if v < n - 1 {
      j, left := DomainListed(t, n - 1, budget, v, k);
    } else {
      Counted(t, t.vlans[v]);
      left := VlanInstance(t, t.vlans[v], rest, k);
      j := |before| + k;
    }
  }

  lemma SimulatedIsAll(t: Topology, i: Instance)
    requires StpReady(t) && Distinct(t.vlans)
    ensures i in Simulated(t) <==> i in AllInstances(t, |t.vlans|, FullBudget).0
    ensures Ascending(InstanceLess, Simulated(t))
  {
    hide StpReady, AllInstances, Distinct;
    var all := AllInstances(t, |t.vlans|, FullBudget).0;
    InstancesNumbered(t, |t.vlans|, FullBudget);
    InstanceOrder(all);
    assert i in Simulated(t) <==> i in Elements(Simulated(t));
  }

  lemma SimulatesNumber(t: Topology, vlan: int, k: nat, left: Budget, i: Instance)
    requires StpReady(t) && k < DomainCount(t, vlan) && Simulates(t, vlan, k, left, i)
    ensures i.vlan == vlan && i.domain == k + 1
  {
    hide StpReady, Components, VlanEdges, IsolatedBridges, Ready, InstanceOf, SettingFor, IsolatedInstance;
    if k < |Components(VlanEdges(t, vlan))| { InstanceNumber(SettingFor(t, vlan, k), left); }
  }

  /** Everything in the report is the simulation of a domain of a VLAN of the
      topology, and bears its number. */
  lemma ReportHasOrigin(t: Topology, i: Instance) returns (vlan: int, k: nat, left: Budget)
    requires StpReady(t) && Distinct(t.vlans) && i in Simulated(t)
    ensures vlan in t.vlans && k < DomainCount(t, vlan) && Simulates(t, vlan, k, left, i)
    ensures i.vlan == vlan && i.domain == k + 1
  {
    hide *;
    SimulatedIsAll(t, i);
    var all := AllInstances(t, |t.vlans|, FullBudget).0;
    var j :| 0 <= j < |all| && all[j] == i;
    var v;
    v, k, left := NthInstance(t, |t.vlans|, FullBudget, j);
    vlan := t.vlans[v];
    SimulatesNumber(t, vlan, k, left, i);
  }

  /** Every domain of every VLAN is in the report, once. */
  lemma ReportIsComplete(t: Topology, vlan: int, k: nat) returns (i: Instance, left: Budget)
    requires StpReady(t) && Distinct(t.vlans) && vlan in t.vlans && k < DomainCount(t, vlan)
    ensures i in Simulated(t) && Simulates(t, vlan, k, left, i)
    ensures forall other | other in Simulated(t) && other.vlan == vlan && other.domain == k + 1 :: other == i
  {
    hide *;
    var v :| 0 <= v < |t.vlans| && t.vlans[v] == vlan;
    var j;
    j, left := DomainListed(t, |t.vlans|, FullBudget, v, k);
    i := AllInstances(t, |t.vlans|, FullBudget).0[j];
    SimulatedIsAll(t, i);
    SimulatesNumber(t, vlan, k, left, i);
    forall other | other in Simulated(t) && other.vlan == vlan && other.domain == k + 1 ensures other == i {
      SameNumber(t, i, other);
    }
  }

  lemma SameNumber(t: Topology, i: Instance, other: Instance)
    requires StpReady(t) && Distinct(t.vlans) && i in Simulated(t) && other in Simulated(t)
    requires i.vlan == other.vlan && i.domain == other.domain
    ensures i == other
  {
    hide StpReady, Simulated, Distinct;
    SimulatedIsAll(t, i);
    var r := Simulated(t);
    var a :| 0 <= a < |r| && r[a] == i;
    var b :| 0 <= b < |r| && r[b] == other;
  }

  // ----- loops

  ghost function OutsideTree(t: Topology, vlan: int, k: nat): set<Id>
    requires StpReady(t) && k < |Components(VlanEdges(t, vlan))|
  {
    SettingReady(t, vlan, k);
    RedundantLinks(SettingFor(t, vlan, k))
  }

  /** The loop report of a topology: a loop for each domain with at least as
      many logical edges as bridges, and for no other; its links are those of
      the edges that the spanning tree leaves out. */
  lemma LoopReport(t: Topology, i: Instance)
    requires StpReady(t) && Distinct(t.vlans) && i in Simulated(t)
    ensures 1 <= i.domain <= DomainCount(t, i.vlan)
    ensures var domains, k := Components(VlanEdges(t, i.vlan)), i.domain - 1;
            && Loops([i]) == (if k < |domains| && |domains[k]| >= |Ends(Elements(domains[k]))| then [LoopOf(i)] else [])
            && (k < |domains| ==> LoopOf(i).linkIds == SortedIds(OutsideTree(t, i.vlan, k)))
  {
    hide *;
    var vlan, k, left := ReportHasOrigin(t, i);
    DomainLoop(t, vlan, k, left, i);
  }

  lemma DomainLoop(t: Topology, vlan: int, k: nat, left: Budget, i: Instance)
    requires StpReady(t) && k < DomainCount(t, vlan) && Simulates(t, vlan, k, left, i)
    ensures var domains := Components(VlanEdges(t, vlan));
            && Loops([i]) == (if k < |domains| && |domains[k]| >= |Ends(Elements(domains[k]))| then [LoopOf(i)] else [])
            && (k < |domains| ==> LoopOf(i).linkIds == SortedIds(OutsideTree(t, vlan, k)))
  {
    hide StpReady, Components, VlanEdges, IsolatedBridges, BridgeRecords, WiringFor, Ready, InstanceOf, IsolatedInstance,
         Loops, LoopOf, Ends, RedundantLinks;
    var n := |Components(VlanEdges(t, vlan))|;
    if k < n {
      SettingReady(t, vlan, k);
      LoopIffEdgesCoverBridges(SettingFor(t, vlan, k), left);
      SettingEdges(t, vlan, k);
    } else {
      NoLoopWithoutEdge(IsolatedBridges(t, vlan)[k - n], vlan, k + 1, left);
    }
  }

  lemma SettingEdges(t: Topology, vlan: int, k: nat)
    requires StpReady(t) && k < |Components(VlanEdges(t, vlan))|
    ensures SettingFor(t, vlan, k).edges == Components(VlanEdges(t, vlan))[k]
  {
    hide StpReady, Components, VlanEdges, BridgeRecords, WiringFor;
  }

  // ----- the budget

  /** Leaving one instance out. */
  lemma ChargedWithout(s: seq<Instance>, j: nat)
    requires j < |s|
    ensures ChargedEntries(s) == ChargedEntries(s[..j] + s[j + 1..]) + ChargedEntries([s[j]])
  {
    hide ChargedEntries;
    ChargedJoin(s[..j], s[j + 1..]);
    ChargedJoin(s[..j], [s[j]]);
    ChargedJoin(s[..j] + [s[j]], s[j + 1..]);
    assert s == s[..j] + [s[j]] + s[j + 1..];
  }

  lemma DistinctWithout(s: seq<Instance>, j: nat)
    requires Distinct(s) && j < |s|
    ensures Distinct(s[..j] + s[j + 1..]) && Elements(s[..j] + s[j + 1..]) == Elements(s) - {s[j]}
  {
    var r := s[..j] + s[j + 1..];
    assert forall k | 0 <= k < |r| :: r[k] == if k < j then s[k] else s[k + 1];
    forall x | x in s && x != s[j] ensures x in r {
      var k :| 0 <= k < |s| && s[k] == x;
      assert x == r[if k < j then k else k - 1];
    }
  }

  /** The order of the instances does not matter. */
  lemma {:induction false} ChargedInAnyOrder(a: seq<Instance>, b: seq<Instance>)
    requires Distinct(a) && Distinct(b) && Elements(a) == Elements(b)
    ensures ChargedEntries(a) == ChargedEntries(b)
  {
    hide ChargedEntries;
    DistinctSize(a);
    DistinctSize(b);
    if a != [] {
      var n := |a| - 1;
      assert a[n] in Elements(b);
      var j :| 0 <= j < |b| && b[j] == a[n];
      assert a[..n] + a[n + 1..] == a[..n];
      ChargedWithout(a, n);
      ChargedWithout(b, j);
      DistinctWithout(a, n);
      DistinctWithout(b, j);
      ChargedInAnyOrder(a[..n], b[..j] + b[j + 1..]);
    }
  }

  /** One report never holds more than 200000 identifiers in the paths of
      domains with edges. */
  lemma ReportWithinBudget(t: Topology)
    requires StpReady(t) && Distinct(t.vlans)
    ensures ChargedEntries(Simulated(t)) <= MAX_STP_PATH_ENTRIES
  {
    hide StpReady, AllInstances, ChargedEntries;
    var all := AllInstances(t, |t.vlans|, FullBudget).0;
    InstancesNumbered(t, |t.vlans|, FullBudget);
    InstanceOrder(all);
    AscendingDistinct(InstanceLess, Simulated(t));
    ChargedInAnyOrder(all, Simulated(t));
    AnalysisWithinBudget(t, |t.vlans|, FullBudget);
  }
}
