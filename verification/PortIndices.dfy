/** NormalizePortIndices: every port of a device gets a positive index of its
    own, and the indices that are already good stay. */
module PortIndices {
  import opened Text
  import opened Lists
  import opened Topology

  /** The index is positive and no earlier port has it. */
  predicate Keeps(ports: seq<Port>, i: nat)
    requires i < |ports|
  {
    ports[i].portIndex >= 1 && forall j | 0 <= j < i :: ports[j].portIndex != ports[i].portIndex
  }

  function Indices(ports: seq<Port>): set<int> { set p | p in ports && p.portIndex >= 1 :: p.portIndex }

  ghost predicate SmallestUnused(used: set<int>, n: int) {
    n >= 1 && n !in used && forall m | 1 <= m < n :: m in used
  }

  /** Some number up to the size of the set plus one is unused. */
  lemma {:induction false} UnusedExists(used: set<int>, n: nat)
    requires n >= 1 && (forall m | 1 <= m < n :: m in used)
    ensures exists k :: SmallestUnused(used, k)
    decreases |used| + 1 - n
  {
    if n !in used {
      assert SmallestUnused(used, n);
    } else {
      RangeSize(n, used);
      UnusedExists(used, n + 1);
    }
  }

  lemma {:induction false} RangeSize(n: nat, used: set<int>)
    requires forall m | 1 <= m <= n :: m in used
    ensures |used| >= n
    decreases n
  {
    if n > 0 {
      RangeSize(n - 1, used - {n});
    }
  }

  ghost function NextUnused(used: set<int>): (n: int)
    ensures SmallestUnused(used, n)
  {
    UnusedExists(used, 1);
    var n :| SmallestUnused(used, n);
    n
  }

  lemma SmallestIsNext(used: set<int>, n: int)
    requires SmallestUnused(used, n)
    ensures n == NextUnused(used)
  {
    var m := NextUnused(used);
    assert m < n ==> m in used;
    assert n < m ==> n in used;
  }

  /** The first n ports with their final indices. */
  ghost function Reindexed(ports: seq<Port>, n: nat): (r: seq<Port>)
    requires n <= |ports|
    ensures |r| == n && forall i | 0 <= i < n :: r[i].portIndex >= 1
  {
    if n == 0 then [] else
      var before := Reindexed(ports, n - 1);
      before + [if Keeps(ports, n - 1) then ports[n - 1]
                else ports[n - 1].(portIndex := NextUnused(Indices(ports) + Indices(before)))]
  }

  ghost function Normalized(ports: seq<Port>): seq<Port> { Reindexed(ports, |ports|) }

  ghost predicate DistinctIndices(ports: seq<Port>) {
    forall i, j | 0 <= i < j < |ports| :: ports[i].portIndex != ports[j].portIndex
  }

  lemma {:induction false} ReindexedAt(ports: seq<Port>, n: nat, i: nat)
    requires i < n <= |ports|
    ensures Reindexed(ports, n)[i] == ports[i].(portIndex := Reindexed(ports, n)[i].portIndex)
    ensures Keeps(ports, i) ==> Reindexed(ports, n)[i] == ports[i]
    ensures !Keeps(ports, i) ==> Reindexed(ports, n)[i].portIndex !in Indices(ports)
  {
    if i < n - 1 { ReindexedAt(ports, n - 1, i); }
  }

  /** Afterwards all indices are positive and different. */
  lemma {:induction false} ReindexedDistinct(ports: seq<Port>, n: nat)
    requires n <= |ports|
    ensures DistinctIndices(Reindexed(ports, n))
  {
    hide SmallestUnused;
    if n > 0 {
      ReindexedDistinct(ports, n - 1);
      var before, r := Reindexed(ports, n - 1), Reindexed(ports, n);
      forall i | 0 <= i < n - 1 ensures r[i].portIndex != r[n - 1].portIndex {
        assert r[i] == before[i];
        ReindexedAt(ports, n - 1, i);
        if Keeps(ports, n - 1) {
          assert ports[n - 1] in ports && ports[n - 1].portIndex in Indices(ports);
        } else {
          FreshIndex(ports, before);
          assert before[i] in before && before[i].portIndex in Indices(before);
        }
      }
    }
  }

  lemma FreshIndex(ports: seq<Port>, before: seq<Port>)
    ensures var n := NextUnused(Indices(ports) + Indices(before)); n !in Indices(ports) && n !in Indices(before)
  {
  }

  /** Ports that are already numbered stay as they are. */
  lemma {:induction false} ReindexedSame(ports: seq<Port>, n: nat)
    requires n <= |ports| && DistinctIndices(ports) && forall p | p in ports :: p.portIndex >= 1
    ensures Reindexed(ports, n) == ports[..n]
  {
    if n > 0 {
      ReindexedSame(ports, n - 1);
      assert ports[n - 1] in ports;
      assert ports[..n] == ports[..n - 1] + [ports[n - 1]];
    }
  }

  // ----- the two loops

  /** After the first loop the indices that do not stay are zero. */
  ghost predicate Cleared(ports: seq<Port>, now: seq<Port>, n: nat, used: set<int>) {
    && |now| == |ports| && n <= |ports|
    && used == Indices(ports[..n])
    && forall i | 0 <= i < |ports| :: now[i] == if i >= n || Keeps(ports, i) then ports[i] else ports[i].(portIndex := 0)
  }

  lemma ClearStep(ports: seq<Port>, now: seq<Port>, n: nat, used: set<int>)
    requires Cleared(ports, now, n, used) && n < |ports|
    ensures now[n] == ports[n]
    ensures Keeps(ports, n) <==> ports[n].portIndex >= 1 && ports[n].portIndex !in used
    ensures Keeps(ports, n) ==> Cleared(ports, now, n + 1, used + {ports[n].portIndex})
    ensures !Keeps(ports, n) ==> Cleared(ports, now[n := now[n].(portIndex := 0)], n + 1, used)
  {
    hide Indices, Keeps;
    assert ports[..n + 1] == ports[..n] + [ports[n]];
    IndicesPush(ports[..n], ports[n]);
    KeepsUnused(ports, n);
  }

  lemma KeepsUnused(ports: seq<Port>, n: nat)
    requires n < |ports|
    ensures Keeps(ports, n) <==> ports[n].portIndex >= 1 && ports[n].portIndex !in Indices(ports[..n])
  {
    if ports[n].portIndex in Indices(ports[..n]) {
      var p :| p in ports[..n] && p.portIndex == ports[n].portIndex;
    }
    forall j | 0 <= j < n ensures ports[j] in ports[..n] { assert ports[..n][j] == ports[j]; }
  }

  /** During the second loop the first n ports are final. */
  ghost predicate Filled(ports: seq<Port>, now: seq<Port>, n: nat, used: set<int>, next: int) {
    && |now| == |ports| && n <= |ports|
    && used == Indices(ports) + Indices(Reindexed(ports, n))
    && now[..n] == Reindexed(ports, n)
    && (forall i | n <= i < |ports| :: now[i] == if Keeps(ports, i) then ports[i] else ports[i].(portIndex := 0))
    && next >= 1 && forall m | 1 <= m < next :: m in used
  }

  lemma FillStart(ports: seq<Port>, now: seq<Port>, used: set<int>)
    requires Cleared(ports, now, |ports|, used)
    ensures Filled(ports, now, 0, used, 1)
  {
    assert ports[..|ports|] == ports;
  }

  lemma FillKeeps(ports: seq<Port>, now: seq<Port>, n: nat, used: set<int>, next: int)
    requires Filled(ports, now, n, used, next) && n < |ports|
    ensures now[n].portIndex > 0 <==> Keeps(ports, n)
    ensures Keeps(ports, n) ==> Filled(ports, now, n + 1, used, next)
  {
    hide SmallestUnused, NextUnused, Indices, Reindexed;
    if Keeps(ports, n) {
      assert now[..n + 1] == now[..n] + [now[n]];
      KeptIndex(ports, n);
    }
  }

  lemma KeptIndex(ports: seq<Port>, n: nat)
    requires n < |ports| && Keeps(ports, n)
    ensures Reindexed(ports, n + 1) == Reindexed(ports, n) + [ports[n]]
    ensures Indices(ports) + Indices(Reindexed(ports, n + 1)) == Indices(ports) + Indices(Reindexed(ports, n))
  {
    hide NextUnused;
    IndicesPush(Reindexed(ports, n), ports[n]);
    assert ports[n] in ports;
  }

  lemma IndicesPush(ports: seq<Port>, p: Port)
    ensures Indices(ports + [p]) == Indices(ports) + if p.portIndex >= 1 then {p.portIndex} else {}
  {
  }

  lemma FillNext(ports: seq<Port>, now: seq<Port>, n: nat, used: set<int>, next: int)
    requires Filled(ports, now, n, used, next) && n < |ports| && !Keeps(ports, n) && next !in used
    ensures Filled(ports, now[n := now[n].(portIndex := next)], n + 1, used + {next}, next)
  {
    hide NextUnused;
    var r := Reindexed(ports, n);
    SmallestIsNext(used, next);
    var last := ports[n].(portIndex := next);
    var now' := now[n := now[n].(portIndex := next)];
    assert now'[..n + 1] == now[..n] + [last];
    assert Reindexed(ports, n + 1) == r + [last];
    assert Indices(r + [last]) == Indices(r) + {next};
  }

  method NormalizePortIndices(ports: seq<Port>) returns (now: seq<Port>)
    ensures now == Normalized(ports)
  {
    hide Cleared, Filled, Keeps, Reindexed, Indices;
    now := ports;
    var used: set<int> := {};
    NothingCleared(ports);
    for i := 0 to |ports|
      invariant |now| == |ports| && Cleared(ports, now, i, used)
    {
      ClearStep(ports, now, i, used);
      if now[i].portIndex < 1 || now[i].portIndex in used {
        now := now[i := now[i].(portIndex := 0)];
      } else {
        used := used + {now[i].portIndex};
      }
    }
    FillStart(ports, now, used);
    var next := 1;
    for i := 0 to |ports|
      invariant |now| == |ports| && Filled(ports, now, i, used, next)
    {
      FillKeeps(ports, now, i, used, next);
      if now[i].portIndex > 0 { continue; }
      UsedBound(ports, now, i, used, next);
      while next in used
        invariant Filled(ports, now, i, used, next) && next <= |used| + 1
        decreases |used| + 1 - next
      {
        NextUsed(ports, now, i, used, next);
        next := next + 1;
      }
      FillNext(ports, now, i, used, next);
      now := now[i := now[i].(portIndex := next)];
      used := used + {next};
    }
    AllFilled(ports, now, used, next);
  }

  lemma NothingCleared(ports: seq<Port>)
    ensures Cleared(ports, ports, 0, {})
  {
  }

  lemma UsedBound(ports: seq<Port>, now: seq<Port>, n: nat, used: set<int>, next: int)
    requires Filled(ports, now, n, used, next)
    ensures next <= |used| + 1
  {
    RangeSize(next - 1, used);
  }

  lemma NextUsed(ports: seq<Port>, now: seq<Port>, n: nat, used: set<int>, next: int)
    requires Filled(ports, now, n, used, next) && next in used
    ensures Filled(ports, now, n, used, next + 1) && next <= |used|
  {
    RangeSize(next, used);
  }

  lemma AllFilled(ports: seq<Port>, now: seq<Port>, used: set<int>, next: int)
    requires Filled(ports, now, |ports|, used, next)
    ensures now == Normalized(ports)
  {
    assert now[..|ports|] == now;
  }
}
