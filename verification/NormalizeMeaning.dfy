/** What normalizing does to each entry of a topology, field by field. */
module NormalizeMeaning {
  import opened Text
  import opened Sorting
  import opened Lists
  import opened Topology
  import opened Validation
  import opened Normalize
  import PortIndices

  /** The same numbers, each once and ascending. */
  ghost predicate Tidied(before: seq<int>, after: seq<int>) {
    (forall n :: n in after <==> n in before) && forall i, j | 0 <= i < j < |after| :: after[i] < after[j]
  }

  ghost predicate TidiedIds(before: seq<Id>, after: seq<Id>) {
    (forall id :: id in after <==> id in before) && forall i, j | 0 <= i < j < |after| :: Less(after[i], after[j])
  }

  predicate HasIndex(ports: seq<Port>, n: int) { exists p :: p in ports && p.portIndex == n }

  /** Positive, and no earlier port of the device has it. */
  predicate GoodIndex(ports: seq<Port>, i: nat)
    requires i < |ports|
  {
    ports[i].portIndex >= 1 && !HasIndex(ports[..i], ports[i].portIndex)
  }

  /** The least positive number that no port of the device had and that has not been
      given to an earlier one. */
  ghost predicate LeastFree(ports: seq<Port>, now: seq<Port>, i: nat, n: int)
    requires i <= |now|
  {
    && n >= 1 && !HasIndex(ports, n) && !HasIndex(now[..i], n)
    && forall m | 1 <= m < n :: HasIndex(ports, m) || HasIndex(now[..i], m)
  }

  lemma IndexListed(ports: seq<Port>, n: int)
    requires n >= 1
    ensures n in PortIndices.Indices(ports) <==> HasIndex(ports, n)
  {
  }

  lemma KeptIff(ports: seq<Port>, i: nat)
    requires i < |ports|
    ensures PortIndices.Keeps(ports, i) <==> GoodIndex(ports, i)
  {
    if j :| 0 <= j < i && ports[j].portIndex == ports[i].portIndex { assert ports[..i][j] in ports[..i]; }
  }

  lemma {:induction false} NewIndex(ports: seq<Port>, n: nat, i: nat)
    requires i < n <= |ports| && !PortIndices.Keeps(ports, i)
    ensures var r := PortIndices.Reindexed(ports, n);
            r[..i] == PortIndices.Reindexed(ports, i)
            && PortIndices.SmallestUnused(PortIndices.Indices(ports) + PortIndices.Indices(r[..i]), r[i].portIndex)
  {
    hide PortIndices.SmallestUnused, PortIndices.Indices, PortIndices.Keeps;
    if i < n - 1 {
      NewIndex(ports, n - 1, i);
      assert PortIndices.Reindexed(ports, n)[..i] == PortIndices.Reindexed(ports, n - 1)[..i];
    } else {
      assert PortIndices.Reindexed(ports, n)[..i] == PortIndices.Reindexed(ports, i);
    }
  }

  lemma IndexIs(ports: seq<Port>, i: nat)
    requires i < |ports|
    ensures var r := PortIndices.Normalized(ports);
            |r| == |ports| && if GoodIndex(ports, i) then r[i].portIndex == ports[i].portIndex
                              else LeastFree(ports, r, i, r[i].portIndex)
  {
    hide PortIndices.Reindexed, PortIndices.Indices, PortIndices.Keeps, GoodIndex, HasIndex;
    var r := PortIndices.Normalized(ports);
    KeptIff(ports, i);
    PortIndices.ReindexedAt(ports, |ports|, i);
    if !GoodIndex(ports, i) {
      NewIndex(ports, |ports|, i);
      forall m | 1 <= m <= r[i].portIndex ensures m in PortIndices.Indices(ports) + PortIndices.Indices(r[..i]) <==>
        HasIndex(ports, m) || HasIndex(r[..i], m)
      {
        IndexListed(ports, m);
        IndexListed(r[..i], m);
      }
    }
  }

  /** A port keeps all but its index and its list of VLANs, which is put in order; an
      index changes only where it is not positive or taken, to the least free one. */
  lemma NormalPortIs(d: Device, i: nat)
    requires i < |d.ports|
    ensures var e := NormalDevice(d);
            && |e.ports| == |d.ports|
            && e.ports[i] == d.ports[i].(deviceId := d.id, portIndex := e.ports[i].portIndex, allowedVLANs := e.ports[i].allowedVLANs)
            && Tidied(d.ports[i].allowedVLANs, e.ports[i].allowedVLANs)
            && if GoodIndex(d.ports, i) then e.ports[i].portIndex == d.ports[i].portIndex
               else LeastFree(d.ports, e.ports, i, e.ports[i].portIndex)
  {
    hide PortIndices.Reindexed, GoodIndex;
    var r, e := PortIndices.Normalized(d.ports), NormalDevice(d);
    PortIndices.ReindexedAt(d.ports, |d.ports|, i);
    IndexIs(d.ports, i);
    SortedTidied(d.ports[i].allowedVLANs);
    SameIndices(r[..i], e.ports[..i]);
  }

  lemma SameIndices(ports: seq<Port>, now: seq<Port>)
    requires |ports| == |now| && forall k | 0 <= k < |ports| :: ports[k].portIndex == now[k].portIndex
    ensures forall n :: HasIndex(ports, n) <==> HasIndex(now, n)
  {
    forall n ensures HasIndex(ports, n) <==> HasIndex(now, n) {
      if p :| p in ports && p.portIndex == n { var k :| 0 <= k < |ports| && ports[k] == p; assert now[k] in now; }
      if p :| p in now && p.portIndex == n { var k :| 0 <= k < |now| && now[k] == p; assert ports[k] in ports; }
    }
  }

  lemma SortedTidied(s: seq<int>)
    ensures Tidied(s, SortedInts(Elements(s)))
  {
    var r := SortedInts(Elements(s));
    assert forall n :: n in r <==> n in Elements(r);
  }

  lemma SortedTidiedIds(s: seq<Id>)
    ensures TidiedIds(s, SortedIds(Elements(s)))
  {
    var r := SortedIds(Elements(s));
    assert forall id :: id in r <==> id in Elements(r);
  }

  /** A device keeps all but its face, which goes with its rack, and its ports. */
  lemma NormalDeviceIs(t: Topology, k: nat)
    requires k < |t.devices|
    ensures |Normal(t).devices| == |t.devices| && Normal(t).devices[k] == NormalDevice(t.devices[k])
    ensures var d, e := t.devices[k], Normal(t).devices[k];
            && e == d.(rackFace := e.rackFace, ports := e.ports) && |e.ports| == |d.ports|
            && (d.rackId == "" ==> e.rackFace == NoFace) && (d.rackId != "" && d.rackFace.NoFace? ==> e.rackFace == FrontFace)
            && (d.rackId != "" && !d.rackFace.NoFace? ==> e.rackFace == d.rackFace)
  {
  }

  /** A cable keeps all but the blanks around its rear channel, the order of its
      VLANs, and the planes of one that was generated before there were any. */
  lemma NormalLinkIs(t: Topology, k: nat)
    requires k < |t.links|
    ensures |Normal(t).links| == |t.links|
    ensures var l, m := t.links[k], Normal(t).links[k];
            && m == l.(rearChannelId := Trim(l.rearChannelId), rearChannelName := Trim(l.rearChannelName), vlanIds := m.vlanIds,
                       sourceSide := m.sourceSide, targetSide := m.targetSide)
            && Tidied(l.vlanIds, m.vlanIds)
            && if l.sourceSide.Unset? && l.targetSide.Unset? && |l.notes| >= 12 && l.notes[..12] == "Patch range "
                  && DeviceIs(t, l.sourceDeviceId, PatchPanel) && DeviceIs(t, l.targetDeviceId, PatchPanel)
               then m.sourceSide.Rear? && m.targetSide.Rear? else m.sourceSide == l.sourceSide && m.targetSide == l.targetSide
  {
    hide Trim, Tidied;
    SortedTidied(t.links[k].vlanIds);
    Prefixed("Patch range ", t.links[k].notes);
  }

  lemma Prefixed(a: string, b: string)
    ensures a <= b <==> |b| >= |a| && b[..|a|] == a
  {
  }

  /** Groups, systems and clusters keep all but the order of their members. */
  lemma NormalMembersAre(t: Topology)
    ensures var n := Normal(t);
            && |n.linkGroups| == |t.linkGroups| && |n.switchSystems| == |t.switchSystems| && |n.firewallClusters| == |t.firewallClusters|
            && (forall k | 0 <= k < |t.linkGroups| ::
                  n.linkGroups[k] == t.linkGroups[k].(linkIds := n.linkGroups[k].linkIds)
                  && TidiedIds(t.linkGroups[k].linkIds, n.linkGroups[k].linkIds))
            && (forall k | 0 <= k < |t.switchSystems| ::
                  n.switchSystems[k] == t.switchSystems[k].(deviceIds := n.switchSystems[k].deviceIds)
                  && TidiedIds(t.switchSystems[k].deviceIds, n.switchSystems[k].deviceIds))
            && forall k | 0 <= k < |t.firewallClusters| ::
                 n.firewallClusters[k] == t.firewallClusters[k].(deviceIds := n.firewallClusters[k].deviceIds)
                 && TidiedIds(t.firewallClusters[k].deviceIds, n.firewallClusters[k].deviceIds)
  {
    hide TidiedIds;
    forall g | g in t.linkGroups { SortedTidiedIds(g.linkIds); }
    forall s | s in t.switchSystems { SortedTidiedIds(s.deviceIds); }
    forall c | c in t.firewallClusters { SortedTidiedIds(c.deviceIds); }
  }
}
