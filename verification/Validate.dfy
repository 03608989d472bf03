/** Topology.Validate: the loops that fill sets and maps as they go accept
    exactly the valid topologies. Where the source joins two identifiers into
    one map key the model uses the pair. */
module Validate {
  import opened Text
  import opened Sorting
  import opened Lists
  import opened Topology
  import opened Validation

  /** A pairwise relation on a prefix grows by one element when the element is
      related to all before it. */
  lemma PairwiseStep<T>(s: seq<T>, i: nat, ok: (T, T) -> bool)
    requires i < |s|
    ensures Pairwise(s[..i + 1], ok) <==> Pairwise(s[..i], ok) && forall k | 0 <= k < i :: ok(s[k], s[i])
  {
    var front, more := s[..i], s[..i + 1];
    assert forall k | 0 <= k < i :: front[k] == s[k] && more[k] == s[k];
    if Pairwise(more, ok) {
      forall k, m | 0 <= k < m < |front| ensures ok(front[k], front[m]) { assert ok(more[k], more[m]); }
      forall k | 0 <= k < i ensures ok(s[k], s[i]) { assert ok(more[k], more[i]); }
    }
    if Pairwise(front, ok) && forall k | 0 <= k < i :: ok(s[k], s[i]) {
      forall k, m | 0 <= k < m < |more| ensures ok(more[k], more[m]) {
        if m < i { assert ok(front[k], front[m]); }
      }
    }
  }

  lemma PairwisePrefix<T>(s: seq<T>, i: nat, ok: (T, T) -> bool)
    requires i <= |s| && Pairwise(s, ok)
    ensures Pairwise(s[..i], ok)
  {
  }

  // ----- rooms, racks and VLANs

  method NoRepeats<T(==)>(s: seq<T>) returns (ok: bool)
    ensures ok <==> Distinct(s)
  {
    var seen: set<T> := {};
    for i := 0 to |s|
      invariant seen == Elements(s[..i]) && Distinct(s[..i])
    {
      assert s[..i + 1] == s[..i] + [s[i]];
      if s[i] in seen {
        var k :| 0 <= k < i && s[..i][k] == s[i];
        assert s[k] == s[i];
        return false;
      }
      seen := seen + {s[i]};
    }
    assert s[..|s|] == s;
    return true;
  }

  predicate RackOk(t: Topology, r: Rack) { WellFormedId(r.id) && RoomKnown(t, r.roomId) && 6 <= r.heightU <= 48 }

  method CheckRacks(t: Topology) returns (ok: bool)
    ensures ok <==> RacksValid(t)
  {
    hide RackOk, Distinct;
    var racks := t.racks;
    ok := NoRepeats(t.rooms);
    if !ok { return; }
    var seen: set<Id> := {};
    for i := 0 to |racks|
      invariant Pairwise(racks[..i], RacksDiffer) && seen == set r | r in racks[..i] :: r.id
      invariant forall r | r in racks[..i] :: RackOk(t, r)
    {
      var r := racks[i];
      assert r in racks && racks[..i + 1] == racks[..i] + [r];
      PairwiseStep(racks, i, RacksDiffer);
      RackIs(t, r);
      if !RackOk(t, r) { return false; }
      if r.id in seen {
        var k :| 0 <= k < i && racks[..i][k].id == r.id;
        assert !RacksDiffer(racks[k], racks[i]);
        return false;
      }
      forall k | 0 <= k < i ensures RacksDiffer(racks[k], r) { assert racks[..i][k] in racks[..i]; }
      seen := seen + {r.id};
    }
    assert racks[..|racks|] == racks;
    forall r | r in racks ensures WellFormedId(r.id) && RoomKnown(t, r.roomId) && 6 <= r.heightU <= 48 { RackIs(t, r); }
    return true;
  }

  lemma RackIs(t: Topology, r: Rack)
    ensures RackOk(t, r) <==> WellFormedId(r.id) && RoomKnown(t, r.roomId) && 6 <= r.heightU <= 48
  {
  }

  method CheckVlans(vlans: seq<int>) returns (ok: bool)
    ensures ok <==> VlansValid(vlans)
  {
    hide Distinct;
    ok := NoRepeats(vlans);
    if !ok { return; }
    for i := 0 to |vlans|
      invariant forall k | 0 <= k < i :: 1 <= vlans[k] <= 4094
    {
      if vlans[i] < 1 || vlans[i] > 4094 {
        assert vlans[i] in vlans;
        return false;
      }
    }
    return true;
  }

  // ----- devices

  predicate DeviceOk(t: Topology, d: Device) {
    WellFormedId(d.id) && RoomKnown(t, d.roomId) && 1 <= d.unitsU <= 12 && Mounted(t, d) && forall p | p in d.ports :: PortValid(t, p, d.id)
  }

  datatype Rails = Rails(rack: Id, face: RackFace)

  function RailsOf(d: Device): Rails { Rails(d.rackId, EffectiveFace(d)) }

  /** What the loop remembers of the first i devices. */
  ghost predicate DevicesSeen(devices: seq<Device>, i: nat, ids: set<Id>, ports: set<Id>, placed: map<Rails, seq<Device>>)
    requires i <= |devices|
  {
    && ids == (set d | d in devices[..i] :: d.id)
    && ports == (set d, p | d in devices[..i] && p in d.ports :: p.id)
    && (forall d | d in devices[..i] && d.rackId != "" :: RailsOf(d) in placed && d in placed[RailsOf(d)])
    && forall r, d | r in placed && d in placed[r] :: d in devices[..i] && RailsOf(d) == r && d.rackId != ""
  }

  function Place(placed: map<Rails, seq<Device>>, d: Device): map<Rails, seq<Device>> {
    if d.rackId == "" then placed
    else placed[RailsOf(d) := (if RailsOf(d) in placed then placed[RailsOf(d)] else []) + [d]]
  }

  lemma SeeDevice(devices: seq<Device>, i: nat, ids: set<Id>, ports: set<Id>, placed: map<Rails, seq<Device>>)
    requires i < |devices| && DevicesSeen(devices, i, ids, ports, placed)
    ensures var d := devices[i];
            DevicesSeen(devices, i + 1, ids + {d.id}, ports + (set p | p in d.ports :: p.id), Place(placed, d))
  {
    hide Place, RailsOf;
    var d := devices[i];
    OneMoreDevice(devices, i);
    assert d in devices[..i + 1];
    PlaceFinds(devices[..i], devices[..i + 1], placed, d);
  }

  lemma OneMoreDevice(devices: seq<Device>, i: nat)
    requires i < |devices|
    ensures forall e | e in devices[..i + 1] :: e in devices[..i] || e == devices[i]
    ensures forall e | e in devices[..i] :: e in devices[..i + 1]
  {
    assert devices[..i + 1] == devices[..i] + [devices[i]];
  }

  lemma PlaceFinds(devices: seq<Device>, more: seq<Device>, placed: map<Rails, seq<Device>>, d: Device)
    requires d in more && (forall e | e in more :: e in devices || e == d) && forall e | e in devices :: e in more
    requires forall e | e in devices && e.rackId != "" :: RailsOf(e) in placed && e in placed[RailsOf(e)]
    requires forall r, e | r in placed && e in placed[r] :: e in devices && RailsOf(e) == r && e.rackId != ""
    ensures forall e | e in more && e.rackId != "" :: RailsOf(e) in Place(placed, d) && e in Place(placed, d)[RailsOf(e)]
    ensures forall r, e | r in Place(placed, d) && e in Place(placed, d)[r] :: e in more && RailsOf(e) == r && e.rackId != ""
  {
    hide RailsOf;
  }

  /** What the three look-ups of the loop decide. */
  lemma DeviceDiffers(devices: seq<Device>, i: nat, ids: set<Id>, ports: set<Id>, placed: map<Rails, seq<Device>>)
    requires i < |devices| && DevicesSeen(devices, i, ids, ports, placed)
    ensures var d := devices[i];
            (forall k | 0 <= k < i :: DevicesDiffer(devices[k], d)) <==>
              && d.id !in ids && (forall p | p in d.ports :: p.id !in ports)
              && (d.rackId == "" || RailsOf(d) !in placed || forall e | e in placed[RailsOf(d)] :: !Overlap(e, d))
  {
    var d := devices[i];
    assert forall k | 0 <= k < i :: devices[k] in devices[..i] && devices[..i][k] == devices[k];
    if forall k | 0 <= k < i :: DevicesDiffer(devices[k], d) {
      forall e | e in devices[..i] ensures DevicesDiffer(e, d) { var k :| 0 <= k < i && devices[..i][k] == e; }
    }
  }

  method RepeatsPort(ports: seq<Port>, seen: set<Id>) returns (repeats: bool, more: set<Id>)
    ensures !repeats <==> Pairwise(ports, PortsDiffer) && forall p | p in ports :: p.id !in seen
    ensures !repeats ==> more == seen + set p | p in ports :: p.id
  {
    more := seen;
    for j := 0 to |ports|
      invariant Pairwise(ports[..j], PortsDiffer) && (forall p | p in ports[..j] :: p.id !in seen)
      invariant more == seen + set p | p in ports[..j] :: p.id
    {
      var p := ports[j];
      assert p in ports && ports[..j + 1] == ports[..j] + [p];
      PairwiseStep(ports, j, PortsDiffer);
      if p.id in more {
        if p.id !in seen {
          var k :| 0 <= k < j && ports[..j][k].id == p.id;
          assert !PortsDiffer(ports[k], ports[j]);
        }
        return true, more;
      }
      forall k | 0 <= k < j ensures PortsDiffer(ports[k], p) { assert ports[..j][k] in ports[..j]; }
      more := more + {p.id};
    }
    assert ports[..|ports|] == ports;
    return false, more;
  }

  method Collides(d: Device, placed: map<Rails, seq<Device>>) returns (collides: bool)
    ensures !collides <==> d.rackId == "" || RailsOf(d) !in placed || forall e | e in placed[RailsOf(d)] :: !Overlap(e, d)
  {
    hide Overlap;
    if d.rackId == "" || RailsOf(d) !in placed { return false; }
    var others := placed[RailsOf(d)];
    for k := 0 to |others|
      invariant forall j | 0 <= j < k :: !Overlap(others[j], d)
    {
      if Overlap(others[k], d) {
        assert others[k] in others;
        return true;
      }
    }
    return false;
  }

  method CheckDevices(t: Topology) returns (ok: bool)
    ensures ok <==> DevicesValid(t)
  {
    hide DeviceOk, DevicesSeen, DevicesDiffer, Place, Overlap, DeviceValid, PortsDiffer;
    var devices := t.devices;
    var ids: set<Id>, ports: set<Id>, placed: map<Rails, seq<Device>> := {}, {}, map[];
    NoDeviceSeen(devices);
    for i := 0 to |devices|
      invariant Pairwise(devices[..i], DevicesDiffer) && DevicesSeen(devices, i, ids, ports, placed)
      invariant forall d | d in devices[..i] :: DeviceValid(t, d)
    {
      var d := devices[i];
      assert d in devices && devices[..i + 1] == devices[..i] + [d];
      PairwiseStep(devices, i, DevicesDiffer);
      if Pairwise(devices, DevicesDiffer) { PairwisePrefix(devices, i + 1, DevicesDiffer); }
      DeviceDiffers(devices, i, ids, ports, placed);
      DeviceIs'(t, d);
      if !DeviceOk(t, d) || d.id in ids { return false; }
      var collides := Collides(d, placed);
      if collides { return false; }
      var repeats, more := RepeatsPort(d.ports, ports);
      if repeats { return false; }
      SeeDevice(devices, i, ids, ports, placed);
      ids, ports, placed := ids + {d.id}, more, Place(placed, d);
    }
    assert devices[..|devices|] == devices;
    return true;
  }

  lemma DeviceIs'(t: Topology, d: Device)
    ensures DeviceValid(t, d) <==> DeviceOk(t, d) && Pairwise(d.ports, PortsDiffer)
  {
  }

  lemma NoDeviceSeen(devices: seq<Device>)
    ensures DevicesSeen(devices, 0, {}, {}, map[])
  {
  }

  // ----- links

  ghost predicate LinksSeen(links: seq<Link>, i: nat, ids: set<Id>, occupied: set<Termination>, channels: map<Id, Link>)
    requires i <= |links|
  {
    && ids == (set l | l in links[..i] :: l.id)
    && occupied == (set l, x | l in links[..i] && x in Terminations(l) :: x)
    && (forall l | l in links[..i] && l.rearChannelId != "" :: l.rearChannelId in channels && SameChannel(channels[l.rearChannelId], l))
    && forall c | c in channels :: channels[c] in links[..i] && channels[c].rearChannelId == c && c != ""
  }

  lemma SeeLink(links: seq<Link>, i: nat, ids: set<Id>, occupied: set<Termination>, channels: map<Id, Link>)
    requires i < |links| && LinksSeen(links, i, ids, occupied, channels)
    requires var l := links[i]; l.rearChannelId in channels ==> SameChannel(channels[l.rearChannelId], l)
    ensures var l := links[i];
            LinksSeen(links, i + 1, ids + {l.id}, occupied + Terminations(l),
                      if l.rearChannelId == "" then channels else channels[l.rearChannelId := l])
  {
    hide Terminations, Least, Greatest, Trim;
    var l := links[i];
    assert links[..i + 1] == links[..i] + [l];
    assert l in links[..i + 1];
    forall m | m in links[..i + 1] ensures m in links[..i] || m == l {}
    assert forall m | m in links[..i] :: m in links[..i + 1];
  }

  lemma LinkDiffers(links: seq<Link>, i: nat, ids: set<Id>, occupied: set<Termination>, channels: map<Id, Link>)
    requires i < |links| && LinksSeen(links, i, ids, occupied, channels)
    ensures var l := links[i];
            (forall k | 0 <= k < i :: LinksDiffer(links[k], l)) <==>
              l.id !in ids && Terminations(l) !! occupied && (l.rearChannelId in channels ==> SameChannel(channels[l.rearChannelId], l))
  {
    hide Terminations, Least, Greatest, Trim;
    var l := links[i];
    assert forall k | 0 <= k < i :: links[k] in links[..i] && links[..i][k] == links[k];
    if forall k | 0 <= k < i :: LinksDiffer(links[k], l) {
      forall m | m in links[..i] ensures LinksDiffer(m, l) { var k :| 0 <= k < i && links[..i][k] == m; }
      assert Terminations(l) !! occupied;
    }
    if l.id !in ids && Terminations(l) !! occupied && (l.rearChannelId in channels ==> SameChannel(channels[l.rearChannelId], l)) {
      forall k | 0 <= k < i ensures LinksDiffer(links[k], l) {
        assert Terminations(links[k]) <= occupied;
      }
    }
  }

  predicate LinkOk(t: Topology, l: Link) { LinkWellFormed(l) && LinkAnchored(t, l) }

  method CheckLinks(t: Topology) returns (ok: bool)
    ensures ok <==> LinksValid(t)
  {
    hide LinkWellFormed, LinkAnchored, LinksSeen, LinksDiffer, Terminations, SameChannel;
    var links := t.links;
    var ids: set<Id>, occupied: set<Termination>, channels: map<Id, Link> := {}, {}, map[];
    NoLinkSeen(links);
    for i := 0 to |links|
      invariant Pairwise(links[..i], LinksDiffer) && LinksSeen(links, i, ids, occupied, channels)
      invariant forall l | l in links[..i] :: LinkOk(t, l)
    {
      var l := links[i];
      assert l in links && links[..i + 1] == links[..i] + [l];
      PairwiseStep(links, i, LinksDiffer);
      if Pairwise(links, LinksDiffer) { PairwisePrefix(links, i + 1, LinksDiffer); }
      LinkDiffers(links, i, ids, occupied, channels);
      EndsDiffer(t, l);
      if !LinkOk(t, l) || l.id in ids { return false; }
      if l.rearChannelId in channels && !SameChannel(channels[l.rearChannelId], l) { return false; }
      if SourceEnd(l) in occupied || TargetEnd(l) in occupied { return false; }
      SeeLink(links, i, ids, occupied, channels);
      ids := ids + {l.id};
      if l.rearChannelId != "" { channels := channels[l.rearChannelId := l]; }
      occupied := occupied + Terminations(l);
    }
    assert links[..|links|] == links;
    return true;
  }

  lemma NoLinkSeen(links: seq<Link>)
    ensures LinksSeen(links, 0, {}, {}, map[])
  {
  }

  lemma EndsDiffer(t: Topology, l: Link)
    ensures Terminations(l) == {SourceEnd(l), TargetEnd(l)}
    ensures LinkOk(t, l) ==> SourceEnd(l) != TargetEnd(l)
  {
  }

  // ----- groups, systems and clusters

  /** The members of the lists seen so far. */
  ghost function AllMembers(lists: seq<seq<Id>>): set<Id> { set ids, id | ids in lists && id in ids :: id }

  predicate ListsApart(a: seq<Id>, b: seq<Id>) { forall id | id in a :: id !in b }

  /** No two lists have a member in common, and no two names are the same: what
      the membership maps of groups, systems and clusters check. */
  method CheckMembers(names: seq<Id>, lists: seq<seq<Id>>) returns (ok: bool)
    requires |names| == |lists|
    ensures ok <==> Distinct(names) && Pairwise(lists, ListsApart)
  {
    hide Distinct, ListsApart, AllMembers;
    ok := NoRepeats(names);
    if !ok { return; }
    var seen: set<Id> := {};
    NoMembers(lists);
    for i := 0 to |lists|
      invariant Pairwise(lists[..i], ListsApart) && seen == AllMembers(lists[..i])
    {
      PairwiseStep(lists, i, ListsApart);
      if Pairwise(lists, ListsApart) { PairwisePrefix(lists, i + 1, ListsApart); }
      MembersApart(lists, i);
      var met := AnyIn(lists[i], seen);
      if met { return false; }
      seen := seen + set id | id in lists[i];
    }
    assert lists[..|lists|] == lists;
    return true;
  }

  lemma NoMembers(lists: seq<seq<Id>>)
    ensures AllMembers(lists[..0]) == {}
  {
  }

  method AnyIn(ids: seq<Id>, seen: set<Id>) returns (found: bool)
    ensures found <==> exists id :: id in ids && id in seen
  {
    for j := 0 to |ids|
      invariant forall k | 0 <= k < j :: ids[k] !in seen
    {
      if ids[j] in seen {
        assert ids[j] in ids;
        return true;
      }
    }
    return false;
  }

  lemma MembersApart(lists: seq<seq<Id>>, i: nat)
    requires i < |lists|
    ensures (forall k | 0 <= k < i :: ListsApart(lists[k], lists[i])) <==> forall id | id in lists[i] :: id !in AllMembers(lists[..i])
    ensures AllMembers(lists[..i + 1]) == AllMembers(lists[..i]) + Elements(lists[i])
  {
    assert forall k | 0 <= k < i :: lists[..i][k] == lists[k] && lists[k] in lists[..i];
    assert lists[..i + 1] == lists[..i] + [lists[i]];
    if forall k | 0 <= k < i :: ListsApart(lists[k], lists[i]) {
      forall ids | ids in lists[..i] ensures ListsApart(ids, lists[i]) { var k :| 0 <= k < i && lists[..i][k] == ids; }
    }
  }

  lemma NamesAndMembers<T>(s: seq<T>, name: T -> Id, members: T -> seq<Id>, differ: (T, T) -> bool)
    requires forall x, y :: differ(x, y) <==> name(x) != name(y) && ListsApart(members(x), members(y))
    ensures Pairwise(s, differ) <==> Distinct(Map(s, name)) && Pairwise(Map(s, members), ListsApart)
  {
    if Pairwise(s, differ) {
      forall i, j | 0 <= i < j < |s| ensures name(s[i]) != name(s[j]) && ListsApart(members(s[i]), members(s[j])) {
        assert differ(s[i], s[j]);
      }
    }
    if Distinct(Map(s, name)) && Pairwise(Map(s, members), ListsApart) {
      forall i, j | 0 <= i < j < |s| ensures differ(s[i], s[j]) {
        assert Map(s, name)[i] != Map(s, name)[j] && ListsApart(Map(s, members)[i], Map(s, members)[j]);
      }
    }
  }

  method CheckGroup(t: Topology, g: LinkGroup) returns (ok: bool)
    ensures ok <==> GroupValid(t, g)
  {
    hide LinkKnown, MixesKinds, Distinct;
    var distinct := NoRepeats(g.linkIds);
    ok := WellFormedId(g.id) && |g.linkIds| >= 2 && distinct && (forall id | id in g.linkIds :: LinkKnown(t, id))
      && (if g.mode.Failover? then g.primaryLinkId in g.linkIds else g.primaryLinkId == "") && !MixesKinds(t, g);
  }

  method CheckGroups(t: Topology) returns (ok: bool)
    ensures ok <==> GroupsValid(t)
  {
    hide GroupValid, ListsApart, Distinct;
    var groups := t.linkGroups;
    ok := CheckMembers(Map(groups, (g: LinkGroup) => g.id), Map(groups, (g: LinkGroup) => g.linkIds));
    GroupsApart(groups);
    if !ok { return; }
    for i := 0 to |groups|
      invariant forall k | 0 <= k < i :: GroupValid(t, groups[k])
    {
      assert groups[i] in groups;
      ok := CheckGroup(t, groups[i]);
      if !ok { return; }
    }
    return true;
  }

  lemma GroupsApart(groups: seq<LinkGroup>)
    ensures Pairwise(groups, GroupsDiffer) <==>
      && Distinct(Map(groups, (g: LinkGroup) => g.id)) && Pairwise(Map(groups, (g: LinkGroup) => g.linkIds), ListsApart)
  {
    NamesAndMembers(groups, (g: LinkGroup) => g.id, (g: LinkGroup) => g.linkIds, GroupsDiffer);
  }

  method CheckSystems(t: Topology) returns (ok: bool)
    ensures ok <==> SystemsValid(t)
  {
    hide DeviceIs, ListsApart, Distinct;
    var systems := t.switchSystems;
    ok := CheckMembers(Map(systems, (s: SwitchSystem) => s.id), Map(systems, (s: SwitchSystem) => s.deviceIds));
    SystemsApart(systems);
    if !ok { return; }
    for i := 0 to |systems|
      invariant forall k | 0 <= k < i :: SystemValid(t, systems[k])
    {
      var s := systems[i];
      assert s in systems;
      var distinct := NoRepeats(s.deviceIds);
      if !(WellFormedId(s.id) && |s.deviceIds| >= 2 && distinct && forall id | id in s.deviceIds :: DeviceIs(t, id, Switch)) { return false; }
    }
    return true;
  }

  lemma SystemsApart(systems: seq<SwitchSystem>)
    ensures Pairwise(systems, SystemsDiffer) <==>
      && Distinct(Map(systems, (s: SwitchSystem) => s.id)) && Pairwise(Map(systems, (s: SwitchSystem) => s.deviceIds), ListsApart)
  {
    NamesAndMembers(systems, (s: SwitchSystem) => s.id, (s: SwitchSystem) => s.deviceIds, SystemsDiffer);
  }

  method CheckClusters(t: Topology) returns (ok: bool)
    ensures ok <==> ClustersValid(t)
  {
    hide DeviceIs, ListsApart, Distinct;
    var clusters := t.firewallClusters;
    ok := CheckMembers(Map(clusters, (c: FirewallCluster) => c.id), Map(clusters, (c: FirewallCluster) => c.deviceIds));
    ClustersApart(clusters);
    if !ok { return; }
    for i := 0 to |clusters|
      invariant forall k | 0 <= k < i :: ClusterValid(t, clusters[k])
    {
      var c := clusters[i];
      assert c in clusters;
      var distinct := NoRepeats(c.deviceIds);
      if !(WellFormedId(c.id) && |c.deviceIds| >= 2 && distinct && forall id | id in c.deviceIds :: DeviceIs(t, id, Firewall)) { return false; }
      if !(if c.mode.ActivePassive? then c.activeDeviceId in c.deviceIds else c.activeDeviceId == "") { return false; }
    }
    return true;
  }

  lemma ClustersApart(clusters: seq<FirewallCluster>)
    ensures Pairwise(clusters, ClustersDiffer) <==>
      && Distinct(Map(clusters, (c: FirewallCluster) => c.id)) && Pairwise(Map(clusters, (c: FirewallCluster) => c.deviceIds), ListsApart)
  {
    NamesAndMembers(clusters, (c: FirewallCluster) => c.id, (c: FirewallCluster) => c.deviceIds, ClustersDiffer);
  }

  // ----- attachments

  method CheckAttachments(listed: seq<Attachment>, accepts: Attachment -> bool) returns (ok: bool)
    ensures ok <==> Pairwise(listed, AttachmentsDiffer) && forall a | a in listed :: accepts(a)
  {
    var ids := Map(listed, (a: Attachment) => a.id);
    ok := NoRepeats(ids);
    assert Distinct(ids) <==> Pairwise(listed, AttachmentsDiffer) by {
      assert forall i, j | 0 <= i < j < |listed| :: AttachmentsDiffer(listed[i], listed[j]) <==> ids[i] != ids[j];
    }
    if !ok { return; }
    for i := 0 to |listed|
      invariant forall k | 0 <= k < i :: accepts(listed[k])
    {
      assert listed[i] in listed;
      if !accepts(listed[i]) { return false; }
    }
    return true;
  }

  method CheckAllAttachments(t: Topology) returns (ok: bool)
    ensures ok <==> AttachmentsValid(t)
  {
    hide ThreadValid, DocumentValid, PhotoValid, Pairwise, Distinct;
    ok := NoRepeats(t.annotations);
    if !ok { return; }
    ok := CheckAttachments(t.threads, a => ThreadValid(t, a));
    if !ok { return; }
    ok := CheckAttachments(t.documents, a => DocumentValid(t, a));
    if !ok { return; }
    ok := CheckAttachments(t.photos, a => PhotoValid(t, a));
  }

  /** Topology.Validate: true when no check fails. */
  method ValidateTopology(t: Topology) returns (ok: bool)
    ensures ok <==> Valid(t)
  {
    hide RacksValid, VlansValid, DevicesValid, LinksValid, SystemsValid, ClustersValid, GroupsValid, AttachmentsValid;
    if !WellFormedId(t.id) { return false; }
    ok := CheckRacks(t);
    if !ok { return; }
    ok := CheckVlans(t.vlans);
    if !ok { return; }
    ok := CheckDevices(t);
    if !ok { return; }
    ok := CheckSystems(t);
    if !ok { return; }
    ok := CheckClusters(t);
    if !ok { return; }
    ok := CheckLinks(t);
    if !ok { return; }
    ok := CheckGroups(t);
    if !ok { return; }
    ok := CheckAllAttachments(t);
  }
}
