/** What becomes of everything in a valid topology when a device, a rack or a link
    is deleted: what stays, what goes, and in which order. */
module CascadeFates {
  import opened Text
  import opened Sorting
  import opened Lists
  import opened Topology
  import opened Validation
  import opened Draft
  import opened Cascade
  import opened CascadeTheorems

  // ----- attachments

  /** Threads on the canvas stay, and those whose target is still there; documents and
      photos stay whose target is. All keep their order. */
  ghost predicate AttachmentsFollow(t: Topology, r: Topology) {
    && r.threads == Filter(t.threads, (a: Attachment) => a.kind.ToCanvas? || TargetExists(r, a))
    && r.documents == Filter(t.documents, a => TargetExists(r, a))
    && r.photos == Filter(t.photos, a => TargetExists(r, a))
  }

  lemma SameTargetsBoth(c: Topology, r: Topology, a: Attachment)
    requires r.racks == c.racks && r.devices == c.devices && r.links == c.links && r.id == c.id && r.annotations == c.annotations
    ensures TargetExists(c, a) <==> TargetExists(r, a)
  {
    if TargetExists(c, a) { SameTargets(c, r, a); }
    if TargetExists(r, a) { SameTargets(r, c, a); }
  }

  lemma AttachmentsPruned(t: Topology, c: Topology)
    requires AttachmentsValid(t) && c.threads == t.threads && c.documents == t.documents && c.photos == t.photos
    ensures AttachmentsFollow(t, WithoutDangling(c))
  {
    hide TargetExists, AttachmentsDiffer;
    var r := WithoutDangling(c);
    forall a ensures TargetExists(c, a) <==> TargetExists(r, a) { SameTargetsBoth(c, r, a); }
    forall a | a in t.threads ensures KeepsThread(c, a) <==> a.kind.ToCanvas? || TargetExists(r, a) { assert ThreadValid(t, a); }
    forall a | a in t.documents ensures DocumentValid(c, a) <==> TargetExists(r, a) { assert DocumentValid(t, a); }
    forall a | a in t.photos ensures PhotoValid(c, a) <==> TargetExists(r, a) { assert PhotoValid(t, a); }
    FilterSame(t.threads, a => KeepsThread(c, a), (a: Attachment) => a.kind.ToCanvas? || TargetExists(r, a));
    FilterSame(t.documents, a => DocumentValid(c, a), a => TargetExists(r, a));
    FilterSame(t.photos, a => PhotoValid(c, a), a => TargetExists(r, a));
  }

  // ----- groups, systems and clusters

  /** What is left of the group: its links that are still there, in their order, and
      of a failover group a primary link among them. */
  ghost predicate GroupLeft(r: Topology, g: LinkGroup, h: LinkGroup) {
    && h == g.(linkIds := Filter(g.linkIds, id => LinkKnown(r, id)), primaryLinkId := h.primaryLinkId) && |h.linkIds| >= 2
    && h.primaryLinkId == if g.mode.Failover? && g.primaryLinkId !in h.linkIds then h.linkIds[0] else g.primaryLinkId
  }

  ghost predicate SystemLeft(r: Topology, s: SwitchSystem, u: SwitchSystem) {
    u == s.(deviceIds := Filter(s.deviceIds, id => DeviceKnown(r, id))) && |u.deviceIds| >= 2
  }

  ghost predicate ClusterLeft(r: Topology, c: FirewallCluster, e: FirewallCluster) {
    && e == c.(deviceIds := Filter(c.deviceIds, id => DeviceKnown(r, id)), activeDeviceId := e.activeDeviceId) && |e.deviceIds| >= 2
    && e.activeDeviceId == if c.mode.ActivePassive? && c.activeDeviceId !in e.deviceIds then e.deviceIds[0] else c.activeDeviceId
  }

  /** The members that are left follow from those there were, in order, and none with
      two members left is lost. */
  ghost predicate Follow<T(!new)>(before: seq<T>, after: seq<T>, left: (T, T) -> bool, enough: T -> bool) {
    var kept := Filter(before, enough);
    |after| == |kept| && forall k | 0 <= k < |kept| :: left(kept[k], after[k])
  }

  ghost predicate MembersFollow(t: Topology, r: Topology) {
    && Follow(t.linkGroups, r.linkGroups, (g, h) => GroupLeft(r, g, h), (g: LinkGroup) => |Filter(g.linkIds, id => LinkKnown(r, id))| >= 2)
    && Follow(t.switchSystems, r.switchSystems, (s, u) => SystemLeft(r, s, u),
              (s: SwitchSystem) => |Filter(s.deviceIds, id => DeviceKnown(r, id))| >= 2)
    && Follow(t.firewallClusters, r.firewallClusters, (c, e) => ClusterLeft(r, c, e),
              (c: FirewallCluster) => |Filter(c.deviceIds, id => DeviceKnown(r, id))| >= 2)
  }

  lemma {:induction false} MapThenFilter<T>(s: seq<T>, f: T -> T, keep: T -> bool)
    ensures Filter(Map(s, f), keep) == Map(Filter(s, x => keep(f(x))), f)
  {
    if s != [] {
      var front, last := s[..|s| - 1], s[|s| - 1];
      MapThenFilter(front, f, keep);
      assert Map(s, f)[..|s| - 1] == Map(front, f) && Map(s, f)[|s| - 1] == f(last);
      var kept := Filter(front, x => keep(f(x)));
      assert Map(kept + [last], f) == Map(kept, f) + [f(last)];
    }
  }

  lemma FollowsMap<T(!new)>(before: seq<T>, after: seq<T>, f: T -> T, keep: T -> bool, left: (T, T) -> bool, enough: T -> bool)
    requires after == Filter(Map(before, f), keep)
    requires forall x | x in before :: (keep(f(x)) <==> enough(x)) && (enough(x) ==> left(x, f(x)))
    ensures Follow(before, after, left, enough)
  {
    MapThenFilter(before, f, keep);
    FilterSame(before, x => keep(f(x)), enough);
    var kept := Filter(before, enough);
    forall k | 0 <= k < |kept| ensures left(kept[k], after[k]) { assert kept[k] in kept; }
  }

  lemma LinksKnownAs(c: Topology, r: Topology, ids: seq<Id>)
    requires r.links == c.links
    ensures Surviving(ids, LinkNames(c)) == Filter(ids, id => LinkKnown(r, id))
  {
    hide LinkNames, LinkKnown;
    KnownNames(c);
    SameLinkNames(c, r);
    SameLinkNames(r, c);
    FilterSame(ids, id => id in LinkNames(c), id => LinkKnown(r, id));
  }

  lemma DevicesKnownAs(c: Topology, r: Topology, ids: seq<Id>)
    requires r.devices == c.devices
    ensures Surviving(ids, DeviceNames(c)) == Filter(ids, id => DeviceKnown(r, id))
  {
    hide DeviceNames, DeviceKnown;
    KnownNames(c);
    SameDeviceFacts(c, r);
    SameDeviceFacts(r, c);
    FilterSame(ids, id => id in DeviceNames(c), id => DeviceKnown(r, id));
  }

  lemma GroupsFollow(c: Topology, r: Topology)
    requires r.links == c.links && r.linkGroups == PrunedGroups(c.linkGroups, LinkNames(c))
    ensures Follow(c.linkGroups, r.linkGroups, (g, h) => GroupLeft(r, g, h), (g: LinkGroup) => |Filter(g.linkIds, id => LinkKnown(r, id))| >= 2)
  {
    hide Surviving, LinkNames, LinkKnown, Filter, Map, Follow;
    var known := LinkNames(c);
    forall g | g in c.linkGroups
      ensures |PrunedGroup(g, known).linkIds| >= 2 <==> |Filter(g.linkIds, id => LinkKnown(r, id))| >= 2
      ensures |PrunedGroup(g, known).linkIds| >= 2 ==> GroupLeft(r, g, PrunedGroup(g, known))
    {
      LinksKnownAs(c, r, g.linkIds);
    }
    FollowsMap(c.linkGroups, r.linkGroups, g => PrunedGroup(g, known), (g: LinkGroup) => |g.linkIds| >= 2,
               (g, h) => GroupLeft(r, g, h), (g: LinkGroup) => |Filter(g.linkIds, id => LinkKnown(r, id))| >= 2);
  }

  lemma SystemsFollow(c: Topology, r: Topology)
    requires r.devices == c.devices && r.switchSystems == PrunedSystems(c.switchSystems, DeviceNames(c))
    ensures Follow(c.switchSystems, r.switchSystems, (s, u) => SystemLeft(r, s, u),
                   (s: SwitchSystem) => |Filter(s.deviceIds, id => DeviceKnown(r, id))| >= 2)
  {
    hide Surviving, DeviceNames, DeviceKnown, Filter, Map, Follow;
    var known := DeviceNames(c);
    forall s | s in c.switchSystems
      ensures |PrunedSystem(s, known).deviceIds| >= 2 <==> |Filter(s.deviceIds, id => DeviceKnown(r, id))| >= 2
      ensures |PrunedSystem(s, known).deviceIds| >= 2 ==> SystemLeft(r, s, PrunedSystem(s, known))
    {
      DevicesKnownAs(c, r, s.deviceIds);
    }
    FollowsMap(c.switchSystems, r.switchSystems, s => PrunedSystem(s, known), (s: SwitchSystem) => |s.deviceIds| >= 2,
               (s, u) => SystemLeft(r, s, u), (s: SwitchSystem) => |Filter(s.deviceIds, id => DeviceKnown(r, id))| >= 2);
  }

  lemma ClustersFollow(c: Topology, r: Topology)
    requires r.devices == c.devices && r.firewallClusters == PrunedClusters(c.firewallClusters, DeviceNames(c))
    ensures Follow(c.firewallClusters, r.firewallClusters, (e, u) => ClusterLeft(r, e, u),
                   (e: FirewallCluster) => |Filter(e.deviceIds, id => DeviceKnown(r, id))| >= 2)
  {
    hide Surviving, DeviceNames, DeviceKnown, Filter, Map, Follow;
    var known := DeviceNames(c);
    forall e | e in c.firewallClusters
      ensures |PrunedCluster(e, known).deviceIds| >= 2 <==> |Filter(e.deviceIds, id => DeviceKnown(r, id))| >= 2
      ensures |PrunedCluster(e, known).deviceIds| >= 2 ==> ClusterLeft(r, e, PrunedCluster(e, known))
    {
      DevicesKnownAs(c, r, e.deviceIds);
    }
    FollowsMap(c.firewallClusters, r.firewallClusters, e => PrunedCluster(e, known), (e: FirewallCluster) => |e.deviceIds| >= 2,
               (e, u) => ClusterLeft(r, e, u), (e: FirewallCluster) => |Filter(e.deviceIds, id => DeviceKnown(r, id))| >= 2);
  }

  /** Whatever was cut out, what refers to it follows. */
  lemma PruningFollows(t: Topology, c: Topology)
    requires AttachmentsValid(t) && c == t.(racks := c.racks, devices := c.devices, links := c.links)
    ensures var r := Pruned(c);
            && r.racks == c.racks && r.devices == c.devices && r.links == c.links && r.id == t.id && r.rooms == t.rooms
            && r.vlans == t.vlans && r.annotations == t.annotations
            && MembersFollow(t, r) && AttachmentsFollow(t, r)
  {
    hide PrunedGroups, PrunedSystems, PrunedClusters, LinkNames, DeviceNames, Follow, AttachmentsFollow, Filter, KeepsThread,
         DocumentValid, PhotoValid;
    var r := Pruned(c);
    var c3 := ClustersPruned(SystemsPruned(GroupsPruned(c)));
    AttachmentsPruned(t, c3);
    NamesStay(c, GroupsPruned(c));
    NamesStay(c, SystemsPruned(GroupsPruned(c)));
    GroupsFollow(c, r);
    SystemsFollow(c, r);
    ClustersFollow(c, r);
  }

  lemma NamesStay(c: Topology, d: Topology)
    requires d.devices == c.devices && d.links == c.links
    ensures DeviceNames(d) == DeviceNames(c) && LinkNames(d) == LinkNames(c)
  {
  }

  // ----- the deletions

  /** Deleting a device takes it and the links that end at it, and nothing else but
      what refers to them. */
  lemma DeviceDeleted(t: Topology, i: nat)
    requires Valid(t) && i < |t.devices|
    ensures var r := WithoutDevice(t, i);
            && r == t.(devices := RemoveAt(t.devices, i), links := r.links, linkGroups := r.linkGroups, switchSystems := r.switchSystems,
                       firewallClusters := r.firewallClusters, threads := r.threads, documents := r.documents, photos := r.photos)
            && r.links == Filter(t.links, (l: Link) => l.sourceDeviceId != t.devices[i].id && l.targetDeviceId != t.devices[i].id)
            && MembersFollow(t, r) && AttachmentsFollow(t, r)
  {
    hide RacksValid, DevicesValid, LinksValid, GroupsValid, SystemsValid, ClustersValid, AttachmentsValid, MembersFollow, AttachmentsFollow,
         PrunedGroups, PrunedSystems, PrunedClusters, LinkNames, DeviceNames, KeepsThread, DocumentValid, PhotoValid;
    PruningFollows(t, CutDevice(t, i));
    FilterSame(t.links, l => !Touches(l, t.devices[i].id),
               (l: Link) => l.sourceDeviceId != t.devices[i].id && l.targetDeviceId != t.devices[i].id);
  }

  /** The device was mounted in the rack, and now stands in its room. */
  predicate PutInRoom(d: Device, rack: Rack, d': Device) {
    d' == if d.rackId == rack.id then d.(rackId := "", rackUnit := 0, rackFace := NoFace, roomId := rack.roomId) else d
  }

  /** Deleting a rack takes it, puts the devices mounted in it into its room, and
      leaves all else but what refers to it. */
  lemma RackDeleted(t: Topology, i: nat)
    requires Valid(t) && i < |t.racks|
    ensures var r := WithoutRack(t, i);
            && r == t.(racks := RemoveAt(t.racks, i), devices := r.devices, threads := r.threads, documents := r.documents, photos := r.photos)
            && |r.devices| == |t.devices| && (forall k | 0 <= k < |t.devices| :: PutInRoom(t.devices[k], t.racks[i], r.devices[k]))
            && AttachmentsFollow(t, r)
  {
    hide RacksValid, DevicesValid, LinksValid, GroupsValid, SystemsValid, ClustersValid, AttachmentsValid, AttachmentsFollow, KeepsThread,
         DocumentValid, PhotoValid, Filter;
    AttachmentsPruned(t, CutRack(t, i));
  }

  /** The cable ends at the front of the port. */
  predicate AtFront(l: Link, port: Id) {
    (port == l.sourcePortId && !l.sourceSide.Rear?) || (port == l.targetPortId && !l.targetSide.Rear?)
  }

  /** The port is switched off when the link was the only one at its front. */
  ghost predicate SwitchedOff(p: Port, removed: Link, links: seq<Link>, p': Port) {
    p' == if AtFront(removed, p.id) && (forall l | l in links :: !AtFront(l, p.id)) then p.(status := Down) else p
  }

  lemma FrontPortsAre(l: Link)
    ensures forall port :: port in FrontPorts(l) <==> AtFront(l, port)
  {
  }

  lemma StatusFollows(devices: seq<Device>, removed: Link, links: seq<Link>)
    ensures var r := Deactivated(devices, removed, links);
            && |r| == |devices|
            && forall k | 0 <= k < |devices| ::
                 && r[k] == devices[k].(ports := r[k].ports) && |r[k].ports| == |devices[k].ports|
                 && forall j | 0 <= j < |devices[k].ports| :: SwitchedOff(devices[k].ports[j], removed, links, r[k].ports[j])
  {
    hide FrontPorts, AtFront;
    FrontPortsAre(removed);
    forall l | l in links ensures forall port :: port in FrontPorts(l) <==> AtFront(l, port) { FrontPortsAre(l); }
    forall port ensures port in Unlinked(removed, links) <==> AtFront(removed, port) && forall l | l in links :: !AtFront(l, port) {}
  }

  /** Deleting a link takes it, switches off the ports it leaves bare, and leaves all
      else but what refers to it. */
  lemma LinkDeleted(t: Topology, i: nat)
    requires Valid(t) && i < |t.links|
    ensures var r := WithoutLink(t, i);
            && r == t.(devices := r.devices, links := RemoveAt(t.links, i), linkGroups := r.linkGroups,
                       threads := r.threads, documents := r.documents, photos := r.photos)
            && |r.devices| == |t.devices|
            && (forall k | 0 <= k < |t.devices| ::
                  && r.devices[k] == t.devices[k].(ports := r.devices[k].ports) && |r.devices[k].ports| == |t.devices[k].ports|
                  && forall j | 0 <= j < |t.devices[k].ports| ::
                       SwitchedOff(t.devices[k].ports[j], t.links[i], r.links, r.devices[k].ports[j]))
            && Follow(t.linkGroups, r.linkGroups, (g, h) => GroupLeft(r, g, h), (g: LinkGroup) => |Filter(g.linkIds, id => LinkKnown(r, id))| >= 2)
            && AttachmentsFollow(t, r)
  {
    hide RacksValid, DevicesValid, LinksValid, GroupsValid, SystemsValid, ClustersValid, AttachmentsValid, AttachmentsFollow, KeepsThread,
         DocumentValid, PhotoValid, Filter, PrunedGroups, LinkNames, Deactivated, SwitchedOff, GroupLeft, Follow, LinkKnown;
    var c := CutLink(t, i);
    StatusFollows(t.devices, t.links[i], RemoveAt(t.links, i));
    AttachmentsPruned(t, GroupsPruned(c));
    GroupsFollow(c, WithoutLink(t, i));
  }
}
