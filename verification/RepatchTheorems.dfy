/** What a repatch keeps, on every valid topology: one cable on each side of a
    port, two different ports on each cable, and the number of terminations in
    use. */
module RepatchTheorems {
  import opened Outcomes
  import opened Text
  import opened Sorting
  import opened Lists
  import opened Topology
  import opened Validation
  import opened Draft
  import opened Repatch

  /** The terminations in use. */
  ghost function InUse(links: seq<Link>): set<Termination> { set l, x | l in links && x in Terminations(l) :: x }

  predicate Apart(l: Link, m: Link) { Terminations(l) !! Terminations(m) }

  /** At most one cable on each side of a port, and no cable from a port to
      itself. */
  ghost predicate Seated(links: seq<Link>) {
    Pairwise(links, Apart) && forall l | l in links :: l.sourcePortId != l.targetPortId
  }

  /** Cables run from front to front or from rear to rear. */
  predicate OnePlane(l: Link) { l.EffectiveSourceSide() == l.EffectiveTargetSide() }

  lemma ValidSeated(t: Topology)
    requires LinksValid(t)
    ensures Seated(t.links) && forall l | l in t.links :: OnePlane(l)
  {
    hide LinkAnchored, Terminations, SameChannel;
    forall i, j | 0 <= i < j < |t.links| ensures Apart(t.links[i], t.links[j]) {
      assert LinksDiffer(t.links[i], t.links[j]);
    }
  }

  function OtherEnd(e: CableEnd): CableEnd { if e.AtSource? then AtTarget else AtSource }

  lemma EndsOfLink(l: Link, e: CableEnd)
    ensures Terminations(l) == {EndOf(l, e), EndOf(l, OtherEnd(e))}
    ensures OnePlane(l) <==> EndOf(l, e).side == EndOf(l, OtherEnd(e)).side
    ensures l.sourcePortId != l.targetPortId <==> EndOf(l, e).portId != EndOf(l, OtherEnd(e)).portId
  {
  }

  lemma EndReplaced(l: Link, e: CableEnd, device: Id, port: Id)
    ensures EndOf(WithEnd(l, e, device, port), e) == Termination(port, EndOf(l, e).side)
    ensures EndOf(WithEnd(l, e, device, port), OtherEnd(e)) == EndOf(l, OtherEnd(e))
    ensures WithEnd(l, e, device, port).id == l.id
  {
  }

  lemma SeatedAt(links: seq<Link>, i: nat, j: nat)
    requires Seated(links) && i < |links| && j < |links| && i != j
    ensures Terminations(links[i]) !! Terminations(links[j])
    ensures links[i].sourcePortId != links[i].targetPortId
  {
    hide Terminations;
    assert links[i] in links;
    assert if i < j then Apart(links[i], links[j]) else Apart(links[j], links[i]);
  }

  // ----- a move

  /** The cable end moves to a termination nothing ends at. */
  ghost predicate MoveOf(links: seq<Link>, i: nat, e: CableEnd, port: Port) {
    && i < |links| && port.id != links[i].sourcePortId && port.id != links[i].targetPortId
    && Termination(port.id, EndOf(links[i], e).side) !in InUse(links)
  }

  lemma MoveSeated(links: seq<Link>, i: nat, e: CableEnd, port: Port)
    requires Seated(links) && MoveOf(links, i, e, port)
    ensures Seated(Moved(links, i, e, port))
  {
    hide InUse, Terminations, WithEnd;
    var l, l' := links[i], Moved(links, i, e, port)[i];
    EndsOfLink(l, e);
    EndsOfLink(l', e);
    EndReplaced(l, e, port.deviceId, port.id);
    forall k | 0 <= k < |links| && k != i ensures Apart(links[k], l') && Apart(l', links[k]) {
      SeatedAt(links, i, k);
      NotInUse(links, k, EndOf(l', e));
    }
    UpdatePairwise(links, i, l', Apart);
    assert forall m | m in Moved(links, i, e, port) :: m in links || m == l';
  }

  lemma NotInUse(links: seq<Link>, k: nat, x: Termination)
    requires k < |links|
    ensures x in Terminations(links[k]) ==> x in InUse(links)
  {
    assert links[k] in links;
  }

  lemma InUseAt(links: seq<Link>, x: Termination)
    ensures x in InUse(links) <==> exists k :: 0 <= k < |links| && x in Terminations(links[k])
  {
    if x in InUse(links) {
      var l :| l in links && x in Terminations(l);
      var k :| 0 <= k < |links| && links[k] == l;
    }
    if k :| 0 <= k < |links| && x in Terminations(links[k]) { NotInUse(links, k, x); }
  }

  /** A move frees the termination the end came from and takes the one it goes
      to; nothing else changes hands. */
  lemma MoveFreesOne(links: seq<Link>, i: nat, e: CableEnd, port: Port)
    requires Seated(links) && MoveOf(links, i, e, port)
    ensures InUse(Moved(links, i, e, port)) ==
      InUse(links) - {EndOf(links[i], e)} + {Termination(port.id, EndOf(links[i], e).side)}
  {
    hide InUse, Terminations, WithEnd, Seated;
    var moved := Moved(links, i, e, port);
    var gone, taken := EndOf(links[i], e), Termination(port.id, EndOf(links[i], e).side);
    forall x ensures x in InUse(moved) <==> x in InUse(links) - {gone} + {taken} {
      InUseAt(links, x);
      InUseAt(moved, x);
      MovedTermination(links, i, e, port, x);
    }
  }

  lemma MovedTermination(links: seq<Link>, i: nat, e: CableEnd, port: Port, x: Termination)
    requires Seated(links) && MoveOf(links, i, e, port)
    ensures var moved := Moved(links, i, e, port);
            var gone, taken := EndOf(links[i], e), Termination(port.id, EndOf(links[i], e).side);
            (exists k :: 0 <= k < |moved| && x in Terminations(moved[k])) <==>
              x == taken || (x != gone && exists k :: 0 <= k < |links| && x in Terminations(links[k]))
  {
    hide InUse, Terminations, WithEnd, Seated;
    var moved := Moved(links, i, e, port);
    EndsOfLink(links[i], e);
    EndsOfLink(moved[i], e);
    EndReplaced(links[i], e, port.deviceId, port.id);
    if k :| 0 <= k < |moved| && x in Terminations(moved[k]) {
      if k != i {
        SeatedAt(links, i, k);
        assert x in Terminations(links[k]);
      } else {
        SourceNotTarget(links, i, e);
        assert x in Terminations(links[i]) || x == EndOf(moved[i], e);
      }
    }
    if x == Termination(port.id, EndOf(links[i], e).side) { assert x in Terminations(moved[i]); }
    if k :| 0 <= k < |links| && x in Terminations(links[k]) && x != EndOf(links[i], e) {
      assert x in Terminations(moved[k]);
    }
  }

  lemma SourceNotTarget(links: seq<Link>, i: nat, e: CableEnd)
    requires Seated(links) && i < |links|
    ensures EndOf(links[i], e) != EndOf(links[i], OtherEnd(e))
  {
    assert links[i] in links;
  }

  // ----- a swap

  /** Two cables exchange an end each. */
  ghost predicate SwapOf(links: seq<Link>, i: nat, e: CableEnd, j: Place, port: Port) {
    && i < |links| && j.index < |links| && i != j.index
    && EndOf(links[j.index], j.end) == Termination(port.id, EndOf(links[i], e).side)
    && port.id != links[i].sourcePortId && port.id != links[i].targetPortId
    && OnePlane(links[i]) && OnePlane(links[j.index])
  }

  lemma SwappedAt(links: seq<Link>, i: nat, e: CableEnd, j: Place, port: Port)
    requires SwapOf(links, i, e, j, port)
    ensures var r := Swapped(links, i, e, j, port);
            && (forall k | 0 <= k < |links| && k != i && k != j.index :: r[k] == links[k])
            && Terminations(r[i]) == {EndOf(links[j.index], j.end), EndOf(links[i], OtherEnd(e))}
            && Terminations(r[j.index]) == {EndOf(links[i], e), EndOf(links[j.index], OtherEnd(j.end))}
            && EndOf(r[i], e) == EndOf(links[j.index], j.end) && EndOf(r[i], OtherEnd(e)) == EndOf(links[i], OtherEnd(e))
            && EndOf(r[j.index], j.end) == EndOf(links[i], e)
            && EndOf(r[j.index], OtherEnd(j.end)) == EndOf(links[j.index], OtherEnd(j.end))
            && r[i].id == links[i].id && r[j.index].id == links[j.index].id
  {
    hide Terminations, WithEnd, EndOf, OnePlane;
    var r := Swapped(links, i, e, j, port);
    EndReplaced(links[j.index], j.end, EndDevice(links[i], e), EndOf(links[i], e).portId);
    EndReplaced(links[i], e, port.deviceId, port.id);
    EndsOfLink(r[i], e);
    EndsOfLink(r[j.index], j.end);
  }

  /** The four ends of the two cables are four different terminations. */
  lemma FourEnds(links: seq<Link>, i: nat, e: CableEnd, j: Place, port: Port)
    requires Seated(links) && SwapOf(links, i, e, j, port)
    ensures var a, b := EndOf(links[i], e), EndOf(links[i], OtherEnd(e));
            var c, d := EndOf(links[j.index], j.end), EndOf(links[j.index], OtherEnd(j.end));
            a.portId != b.portId && c != d && {a, b} !! {c, d} && c.portId != b.portId && a.portId != d.portId
  {
    hide Terminations;
    SeatedAt(links, i, j.index);
    SeatedAt(links, j.index, i);
    EndsOfLink(links[i], e);
    EndsOfLink(links[j.index], j.end);
  }

  lemma SwapSeated(links: seq<Link>, i: nat, e: CableEnd, j: Place, port: Port)
    requires Seated(links) && SwapOf(links, i, e, j, port)
    ensures Seated(Swapped(links, i, e, j, port))
  {
    hide Terminations, EndOf, OnePlane;
    var r := Swapped(links, i, e, j, port);
    SwappedAt(links, i, e, j, port);
    FourEnds(links, i, e, j, port);
    EndsOfLink(links[i], e);
    EndsOfLink(links[j.index], j.end);
    forall k, m | 0 <= k < m < |r| ensures Apart(r[k], r[m]) {
      SwapApart(links, i, e, j, port, k, m);
    }
    forall x | x in r ensures x.sourcePortId != x.targetPortId {
      var k :| 0 <= k < |r| && r[k] == x;
      if k == i {
        EndsOfLink(r[i], e);
      } else if k == j.index {
        EndsOfLink(r[k], j.end);
      } else {
        assert x in links;
      }
    }
  }

  lemma SwapApart(links: seq<Link>, i: nat, e: CableEnd, j: Place, port: Port, k: nat, m: nat)
    requires Seated(links) && SwapOf(links, i, e, j, port) && k < |links| && m < |links| && k != m
    ensures Apart(Swapped(links, i, e, j, port)[k], Swapped(links, i, e, j, port)[m])
  {
    hide Terminations, EndOf, OnePlane, Seated, Swapped;
    SwappedAt(links, i, e, j, port);
    FourEnds(links, i, e, j, port);
    EndsOfLink(links[i], e);
    EndsOfLink(links[j.index], j.end);
    if k != i { SeatedAt(links, k, i); }
    if k != j.index { SeatedAt(links, k, j.index); }
    if m != i { SeatedAt(links, m, i); }
    if m != j.index { SeatedAt(links, m, j.index); }
    SeatedAt(links, k, m);
  }

  /** A swap leaves exactly the same terminations in use. */
  lemma SwapKeepsUse(links: seq<Link>, i: nat, e: CableEnd, j: Place, port: Port)
    requires SwapOf(links, i, e, j, port)
    ensures InUse(Swapped(links, i, e, j, port)) == InUse(links)
  {
    hide InUse, Terminations, Swapped, OnePlane;
    var r := Swapped(links, i, e, j, port);
    forall x ensures x in InUse(r) <==> x in InUse(links) {
      InUseAt(links, x);
      InUseAt(r, x);
      SwappedTermination(links, i, e, j, port, x);
    }
  }

  lemma SwappedTermination(links: seq<Link>, i: nat, e: CableEnd, j: Place, port: Port, x: Termination)
    requires SwapOf(links, i, e, j, port)
    ensures (exists k :: 0 <= k < |links| && x in Terminations(Swapped(links, i, e, j, port)[k])) <==>
            exists k :: 0 <= k < |links| && x in Terminations(links[k])
  {
    hide Terminations, EndOf, OnePlane, Swapped;
    var r := Swapped(links, i, e, j, port);
    SwappedAt(links, i, e, j, port);
    EndsOfLink(links[i], e);
    EndsOfLink(links[j.index], j.end);
    assert Terminations(r[i]) + Terminations(r[j.index]) == Terminations(links[i]) + Terminations(links[j.index]);
    if k :| 0 <= k < |links| && x in Terminations(r[k]) {
      assert x in Terminations(links[k]) || x in Terminations(links[i]) || x in Terminations(links[j.index]);
    }
    if k :| 0 <= k < |links| && x in Terminations(links[k]) {
      assert x in Terminations(r[k]) || x in Terminations(r[i]) || x in Terminations(r[j.index]);
    }
  }

  // ----- the whole operation

  lemma PortsOfDevice(t: Topology, device: Id, port: Id)
    requires DevicesValid(t) && PortOn(t.devices, device, port)
    ensures var p := LastPort(t.devices, port); p.Some? && p.value.id == port && p.value.deviceId == device
  {
    hide Mounted, VlansKnown, Overlap, LastPort;
    var d, p :| d in t.devices && d.id == device && p in d.ports && p.id == port;
    SomePort(t.devices, d, p);
    LastPortFound(t.devices, port);
    var q := LastPort(t.devices, port).value;
    var e :| e in t.devices && q in e.ports;
    SamePort(t, d, e, p, q);
    assert DeviceValid(t, d) && PortValid(t, p, d.id);
  }

  lemma {:induction false} SomePort(devices: seq<Device>, d: Device, p: Port)
    requires d in devices && p in d.ports
    ensures LastPort(devices, p.id).Some?
  {
    hide LastIn;
    var last := devices[|devices| - 1];
    if last == d {
      SomePortIn(d.ports, p);
    } else {
      assert devices == devices[..|devices| - 1] + [last];
      SomePort(devices[..|devices| - 1], d, p);
    }
  }

  lemma {:induction false} SomePortIn(ports: seq<Port>, p: Port)
    requires p in ports
    ensures LastIn(ports, p.id).Some?
  {
    var last := ports[|ports| - 1];
    if last.id != p.id {
      assert ports == ports[..|ports| - 1] + [last];
      SomePortIn(ports[..|ports| - 1], p);
    }
  }

  lemma OccupantUnique(links: seq<Link>, k: nat, e: CableEnd)
    requires Seated(links) && k < |links|
    ensures Occupant(links, EndOf(links[k], e)) == Some(Place(k, e))
  {
    hide Occupant, Terminations, Seated, EndOf;
    var found := Occupant(links, EndOf(links[k], e));
    assert links[k] in links;
    assert found.Some?;
    var j := found.value;
    EndsOfLink(links[k], e);
    EndsOfLink(links[j.index], j.end);
    if j.index != k { SeatedAt(links, k, j.index); }
    SourceNotTarget(links, k, e);
  }

  lemma RepatchedSwap(t: Topology, r: Request, t': Topology) returns (i: nat, j: Place, port: Port)
    requires Valid(t) && Repatched(t, r) == Ok(t') && r.swapLinkId != ""
    ensures i == LinkIndex(t.links, r.linkId) && i < |t.links| && SwapOf(t.links, i, r.end, j, port)
    ensures LastPort(t.devices, r.portId) == Some(port) && port.id == r.portId && t.links[j.index].id == r.swapLinkId
    ensures t' == t.(links := Swapped(t.links, i, r.end, j, port))
  {
    hide Deactivated, MapAllPorts, Swapped, DevicesValid, AttachmentsValid, GroupsValid, SystemsValid, ClustersValid, RacksValid,
         LastPort, LinkIndex, EndOf;
    i := LinkIndex(t.links, r.linkId);
    ValidSeated(t);
    var l := t.links[i];
    port := LastPort(t.devices, r.portId).value;
    LastPortFound(t.devices, r.portId);
    j := Occupant(t.links, Termination(r.portId, EndOf(l, r.end).side)).value;
    assert t.links[i] in t.links && t.links[j.index] in t.links;
    EndPorts(l, j.end);
  }

  lemma EndPorts(l: Link, e: CableEnd)
    ensures EndOf(l, e).portId == l.sourcePortId || EndOf(l, e).portId == l.targetPortId
  {
  }

  lemma RepatchedMove(t: Topology, r: Request, t': Topology) returns (i: nat, port: Port)
    requires Valid(t) && Repatched(t, r) == Ok(t') && r.swapLinkId == ""
    ensures i == LinkIndex(t.links, r.linkId) && i < |t.links| && MoveOf(t.links, i, r.end, port)
    ensures LastPort(t.devices, r.portId) == Some(port) && port.id == r.portId
    ensures var links := Moved(t.links, i, r.end, port);
            t' == t.(links := links, devices :=
              if EndOf(t.links[i], r.end).side.Front? then Deactivated(MapAllPorts(t.devices, SetStatus({port.id}, Up)), t.links[i], links)
              else t.devices)
  {
    hide Deactivated, MapAllPorts, Moved, DevicesValid, AttachmentsValid, GroupsValid, SystemsValid, ClustersValid, RacksValid,
         LastPort, LinkIndex, EndOf;
    i := LinkIndex(t.links, r.linkId);
    var l := t.links[i];
    port := LastPort(t.devices, r.portId).value;
    LastPortFound(t.devices, r.portId);
    var at := Termination(r.portId, EndOf(l, r.end).side);
    assert Occupant(t.links, at).None? by { OccupantNamed(t, r); }
    FreeNotInUse(t.links, at);
  }

  /** A valid topology's links have identifiers, so an empty request names none. */
  lemma OccupantNamed(t: Topology, r: Request)
    requires LinksValid(t) && Repatched(t, r).Ok? && r.swapLinkId == ""
    ensures var i := LinkIndex(t.links, r.linkId);
            i < |t.links| && Occupant(t.links, Termination(r.portId, EndOf(t.links[i], r.end).side)).None?
  {
    hide Deactivated, MapAllPorts, Moved, LastPort, LinkIndex, EndOf, LinkAnchored, Terminations;
    forall l | l in t.links ensures l.id != "" { assert LinkWellFormed(l); }
  }

  lemma FreeNotInUse(links: seq<Link>, at: Termination)
    requires Occupant(links, at).None?
    ensures at !in InUse(links)
  {
    hide Occupant;
    forall l | l in links ensures at !in Terminations(l) {
      assert EndOf(l, AtSource) != at && EndOf(l, AtTarget) != at;
    }
  }

  /** After a successful repatch there is still one cable on each side of a
      port and no cable from a port to itself. A move frees the termination the
      end came from and takes the one it goes to; a swap leaves the same
      terminations in use. */
  lemma RepatchKeepsSeats(t: Topology, r: Request, t': Topology)
    requires Valid(t) && Repatched(t, r) == Ok(t')
    ensures Seated(t'.links)
    ensures LinkIndex(t.links, r.linkId) < |t.links|
    ensures var from := EndOf(t.links[LinkIndex(t.links, r.linkId)], r.end);
            && from in InUse(t.links)
            && (if r.swapLinkId == "" then
                  && Termination(r.portId, from.side) !in InUse(t.links)
                  && InUse(t'.links) == InUse(t.links) - {from} + {Termination(r.portId, from.side)}
                else InUse(t'.links) == InUse(t.links) && t'.devices == t.devices)
  {
    hide Valid, Repatched, LinkIndex, Swapped, Moved, InUse, Seated, EndOf, OnePlane, Terminations, Deactivated, MapAllPorts;
    assert LinksValid(t) by { ValidHasLinks(t); }
    ValidSeated(t);
    if r.swapLinkId == "" {
      var i, port := RepatchedMove(t, r, t');
      MoveSeated(t.links, i, r.end, port);
      MoveFreesOne(t.links, i, r.end, port);
      EndInUse(t.links, i, r.end);
    } else {
      var i, j, port := RepatchedSwap(t, r, t');
      SwapSeated(t.links, i, r.end, j, port);
      SwapKeepsUse(t.links, i, r.end, j, port);
      EndInUse(t.links, i, r.end);
    }
  }

  lemma ValidHasLinks(t: Topology)
    requires Valid(t)
    ensures LinksValid(t) && DevicesValid(t)
  {
    hide LinksValid, DevicesValid;
  }

  lemma EndInUse(links: seq<Link>, i: nat, e: CableEnd)
    requires i < |links|
    ensures EndOf(links[i], e) in InUse(links)
  {
    assert links[i] in links && EndOf(links[i], e) in Terminations(links[i]);
  }

  // ----- and back

  lemma SameIndex(a: seq<Link>, b: seq<Link>, id: Id)
    requires |a| == |b| && forall k | 0 <= k < |a| :: a[k].id == b[k].id
    ensures LinkIndex(a, id) == LinkIndex(b, id)
  {
    var i, j := LinkIndex(a, id), LinkIndex(b, id);
    assert i < |a| ==> a[i].id == b[i].id;
    assert j < |a| ==> a[j].id == b[j].id;
  }

  lemma EndAnchored(t: Topology, l: Link, e: CableEnd)
    requires Valid(t) && l in t.links
    ensures var p := LastPort(t.devices, EndOf(l, e).portId);
            p.Some? && p.value.id == EndOf(l, e).portId && p.value.deviceId == EndDevice(l, e)
  {
    hide DevicesValid, AttachmentsValid, GroupsValid, SystemsValid, ClustersValid, RacksValid, LastPort, LinkWellFormed, PortOn;
    assert LinkAnchored(t, l);
    PortsOfDevice(t, EndDevice(l, e), EndOf(l, e).portId);
  }

  lemma EndRestored(l: Link, e: CableEnd, device: Id, port: Id)
    ensures WithEnd(WithEnd(l, e, device, port), e, EndDevice(l, e), EndOf(l, e).portId) == l
    ensures EndDevice(WithEnd(l, e, device, port), e) == device
    ensures EndOf(WithEnd(l, e, device, port), e).portId == port
  {
  }

  lemma SwappedTwice(links: seq<Link>, i: nat, e: CableEnd, j: Place, port: Port, back: Port)
    requires SwapOf(links, i, e, j, port)
    requires port.deviceId == EndDevice(links[j.index], j.end)
    requires back.id == EndOf(links[i], e).portId && back.deviceId == EndDevice(links[i], e)
    ensures Swapped(Swapped(links, i, e, j, port), i, e, j, back) == links
  {
    hide WithEnd, EndOf, EndDevice, OnePlane;
    EndRestored(links[i], e, port.deviceId, port.id);
    EndRestored(links[j.index], j.end, EndDevice(links[i], e), EndOf(links[i], e).portId);
  }

  /** Asking for the opposite exchange restores the topology. */
  lemma SwapBackRestores(t: Topology, r: Request, t': Topology)
    requires Valid(t) && Repatched(t, r) == Ok(t') && r.swapLinkId != ""
    ensures var i := LinkIndex(t.links, r.linkId);
            i < |t.links| && Repatched(t', r.(portId := EndOf(t.links[i], r.end).portId)) == Ok(t)
  {
    hide *;
    var i, j, port := RepatchedSwap(t, r, t');
    ValidHasLinks(t);
    ValidSeated(t);
    SwapMembers(t.links, i, r.end, j, port);
    EndAnchored(t, t.links[i], r.end);
    EndAnchored(t, t.links[j.index], j.end);
    var back := LastPort(t.devices, EndOf(t.links[i], r.end).portId).value;
    SwapSeated(t.links, i, r.end, j, port);
    SwappedAt(t.links, i, r.end, j, port);
    SameIndex(t.links, t'.links, r.linkId);
    OccupantUnique(t'.links, j.index, j.end);
    FourEnds(t.links, i, r.end, j, port);
    SwappedTwice(t.links, i, r.end, j, port, back);
    RepatchesSwap(t', r.(portId := EndOf(t.links[i], r.end).portId), i, j, back);
    assert t == t'.(links := t.links);
  }

  lemma SwapMembers(links: seq<Link>, i: nat, e: CableEnd, j: Place, port: Port)
    requires SwapOf(links, i, e, j, port)
    ensures i < |links| && j.index < |links| && i != j.index && links[i] in links && links[j.index] in links
    ensures EndOf(links[j.index], j.end).portId == port.id
    ensures EndOf(links[j.index], j.end).side == EndOf(links[i], e).side
    ensures port.id != EndOf(links[i], e).portId
  {
  }

  /** When every test passes the repatch is the swap. */
  lemma RepatchesSwap(t: Topology, r: Request, i: nat, j: Place, port: Port)
    requires i == LinkIndex(t.links, r.linkId) && i < |t.links| && j.index < |t.links|
    requires r.portId != EndOf(t.links[i], r.end).portId && r.portId != EndOf(t.links[i], OtherEnd(r.end)).portId
    requires LastPort(t.devices, r.portId) == Some(port)
    requires Occupant(t.links, Termination(r.portId, EndOf(t.links[i], r.end).side)) == Some(j)
    requires r.swapLinkId == t.links[j.index].id
    ensures Repatched(t, r) == Ok(t.(links := Swapped(t.links, i, r.end, j, port)))
  {
    hide LinkIndex, LastPort, Occupant, Swapped, Deactivated, MapAllPorts;
  }

  lemma LastInMapped(ports: seq<Port>, f: Port -> Port, id: Id)
    requires forall p | p in ports :: f(p).id == p.id
    ensures LastIn(Map(ports, f), id) == match LastIn(ports, id) { case None => None case Some(p) => Some(f(p)) }
  {
    if ports != [] {
      assert Map(ports, f)[..|ports| - 1] == Map(ports[..|ports| - 1], f);
      LastInMapped(ports[..|ports| - 1], f, id);
    }
  }

  lemma {:induction false} LastPortMapped(devices: seq<Device>, f: Port -> Port, id: Id)
    requires forall p: Port :: f(p).id == p.id
    ensures LastPort(MapAllPorts(devices, f), id) == match LastPort(devices, id) { case None => None case Some(p) => Some(f(p)) }
  {
    hide LastIn;
    if devices != [] {
      assert MapAllPorts(devices, f)[..|devices| - 1] == MapAllPorts(devices[..|devices| - 1], f);
      LastPortMapped(devices[..|devices| - 1], f, id);
      LastInMapped(devices[|devices| - 1].ports, f, id);
    }
  }

  /** A moved end's new port is up and its old port is down; no other port
      changes. */
  function MovedStatus(to: Id, from: Id): Port -> Port {
    (p: Port) => if p.id == from then p.(status := Down) else if p.id == to then p.(status := Up) else p
  }

  lemma StatusesMapped(devices: seq<Device>, to: Id, from: Id)
    ensures MapAllPorts(MapAllPorts(devices, SetStatus({to}, Up)), SetStatus({from}, Down)) ==
            MapAllPorts(devices, MovedStatus(to, from))
  {
    var once := MapAllPorts(devices, SetStatus({to}, Up));
    forall k | 0 <= k < |devices|
      ensures MapPorts(once[k], SetStatus({from}, Down)) == MapPorts(devices[k], MovedStatus(to, from))
    {
      var p, q := MapPorts(once[k], SetStatus({from}, Down)).ports, MapPorts(devices[k], MovedStatus(to, from)).ports;
      assert |p| == |q| && forall i | 0 <= i < |p| :: p[i] == q[i];
      assert p == q;
    }
  }

  lemma OldPortUnlinked(links: seq<Link>, i: nat, e: CableEnd, port: Port)
    requires Seated(links) && MoveOf(links, i, e, port) && OnePlane(links[i]) && EndOf(links[i], e).side.Front?
    ensures Unlinked(links[i], Moved(links, i, e, port)) == {EndOf(links[i], e).portId}
  {
    hide InUse, WithEnd, Seated;
    var moved, from := Moved(links, i, e, port), EndOf(links[i], e);
    MoveFreesOne(links, i, e, port);
    EndReplaced(links[i], e, port.deviceId, port.id);
    assert moved[i] in moved && EndOf(links[i], OtherEnd(e)).portId in FrontPorts(moved[i]);
    assert EndOf(links[i], OtherEnd(e)).portId != from.portId by { SourceNotTarget(links, i, e); }
    forall m | m in moved ensures from.portId !in FrontPorts(m) {
      if from.portId in FrontPorts(m) { FrontInUse(moved, m, from.portId); assert false; }
    }
    assert FrontPorts(links[i]) == {from.portId, EndOf(links[i], OtherEnd(e)).portId};
  }

  lemma FrontInUse(links: seq<Link>, l: Link, port: Id)
    requires l in links && port in FrontPorts(l)
    ensures Termination(port, Front) in InUse(links)
  {
    assert SourceEnd(l) in Terminations(l) && TargetEnd(l) in Terminations(l);
  }

  lemma MoveSetsStatus(t: Topology, r: Request, t': Topology)
    requires Valid(t) && Repatched(t, r) == Ok(t') && r.swapLinkId == ""
    ensures var i := LinkIndex(t.links, r.linkId);
            && i < |t.links|
            && t'.devices == if EndOf(t.links[i], r.end).side.Front?
                             then MapAllPorts(t.devices, MovedStatus(r.portId, EndOf(t.links[i], r.end).portId))
                             else t.devices
  {
    hide Valid, Repatched, LinkIndex, Moved, MapAllPorts, Unlinked, EndOf, OnePlane, Seated;
    ValidHasLinks(t);
    ValidSeated(t);
    var i, port := RepatchedMove(t, r, t');
    assert t.links[i] in t.links;
    if EndOf(t.links[i], r.end).side.Front? {
      OldPortUnlinked(t.links, i, r.end, port);
      StatusesMapped(t.devices, r.portId, EndOf(t.links[i], r.end).portId);
    }
  }

  /** Moving the end back restores the cables. */
  lemma MoveBackRestores(t: Topology, r: Request, t': Topology)
    requires Valid(t) && Repatched(t, r) == Ok(t') && r.swapLinkId == ""
    ensures var i := LinkIndex(t.links, r.linkId);
            && i < |t.links|
            && var back := Repatched(t', r.(portId := EndOf(t.links[i], r.end).portId)); back.Ok? && back.value.links == t.links
  {
    hide *;
    var i, port := RepatchedMove(t, r, t');
    ValidHasLinks(t);
    ValidSeated(t);
    MoveMember(t.links, i, r.end, port);
    EndAnchored(t, t.links[i], r.end);
    var from := EndOf(t.links[i], r.end);
    MoveFreesOne(t.links, i, r.end, port);
    MoveSetsStatus(t, r, t');
    StatusKeepsPort(t, t', r.portId, from.portId, from.portId);
    var back := LastPort(t'.devices, from.portId).value;
    MovedIds(t.links, i, r.end, port);
    SameIndex(t.links, t'.links, r.linkId);
    NoneInUse(t'.links, from);
    EndReplaced(t.links[i], r.end, port.deviceId, port.id);
    EndRestored(t.links[i], r.end, port.deviceId, port.id);
    RepatchesMove(t', r.(portId := from.portId), i, back);
    MovedTwice(t.links, i, r.end, port, back);
  }

  lemma MoveMember(links: seq<Link>, i: nat, e: CableEnd, port: Port)
    requires Seated(links) && MoveOf(links, i, e, port)
    ensures i < |links| && links[i] in links
    ensures port.id != EndOf(links[i], e).portId && EndOf(links[i], e).portId != EndOf(links[i], OtherEnd(e)).portId
    ensures Moved(links, i, e, port)[i] == WithEnd(links[i], e, port.deviceId, port.id)
  {
    assert links[i] in links;
  }

  lemma MovedIds(links: seq<Link>, i: nat, e: CableEnd, port: Port)
    requires i < |links|
    ensures forall k | 0 <= k < |links| :: Moved(links, i, e, port)[k].id == links[k].id
  {
  }

  lemma MovedTwice(links: seq<Link>, i: nat, e: CableEnd, port: Port, back: Port)
    requires i < |links| && back.id == EndOf(links[i], e).portId && back.deviceId == EndDevice(links[i], e)
    ensures Moved(Moved(links, i, e, port), i, e, back) == links
  {
    hide WithEnd, EndOf, EndDevice;
    EndRestored(links[i], e, port.deviceId, port.id);
  }

  lemma NoneInUse(links: seq<Link>, at: Termination)
    requires at !in InUse(links)
    ensures Occupant(links, at).None?
  {
    hide Occupant, Terminations, EndOf;
    var found := Occupant(links, at);
    if found.Some? {
      EndInUse(links, found.value.index, found.value.end);
      assert false;
    }
  }

  lemma StatusKeepsPort(t: Topology, t': Topology, to: Id, from: Id, id: Id)
    requires LastPort(t.devices, id).Some?
    requires t'.devices == t.devices || t'.devices == MapAllPorts(t.devices, MovedStatus(to, from))
    ensures var p, q := LastPort(t.devices, id), LastPort(t'.devices, id);
            q.Some? && q.value.id == p.value.id && q.value.deviceId == p.value.deviceId
  {
    hide LastPort, MapAllPorts;
    LastPortMapped(t.devices, MovedStatus(to, from), id);
  }

  lemma RepatchesMove(t: Topology, r: Request, i: nat, port: Port)
    requires i == LinkIndex(t.links, r.linkId) && i < |t.links| && r.swapLinkId == ""
    requires r.portId != EndOf(t.links[i], r.end).portId && r.portId != EndOf(t.links[i], OtherEnd(r.end)).portId
    requires LastPort(t.devices, r.portId) == Some(port)
    requires Occupant(t.links, Termination(r.portId, EndOf(t.links[i], r.end).side)).None?
    ensures Repatched(t, r).Ok? && Repatched(t, r).value.links == Moved(t.links, i, r.end, port)
  {
    hide LinkIndex, LastPort, Occupant, Moved, Deactivated, MapAllPorts;
  }
}
