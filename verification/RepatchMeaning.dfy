/** When a repatch is refused, and where the cable ends are after one, in the
    topology's own terms. */
module RepatchMeaning {
  import opened Outcomes
  import opened Text
  import opened Sorting
  import opened Lists
  import opened Topology
  import opened Validation
  import opened Draft
  import opened Repatch
  import opened RepatchTheorems

  /** The cable ends at that side of the port. */
  predicate At(l: Link, port: Id, side: Side) {
    || (l.sourcePortId == port && l.EffectiveSourceSide() == side)
    || (l.targetPortId == port && l.EffectiveTargetSide() == side)
  }

  predicate Touches(l: Link, port: Id) { l.sourcePortId == port || l.targetPortId == port }

  lemma CableAt(t: Topology, i: nat, id: Id)
    requires LinksValid(t) && i < |t.links| && t.links[i].id == id
    ensures LinkIndex(t.links, id) == i
  {
    hide LinksValid;
    var k := LinkIndex(t.links, id);
    if k < i { CablesDiffer(t, k, i); }
  }

  lemma CablesDiffer(t: Topology, k: nat, i: nat)
    requires LinksValid(t) && k < i < |t.links|
    ensures t.links[k].id != t.links[i].id
  {
    hide LinkWellFormed, LinkAnchored, Terminations, SameChannel;
    assert LinksDiffer(t.links[k], t.links[i]);
  }

  lemma CableKnown(t: Topology, id: Id)
    ensures LinkKnown(t, id) <==> LinkIndex(t.links, id) < |t.links|
  {
    var k := LinkIndex(t.links, id);
    if k < |t.links| { assert t.links[k] in t.links; }
    if l :| l in t.links && l.id == id { var i :| 0 <= i < |t.links| && t.links[i] == l; }
  }

  lemma UnknownCable(t: Topology, r: Request)
    ensures Repatched(t, r) == Err(LinkNotFound) <==> !LinkKnown(t, r.linkId)
  {
    hide LinkIndex, LastPort, Occupant, Swapped, Moved, Deactivated, MapAllPorts, LinkKnown;
    CableKnown(t, r.linkId);
  }

  lemma KnownPort(t: Topology, port: Id)
    ensures PortKnown(t, port) <==> LastPort(t.devices, port).Some?
  {
    hide LastPort;
    LastPortFound(t.devices, port);
    if d, p :| d in t.devices && p in d.ports && p.id == port { SomePort(t.devices, d, p); }
  }

  lemma OccupiedIff(links: seq<Link>, port: Id, side: Side)
    requires Seated(links)
    ensures var found := Occupant(links, Termination(port, side));
            if found.None? then forall m | m in links :: !At(m, port, side)
            else At(links[found.value.index], port, side) && forall m | m in links && At(m, port, side) :: m == links[found.value.index]
  {
    hide Occupant, Seated;
    var at := Termination(port, side);
    var found := Occupant(links, at);
    forall m | m in links && At(m, port, side) ensures found.Some? && m == links[found.value.index] {
      var k :| 0 <= k < |links| && links[k] == m;
      OccupantUnique(links, k, if m.sourcePortId == port && m.EffectiveSourceSide() == side then AtSource else AtTarget);
    }
  }

  /** Each refusal of a request for a known cable, by what is wrong. */
  lemma RepatchRefused(t: Topology, r: Request, i: nat)
    requires Valid(t) && i < |t.links| && t.links[i].id == r.linkId
    ensures var l, answer := t.links[i], Repatched(t, r);
            var side := if r.end.AtSource? then l.EffectiveSourceSide() else l.EffectiveTargetSide();
            && (answer == Err(SameEndpoint) <==> Touches(l, r.portId))
            && (answer == Err(NoDestination) <==> !Touches(l, r.portId) && !PortKnown(t, r.portId))
            && (answer == Err(NotConfirmed) <==>
                  && !Touches(l, r.portId) && PortKnown(t, r.portId)
                  && exists m :: m in t.links && At(m, r.portId, side) && m.id != r.swapLinkId)
            && (answer == Err(NoLongerOccupied) <==>
                  && !Touches(l, r.portId) && PortKnown(t, r.portId)
                  && r.swapLinkId != "" && forall m | m in t.links :: !At(m, r.portId, side))
            && answer != Err(LinkNotFound)
  {
    hide LinkIndex, LastPort, Occupant, Swapped, Moved, Deactivated, MapAllPorts, PortKnown, At, Seated, Valid;
    ValidHasLinks(t);
    ValidSeated(t);
    CableAt(t, i, r.linkId);
    KnownPort(t, r.portId);
    var l := t.links[i];
    var side := if r.end.AtSource? then l.EffectiveSourceSide() else l.EffectiveTargetSide();
    OccupiedIff(t.links, r.portId, side);
    var found := Occupant(t.links, Termination(r.portId, side));
    if found.Some? { assert t.links[found.value.index] in t.links; }
  }

  /** The chosen end is at the port asked for; in an exchange the other cable's end
      is where that one was; nothing else is different about any cable. */
  lemma RepatchMoves(t: Topology, r: Request, t': Topology, i: nat)
    requires Valid(t) && Repatched(t, r) == Ok(t') && i < |t.links| && t.links[i].id == r.linkId
    ensures |t'.links| == |t.links| && t' == t.(links := t'.links, devices := t'.devices)
    ensures r.swapLinkId != "" ==> t'.devices == t.devices
    ensures exists device ::
      && PortOn(t.devices, device, r.portId)
      && t'.links[i] == if r.end.AtSource? then t.links[i].(sourceDeviceId := device, sourcePortId := r.portId)
                        else t.links[i].(targetDeviceId := device, targetPortId := r.portId)
    ensures forall k | 0 <= k < |t.links| && k != i && t.links[k].id != r.swapLinkId :: t'.links[k] == t.links[k]
    ensures forall k | 0 <= k < |t.links| && k != i && t.links[k].id == r.swapLinkId ::
      Exchanged(t.links[i], r.end, r.portId, t.links[k], t'.links[k])
  {
    hide Valid, LinkIndex, LastPort, Repatched, Deactivated, MapAllPorts, MoveOf, PortOn, Swapped, Exchanged;
    ValidHasLinks(t);
    CableAt(t, i, r.linkId);
    ForeignPort(t, r.portId);
    if r.swapLinkId != "" {
      var i', j, port := RepatchedSwap(t, r, t');
      SwapDoes(t, i, r.end, j, port);
      CableAt(t, j.index, r.swapLinkId);
      forall k | 0 <= k < |t.links| && t.links[k].id == r.swapLinkId ensures k == j.index { CableAt(t, k, r.swapLinkId); }
    } else {
      var i', port := RepatchedMove(t, r, t');
      NamedCables(t);
    }
  }

  /** m was at the port and is where the end of l was. */
  predicate Exchanged(l: Link, e: CableEnd, port: Id, m: Link, m': Link) {
    var device, old' := if e.AtSource? then l.sourceDeviceId else l.targetDeviceId, if e.AtSource? then l.sourcePortId else l.targetPortId;
    if m.sourcePortId == port then m' == m.(sourceDeviceId := device, sourcePortId := old')
    else m.targetPortId == port && m' == m.(targetDeviceId := device, targetPortId := old')
  }

  lemma ForeignPort(t: Topology, port: Id)
    requires Valid(t)
    ensures var p := LastPort(t.devices, port); p.Some? ==> PortOn(t.devices, p.value.deviceId, port)
  {
    hide LastPort, RacksValid, VlansValid, LinksValid, SystemsValid, ClustersValid, GroupsValid, AttachmentsValid, Mounted, VlansKnown, Overlap;
    LastPortFound(t.devices, port);
    var p := LastPort(t.devices, port);
    if p.Some? {
      var d :| d in t.devices && p.value in d.ports;
      assert DeviceValid(t, d) && PortValid(t, p.value, d.id);
    }
  }

  lemma NamedCables(t: Topology)
    requires LinksValid(t)
    ensures forall l | l in t.links :: l.id != ""
  {
    hide LinkAnchored, Terminations, SameChannel;
    forall l | l in t.links ensures l.id != "" { assert LinkWellFormed(l); }
  }

  lemma SwapDoes(t: Topology, i: nat, e: CableEnd, j: Place, port: Port)
    requires LinksValid(t) && SwapOf(t.links, i, e, j, port)
    ensures var r := Swapped(t.links, i, e, j, port);
            && i != j.index && r[i] == WithEnd(t.links[i], e, port.deviceId, port.id)
            && Exchanged(t.links[i], e, port.id, t.links[j.index], r[j.index])
            && forall k | 0 <= k < |t.links| && k != i && k != j.index :: r[k] == t.links[k]
  {
    hide LinkAnchored, SameChannel, Pairwise;
    assert t.links[j.index] in t.links;
    assert LinkWellFormed(t.links[j.index]);
  }
}
