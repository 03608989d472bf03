/** applyLinkRepatch: moving one end of a cable to a free termination, or
    exchanging it with the cable that occupies the termination. */
module Repatch {
  import opened Outcomes
  import opened Text
  import opened Lists
  import opened Topology
  import opened Validation
  import opened Draft

  datatype CableEnd = AtSource | AtTarget

  datatype RepatchError = LinkNotFound | SameEndpoint | NoDestination | NotConfirmed | NoLongerOccupied

  /** An empty swapLinkId asks for a move. */
  datatype Request = Request(linkId: Id, end: CableEnd, portId: Id, swapLinkId: Id)

  function EndDevice(l: Link, e: CableEnd): Id { if e.AtSource? then l.sourceDeviceId else l.targetDeviceId }

  function EndOf(l: Link, e: CableEnd): Termination { if e.AtSource? then SourceEnd(l) else TargetEnd(l) }

  /** setCableEndpoint. */
  function WithEnd(l: Link, e: CableEnd, device: Id, port: Id): Link {
    if e.AtSource? then l.(sourceDeviceId := device, sourcePortId := port)
    else l.(targetDeviceId := device, targetPortId := port)
  }

  /** The last port with the identifier, and the last cable end at the
      termination: the loops keep what they find last. */
  function LastIn(ports: seq<Port>, id: Id): Option<Port> {
    if ports == [] then None
    else if ports[|ports| - 1].id == id then Some(ports[|ports| - 1])
    else LastIn(ports[..|ports| - 1], id)
  }

  function LastPort(devices: seq<Device>, id: Id): Option<Port> {
    if devices == [] then None else
      var found := LastIn(devices[|devices| - 1].ports, id);
      if found.Some? then found else LastPort(devices[..|devices| - 1], id)
  }

  datatype Place = Place(index: nat, end: CableEnd)

  function Occupant(links: seq<Link>, at: Termination): (r: Option<Place>)
    ensures r.Some? ==> r.value.index < |links| && EndOf(links[r.value.index], r.value.end) == at
    ensures r.None? ==> forall l, e: CableEnd | l in links :: EndOf(l, e) != at
  {
    if links == [] then None
    else if TargetEnd(links[|links| - 1]) == at then Some(Place(|links| - 1, AtTarget))
    else if SourceEnd(links[|links| - 1]) == at then Some(Place(|links| - 1, AtSource))
    else
      assert links == links[..|links| - 1] + [links[|links| - 1]];
      Occupant(links[..|links| - 1], at)
  }

  /** The cables after the exchange of l's end with the end at place j. */
  function Swapped(links: seq<Link>, i: nat, e: CableEnd, j: Place, port: Port): (r: seq<Link>)
    requires i < |links| && j.index < |links|
    ensures |r| == |links|
  {
    var others := links[j.index := WithEnd(links[j.index], j.end, EndDevice(links[i], e), EndOf(links[i], e).portId)];
    others[i := WithEnd(others[i], e, port.deviceId, port.id)]
  }

  function Moved(links: seq<Link>, i: nat, e: CableEnd, port: Port): (r: seq<Link>)
    requires i < |links|
    ensures |r| == |links|
  {
    links[i := WithEnd(links[i], e, port.deviceId, port.id)]
  }

  ghost function Repatched(t: Topology, r: Request): Result<Topology, RepatchError> {
    var i := LinkIndex(t.links, r.linkId);
    if i == |t.links| then Err(LinkNotFound) else
    var l := t.links[i];
    if r.portId == l.sourcePortId || r.portId == l.targetPortId then Err(SameEndpoint) else
    match LastPort(t.devices, r.portId)
    case None => Err(NoDestination)
    case Some(port) =>
      var side := EndOf(l, r.end).side;
      match Occupant(t.links, Termination(r.portId, side))
      case Some(j) =>
        if r.swapLinkId != t.links[j.index].id then Err(NotConfirmed)
        else Ok(t.(links := Swapped(t.links, i, r.end, j, port)))
      case None =>
        if r.swapLinkId != "" then Err(NoLongerOccupied)
        else
          var links := Moved(t.links, i, r.end, port);
          Ok(t.(links := links,
                devices := if side.Front? then Deactivated(MapAllPorts(t.devices, SetStatus({port.id}, Up)), l, links)
                           else t.devices))
  }

  // ----- the method

  lemma LastInStep(ports: seq<Port>, j: nat, id: Id)
    requires j < |ports|
    ensures LastIn(ports[..j + 1], id) == if ports[j].id == id then Some(ports[j]) else LastIn(ports[..j], id)
  {
    assert ports[..j + 1][..j] == ports[..j];
  }

  lemma LastPortStep(devices: seq<Device>, i: nat, id: Id)
    requires i < |devices|
    ensures LastPort(devices[..i + 1], id) ==
      if LastIn(devices[i].ports, id).Some? then LastIn(devices[i].ports, id) else LastPort(devices[..i], id)
  {
    assert devices[..i + 1][..i] == devices[..i];
  }

  lemma {:induction false} LastPortFound(devices: seq<Device>, id: Id)
    ensures var p := LastPort(devices, id);
            p.Some? ==> p.value.id == id && exists d :: d in devices && p.value in d.ports
  {
    if devices != [] {
      LastPortFound(devices[..|devices| - 1], id);
      LastInFound(devices[|devices| - 1].ports, id);
    }
  }

  lemma {:induction false} LastInFound(ports: seq<Port>, id: Id)
    ensures LastIn(ports, id).Some? ==> LastIn(ports, id).value.id == id && LastIn(ports, id).value in ports
  {
    if ports != [] { LastInFound(ports[..|ports| - 1], id); }
  }

  method FindPort(devices: seq<Device>, id: Id) returns (port: Option<Port>)
    ensures port == LastPort(devices, id)
  {
    port := None;
    for i := 0 to |devices|
      invariant port == LastPort(devices[..i], id)
    {
      ghost var before := port;
      LastPortStep(devices, i, id);
      var ports := devices[i].ports;
      for j := 0 to |ports|
        invariant port == if LastIn(ports[..j], id).Some? then LastIn(ports[..j], id) else before
      {
        LastInStep(ports, j, id);
        if ports[j].id == id { port := Some(ports[j]); }
      }
      assert ports[..|ports|] == ports;
    }
    assert devices[..|devices|] == devices;
  }

  lemma OccupantStep(links: seq<Link>, k: nat, at: Termination)
    requires k < |links|
    ensures Occupant(links[..k + 1], at) ==
      if TargetEnd(links[k]) == at then Some(Place(k, AtTarget))
      else if SourceEnd(links[k]) == at then Some(Place(k, AtSource))
      else Occupant(links[..k], at)
  {
    assert links[..k + 1][..k] == links[..k];
  }

  method FindOccupant(links: seq<Link>, at: Termination) returns (place: Option<Place>)
    ensures place == Occupant(links, at)
  {
    place := None;
    for k := 0 to |links|
      invariant place == Occupant(links[..k], at)
    {
      OccupantStep(links, k, at);
      if SourceEnd(links[k]) == at { place := Some(Place(k, AtSource)); }
      if TargetEnd(links[k]) == at { place := Some(Place(k, AtTarget)); }
    }
    assert links[..|links|] == links;
  }

  /** applyLinkRepatch. Requests change only topologies that were valid when
      they were stored; their port identifiers differ, so that the destination
      is the one port with its identifier. */
  method ApplyLinkRepatch(d: Draft, r: Request) returns (failure: Option<RepatchError>)
    requires Valid(d.Snapshot())
    modifies d
    ensures match Repatched(old(d.Snapshot()), r)
            case Ok(t) => failure.None? && d.Snapshot() == t
            case Err(e) => failure == Some(e) && d.Snapshot() == old(d.Snapshot())
  {
    hide Valid, LastPort, Occupant, LinkIndex, MapAllPorts, Deactivated, SetStatus, WithEnd;
    var i := FindIndex(d.links, (l: Link) => l.id == r.linkId);
    assert i == LinkIndex(d.links, r.linkId) by { IndexIs(d.links, r.linkId); }
    if i == |d.links| { return Some(LinkNotFound); }
    var l := d.links[i];
    if r.portId == l.sourcePortId || r.portId == l.targetPortId { return Some(SameEndpoint); }
    var destination := FindPort(d.devices, r.portId);
    if destination.None? { return Some(NoDestination); }
    var port := destination.value;
    var end := EndOf(l, r.end);
    var swap := FindOccupant(d.links, Termination(r.portId, end.side));
    if swap.Some? {
      var j := swap.value;
      if r.swapLinkId != d.links[j.index].id { return Some(NotConfirmed); }
      d.links := d.links[j.index := WithEnd(d.links[j.index], j.end, EndDevice(l, r.end), end.portId)];
    } else if r.swapLinkId != "" {
      return Some(NoLongerOccupied);
    }
    d.links := d.links[i := WithEnd(d.links[i], r.end, port.deviceId, port.id)];
    if swap.None? && end.side.Front? {
      d.SetPortStatus({port.id}, Up);
      d.DeactivateUnlinkedEndpointPorts(l);
    }
    return None;
  }

  lemma IndexIs(links: seq<Link>, id: Id)
    ensures IndexOf(links, (l: Link) => l.id == id) == LinkIndex(links, id)
  {
  }
}
