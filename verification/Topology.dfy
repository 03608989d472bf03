/** The topology aggregate: racks, devices with their ports, cables, and the
    groups over them. Display-only fields (names of most things, colours,
    coordinates, timestamps) are left out. */
module Topology {
  import opened Text

  datatype Category = Modem | Router | Switch | Firewall | PatchPanel | Server | AccessPoint

  datatype PortMode = Access | Trunk | Hybrid | Unconfigured

  datatype PortKind = Power | SasMiniHd12G | SasMini6G | FcSfp16G | Network {
    /** Link groups may not mix these with Ethernet ports. */
    predicate PhysicalOnly() { !Network? }
  }

  datatype PortStatus = Up | Down

  datatype Port = Port(
    id: Id, deviceId: Id, portIndex: int, kind: PortKind, mode: PortMode,
    nativeVLAN: int, allowedVLANs: seq<int>, status: PortStatus)

  datatype RackFace = NoFace | FrontFace | RearFace

  datatype Device = Device(
    id: Id, name: string, hostname: string, category: Category, stpPriority: int,
    roomId: Id, rackId: Id, rackUnit: int, rackFace: RackFace, unitsU: int, ports: seq<Port>)

  /** The termination plane of a cable end; links that predate planes have none. */
  datatype Side = Unset | Front | Rear

  datatype ChannelType = NoChannelType | Tube | Discrete

  datatype Link = Link(
    id: Id,
    sourceDeviceId: Id, sourcePortId: Id, sourceSide: Side,
    targetDeviceId: Id, targetPortId: Id, targetSide: Side,
    cableType: string, rearChannelId: Id, rearChannelName: string, rearChannelType: ChannelType,
    vlanIds: seq<int>, primaryVLAN: int, notes: string)
  {
    function EffectiveSourceSide(): Side { if sourceSide.Unset? then Front else sourceSide }

    function EffectiveTargetSide(): Side { if targetSide.Unset? then Front else targetSide }

    predicate IsRearPanelConnection() { EffectiveSourceSide().Rear? && EffectiveTargetSide().Rear? }
  }

  datatype GroupMode = TrunkGroup | Lacp | Mclag | Failover

  datatype LinkGroup = LinkGroup(id: Id, mode: GroupMode, linkIds: seq<Id>, primaryLinkId: Id)

  datatype SwitchSystem = SwitchSystem(id: Id, name: string, deviceIds: seq<Id>)

  datatype ClusterMode = ActiveActive | ActivePassive

  datatype FirewallCluster = FirewallCluster(id: Id, mode: ClusterMode, deviceIds: seq<Id>, activeDeviceId: Id)

  datatype Rack = Rack(id: Id, roomId: Id, heightU: int)

  /** What a comment, a documentation link or a photo is attached to. */
  datatype TargetKind = ToCanvas | ToTopology | ToRack | ToDevice | ToPort | ToLink | ToAnnotation

  datatype Attachment = Attachment(id: Id, kind: TargetKind, targetId: Id)

  datatype Topology = Topology(
    id: Id, rooms: seq<Id>, racks: seq<Rack>, devices: seq<Device>, links: seq<Link>,
    linkGroups: seq<LinkGroup>, switchSystems: seq<SwitchSystem>, firewallClusters: seq<FirewallCluster>,
    vlans: seq<int>, annotations: seq<Id>,
    threads: seq<Attachment>, documents: seq<Attachment>, photos: seq<Attachment>)

  // ----- identifiers that differ, as validation checks

  ghost predicate DistinctDevices(devices: seq<Device>) {
    forall i, j | 0 <= i < j < |devices| :: devices[i].id != devices[j].id
  }

  ghost predicate DistinctPorts(devices: seq<Device>) {
    forall d, e, p, q | d in devices && e in devices && p in d.ports && q in e.ports && p.id == q.id :: p == q
  }

  ghost predicate DistinctLinks(links: seq<Link>) {
    forall i, j | 0 <= i < j < |links| :: links[i].id != links[j].id
  }

  /** A device with this identifier has a port with that one. */
  predicate PortOn(devices: seq<Device>, device: Id, port: Id) {
    exists d, p :: d in devices && d.id == device && p in d.ports && p.id == port
  }

  predicate PortCarriesVLAN(port: Port, vlan: int) {
    !port.mode.Unconfigured? && (port.nativeVLAN == vlan || vlan in port.allowedVLANs)
  }
}
