/** The port table that an analysis and a path trace look ports up in. */
module Ports {
  import opened Text
  import opened Sorting
  import opened Topology

  /** What Go finds in a map for a port that is not there: the zero port. */
  const NO_PORT := Port("", "", 0, Network, Access, 0, [], Down)

  function Find(ports: map<Id, Port>, id: Id): Port { if id in ports then ports[id] else NO_PORT }

  ghost function PortIds(devices: set<Device>): set<Id> {
    set d, p | d in devices && p in d.ports :: p.id
  }

  ghost predicate HasPort(devices: set<Device>, p: Port) { exists d :: d in devices && p in d.ports }

  ghost function PortTable(devices: set<Device>): map<Id, Port> {
    map id | id in PortIds(devices) :: PortOf(devices, id)
  }

  ghost function PortOf(devices: set<Device>, id: Id): Port
    requires id in PortIds(devices)
  {
    PortIdsOf(devices, id);
    var p :| HasPort(devices, p) && p.id == id;
    p
  }

  /** table holds exactly the ports of the devices seen so far. */
  ghost predicate FindsPorts(devices: set<Device>, table: map<Id, Port>) {
    && (forall p | HasPort(devices, p) :: p.id in table && table[p.id] == p)
    && forall id | id in table :: HasPort(devices, table[id]) && table[id].id == id
  }

  /** table holds the ports of the devices seen so far and of part of the next. */
  ghost predicate FindsPortsUpTo(devices: seq<Device>, i: nat, j: nat, table: map<Id, Port>)
    requires i < |devices| && j <= |devices[i].ports|
  {
    && (forall p | HasPort(Elements(devices[..i]), p) || p in devices[i].ports[..j] :: p.id in table && table[p.id] == p)
    && forall id | id in table ::
        (HasPort(Elements(devices[..i]), table[id]) || table[id] in devices[i].ports[..j]) && table[id].id == id
  }

  lemma NextPort(devices: seq<Device>, i: nat, j: nat, table: map<Id, Port>)
    requires DistinctPorts(devices) && i < |devices| && j < |devices[i].ports|
    requires FindsPortsUpTo(devices, i, j, table)
    ensures FindsPortsUpTo(devices, i, j + 1, table[devices[i].ports[j].id := devices[i].ports[j]])
  {
    hide DistinctPorts, HasPort, Elements;
    PortsAgree(devices, i, j);
    var ports := devices[i].ports;
    var next := ports[j];
    assert ports[..j + 1] == ports[..j] + [next];
    var table' := table[next.id := next];
    forall p | HasPort(Elements(devices[..i]), p) || p in ports[..j + 1] ensures p.id in table' && table'[p.id] == p {
      if p != next { assert p.id in table; }
    }
  }

  lemma NextDevice(devices: seq<Device>, i: nat, table: map<Id, Port>)
    requires i < |devices| && FindsPortsUpTo(devices, i, |devices[i].ports|, table)
    ensures FindsPorts(Elements(devices[..i + 1]), table)
  {
    var d := devices[i];
    assert d.ports[..|d.ports|] == d.ports;
    forall p ensures HasPort(Elements(devices[..i + 1]), p) <==> HasPort(Elements(devices[..i]), p) || p in d.ports {
      PortsOfOneMore(devices, i, p);
    }
    hide HasPort, Elements;
  }

  lemma PortsOfOneMore(devices: seq<Device>, i: nat, p: Port)
    requires i < |devices|
    ensures HasPort(Elements(devices[..i + 1]), p) <==> HasPort(Elements(devices[..i]), p) || p in devices[i].ports
  {
    assert Elements(devices[..i + 1]) == Elements(devices[..i]) + {devices[i]} by {
      assert devices[..i + 1] == devices[..i] + [devices[i]];
    }
    if d :| d in Elements(devices[..i]) && p in d.ports { assert d in Elements(devices[..i + 1]); }
  }

  lemma NoPortYet(devices: seq<Device>, i: nat, table: map<Id, Port>)
    requires i < |devices| && FindsPorts(Elements(devices[..i]), table)
    ensures FindsPortsUpTo(devices, i, 0, table)
  {
    hide HasPort;
  }

  /** AnalyzeContext, the port table. */
  method BuildPortTable(devices: seq<Device>) returns (table: map<Id, Port>)
    requires DistinctPorts(devices)
    ensures table == PortTable(Elements(devices))
  {
    hide *;
    table := map[];
    NoPorts(devices);
    for i := 0 to |devices|
      invariant FindsPorts(Elements(devices[..i]), table)
    {
      NoPortYet(devices, i, table);
      for j := 0 to |devices[i].ports|
        invariant FindsPortsUpTo(devices, i, j, table)
      {
        NextPort(devices, i, j, table);
        table := table[devices[i].ports[j].id := devices[i].ports[j]];
      }
      NextDevice(devices, i, table);
    }
    assert devices[..|devices|] == devices;
    PortTableFound(devices, table);
  }

  lemma NoPorts(devices: seq<Device>)
    ensures FindsPorts(Elements(devices[..0]), map[])
  {
  }

  lemma PortsAgree(devices: seq<Device>, i: nat, j: nat)
    requires DistinctPorts(devices) && i < |devices| && j < |devices[i].ports|
    ensures forall p | (HasPort(Elements(devices[..i]), p) || p in devices[i].ports[..j]) && p.id == devices[i].ports[j].id ::
      p == devices[i].ports[j]
  {
  }

  lemma PortIdsOf(devices: set<Device>, id: Id)
    ensures id in PortIds(devices) <==> exists p :: HasPort(devices, p) && p.id == id
  {
    if id in PortIds(devices) {
      var d, p :| d in devices && p in d.ports && p.id == id;
      assert HasPort(devices, p);
    }
  }

  lemma PortTableFound(devices: seq<Device>, table: map<Id, Port>)
    requires FindsPorts(Elements(devices), table)
    ensures table == PortTable(Elements(devices))
  {
    hide HasPort, PortIds, Elements;
    var all := Elements(devices);
    forall id ensures id in table <==> id in PortIds(all) {
      PortIdsOf(all, id);
    }
  }

  /** A port of a device is found under its identifier. */
  lemma TableFinds(devices: seq<Device>, d: Device, p: Port)
    requires DistinctPorts(devices) && d in devices && p in d.ports
    ensures p.id in PortTable(Elements(devices)) && PortTable(Elements(devices))[p.id] == p
  {
    assert HasPort(Elements(devices), PortOf(Elements(devices), p.id));
  }
}
