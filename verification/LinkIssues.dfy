/** The link findings of AnalyzeContext: native VLANs that meet different ones,
    tagged VLANs the other side drops, and trunk and failover groups whose
    cables carry different VLANs. */
module LinkIssues {
  import opened Text
  import opened Sorting
  import opened Lists
  import opened Topology
  import opened Ports

  datatype Issue =
    | NativeMismatch(linkId: Id, sourceVLAN: int, targetVLAN: int)
    | TargetDrops(linkId: Id, vlan: int)
    | SourceDrops(linkId: Id, vlan: int)
    | TrunkMismatch(linkId: Id, groupId: Id)
    | FailoverMismatch(linkId: Id, groupId: Id)

  /** missingVLANs: the tagged VLANs the peer neither has natively nor allows. */
  function Missing(tagged: seq<int>, peer: Port): seq<int> {
    if peer.mode.Unconfigured? then tagged
    else Filter(tagged, v => v != peer.nativeVLAN && v !in peer.allowedVLANs)
  }

  function LinkFindings(ports: map<Id, Port>, l: Link): seq<Issue> {
    var source, target := Find(ports, l.sourcePortId), Find(ports, l.targetPortId);
    (if source.nativeVLAN > 0 && target.nativeVLAN > 0 && source.nativeVLAN != target.nativeVLAN
     then [NativeMismatch(l.id, source.nativeVLAN, target.nativeVLAN)] else []) +
    Map(Missing(source.allowedVLANs, target), v => TargetDrops(l.id, v)) +
    Map(Missing(target.allowedVLANs, source), v => SourceDrops(l.id, v))
  }

  function AllLinkFindings(ports: map<Id, Port>, links: seq<Link>): seq<Issue> {
    if links == [] then [] else
      AllLinkFindings(ports, links[..|links| - 1]) + LinkFindings(ports, links[|links| - 1])
  }

  /** The VLANs of the last cable with the identifier; none when it is missing. */
  function CarriedBy(links: seq<Link>, id: Id): seq<int> {
    if links == [] then []
    else if links[|links| - 1].id == id then links[|links| - 1].vlanIds
    else CarriedBy(links[..|links| - 1], id)
  }

  predicate Agrees(links: seq<Link>, g: LinkGroup)
    requires g.linkIds != []
  {
    forall id | id in g.linkIds :: CarriedBy(links, id) == CarriedBy(links, g.linkIds[0])
  }

  /** Trunk and failover groups; the shape and media checks of the other two
      kinds of group are not modelled. */
  function GroupFindings(links: seq<Link>, g: LinkGroup): seq<Issue>
    requires g.linkIds != []
  {
    if (!g.mode.TrunkGroup? && !g.mode.Failover?) || Agrees(links, g) then []
    else if g.mode.TrunkGroup? then [TrunkMismatch(g.linkIds[0], g.id)]
    else [FailoverMismatch(g.linkIds[0], g.id)]
  }

  // ----- the loops

  method FindMissing(tagged: seq<int>, peer: Port) returns (missing: seq<int>)
    ensures missing == Missing(tagged, peer)
  {
    if peer.mode.Unconfigured? { return tagged; }
    var carried: set<int> := {peer.nativeVLAN};
    for k := 0 to |peer.allowedVLANs|
      invariant carried == {peer.nativeVLAN} + Elements(peer.allowedVLANs[..k])
    {
      assert peer.allowedVLANs[..k + 1] == peer.allowedVLANs[..k] + [peer.allowedVLANs[k]];
      carried := carried + {peer.allowedVLANs[k]};
    }
    assert peer.allowedVLANs[..|peer.allowedVLANs|] == peer.allowedVLANs;
    missing := [];
    ghost var keep := v => v != peer.nativeVLAN && v !in peer.allowedVLANs;
    for k := 0 to |tagged|
      invariant missing == Filter(tagged[..k], keep)
    {
      FilterStep(tagged, k, keep);
      if tagged[k] !in carried { missing := missing + [tagged[k]]; }
    }
    assert tagged[..|tagged|] == tagged;
  }

  method AnalyzeLink(ports: map<Id, Port>, l: Link) returns (issues: seq<Issue>)
    ensures issues == LinkFindings(ports, l)
  {
    hide Missing, Find, Map;
    var source, target := Find(ports, l.sourcePortId), Find(ports, l.targetPortId);
    issues := [];
    if source.nativeVLAN > 0 && target.nativeVLAN > 0 && source.nativeVLAN != target.nativeVLAN {
      issues := [NativeMismatch(l.id, source.nativeVLAN, target.nativeVLAN)];
    }
    var dropped := FindMissing(source.allowedVLANs, target);
    issues := issues + Map(dropped, v => TargetDrops(l.id, v));
    dropped := FindMissing(target.allowedVLANs, source);
    issues := issues + Map(dropped, v => SourceDrops(l.id, v));
  }

  /** AnalyzeContext, the loop over the links. */
  method AnalyzeLinks(ports: map<Id, Port>, links: seq<Link>) returns (issues: seq<Issue>)
    ensures issues == AllLinkFindings(ports, links)
  {
    hide LinkFindings;
    issues := [];
    for k := 0 to |links|
      invariant issues == AllLinkFindings(ports, links[..k])
    {
      assert links[..k + 1][..k] == links[..k];
      var found := AnalyzeLink(ports, links[k]);
      issues := issues + found;
    }
    assert links[..|links|] == links;
  }

  /** The index that analyzeLinkGroups looks members up in. */
  method IndexVLANs(links: seq<Link>) returns (carried: map<Id, seq<int>>)
    ensures forall id :: CarriedBy(links, id) == if id in carried then carried[id] else []
  {
    carried := map[];
    for k := 0 to |links|
      invariant forall id :: CarriedBy(links[..k], id) == if id in carried then carried[id] else []
    {
      assert links[..k + 1][..k] == links[..k];
      carried := carried[links[k].id := links[k].vlanIds];
    }
    assert links[..|links|] == links;
  }

  ghost function AllGroupFindings(links: seq<Link>, groups: seq<LinkGroup>): seq<Issue>
    requires forall g | g in groups :: g.linkIds != []
  {
    if groups == [] then [] else
      AllGroupFindings(links, groups[..|groups| - 1]) + GroupFindings(links, groups[|groups| - 1])
  }

  method MembersAgree(ghost links: seq<Link>, carried: map<Id, seq<int>>, g: LinkGroup) returns (agree: bool)
    requires g.linkIds != [] && forall id :: CarriedBy(links, id) == if id in carried then carried[id] else []
    ensures agree <==> Agrees(links, g)
  {
    hide CarriedBy;
    var baseline := if g.linkIds[0] in carried then carried[g.linkIds[0]] else [];
    for k := 1 to |g.linkIds|
      invariant forall i | 0 <= i < k :: CarriedBy(links, g.linkIds[i]) == baseline
    {
      var id := g.linkIds[k];
      if baseline != if id in carried then carried[id] else [] {
        assert id in g.linkIds;
        return false;
      }
    }
    return true;
  }

  /** analyzeLinkGroups, the trunk and failover cases. */
  method AnalyzeGroups(links: seq<Link>, groups: seq<LinkGroup>) returns (issues: seq<Issue>)
    requires forall g | g in groups :: g.linkIds != []
    ensures issues == AllGroupFindings(links, groups)
  {
    hide Agrees, CarriedBy;
    var carried := IndexVLANs(links);
    issues := [];
    for k := 0 to |groups|
      invariant issues == AllGroupFindings(links, groups[..k])
    {
      assert groups[..k + 1][..k] == groups[..k];
      var g := groups[k];
      if g.mode.TrunkGroup? || g.mode.Failover? {
        var agree := MembersAgree(links, carried, g);
        if !agree && g.mode.TrunkGroup? { issues := issues + [TrunkMismatch(g.linkIds[0], g.id)]; }
        if !agree && g.mode.Failover? { issues := issues + [FailoverMismatch(g.linkIds[0], g.id)]; }
      }
    }
    assert groups[..|groups|] == groups;
  }

  // ----- what is found

  predicate Carries(p: Port, vlan: int) { !p.mode.Unconfigured? && (p.nativeVLAN == vlan || vlan in p.allowedVLANs) }

  lemma MissingMembers(tagged: seq<int>, peer: Port)
    ensures forall v :: v in Missing(tagged, peer) <==> v in tagged && !Carries(peer, v)
  {
  }

  lemma MapMembers<T, U>(s: seq<T>, f: T -> U)
    ensures forall y :: y in Map(s, f) <==> exists x :: x in s && y == f(x)
  {
    forall y ensures y in Map(s, f) <==> exists x :: x in s && y == f(x) {
      if y in Map(s, f) { var x := MapMember(s, f, y); }
      if x :| x in s && y == f(x) {
        var i :| 0 <= i < |s| && s[i] == x;
        assert Map(s, f)[i] == y;
      }
    }
  }

  /** On a cable are found: that both native VLANs are set and differ, and every VLAN
      that one port tags and the other does not carry. */
  lemma FindingsAre(ports: map<Id, Port>, l: Link, issue: Issue)
    ensures var source, target := Find(ports, l.sourcePortId), Find(ports, l.targetPortId);
            issue in LinkFindings(ports, l) <==> match issue
              case NativeMismatch(id, a, b) => id == l.id && a == source.nativeVLAN > 0 && b == target.nativeVLAN > 0 && a != b
              case TargetDrops(id, v) => id == l.id && v in source.allowedVLANs && !Carries(target, v)
              case SourceDrops(id, v) => id == l.id && v in target.allowedVLANs && !Carries(source, v)
              case _ => false
  {
    hide Missing, Find, Carries, Map;
    var source, target := Find(ports, l.sourcePortId), Find(ports, l.targetPortId);
    MissingMembers(source.allowedVLANs, target);
    MissingMembers(target.allowedVLANs, source);
    MapMembers(Missing(source.allowedVLANs, target), v => TargetDrops(l.id, v));
    MapMembers(Missing(target.allowedVLANs, source), v => SourceDrops(l.id, v));
  }

  /** And on a trunk or failover group, that two members carry different lists. */
  lemma GroupFindingsAre(links: seq<Link>, g: LinkGroup)
    requires g.linkIds != []
    ensures GroupFindings(links, g) != [] <==>
      && (g.mode.TrunkGroup? || g.mode.Failover?)
      && exists a, b :: a in g.linkIds && b in g.linkIds && CarriedBy(links, a) != CarriedBy(links, b)
    ensures forall issue | issue in GroupFindings(links, g) ::
      issue == if g.mode.TrunkGroup? then TrunkMismatch(g.linkIds[0], g.id) else FailoverMismatch(g.linkIds[0], g.id)
  {
    hide CarriedBy;
    assert g.linkIds[0] in g.linkIds;
  }
}
