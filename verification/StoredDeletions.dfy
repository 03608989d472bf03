/** Deleting from a stored topology: what the handlers' mutations hand to the
    store. */
module StoredDeletions {
  import opened Text
  import opened Topology
  import opened Validation
  import opened Normalize
  import opened Cascade
  import opened CascadeNormal
  import opened Revisions
  import opened JsonStore

  /** A device, a rack or a link is deleted. */
  ghost predicate Deletion(before: Topology, after: Topology) {
    || (exists i: nat :: i < |before.devices| && after == WithoutDevice(before, i))
    || (exists i: nat :: i < |before.racks| && after == WithoutRack(before, i))
    || exists i: nat :: i < |before.links| && after == WithoutLink(before, i)
  }

  lemma DeletionStored(before: Topology, after: Topology)
    requires Valid(before) && Normal(before) == before && Deletion(before, after)
    ensures Valid(after) && Normal(after) == after
  {
    hide Valid, Normal, WithoutDevice, WithoutRack, WithoutLink;
    if i: nat :| i < |before.devices| && after == WithoutDevice(before, i) {
      DeleteDeviceStored(before, i);
    } else if i: nat :| i < |before.racks| && after == WithoutRack(before, i) {
      DeleteRackStored(before, i);
    } else {
      var i: nat :| i < |before.links| && after == WithoutLink(before, i);
      DeleteLinkStored(before, i);
    }
  }

  lemma DeletionKeepsId(before: Topology, after: Topology)
    requires Deletion(before, after)
    ensures after.id == before.id
  {
  }

  /** Whatever a sound store holds: a deletion from it is accepted, with the next
      revision, exactly when the result fits, and is stored as it is. So the store
      refuses a deletion only for its size, for a conflict, or when writing fails. */
  lemma DeletionAccepted(topologies: map<Id, Document>, organizations: map<Id, Organization>, fits: Document -> bool, id: Id,
                         after: Topology)
    requires TopologiesOk(topologies) && NamesCurrent(topologies, organizations) && RegistryOk(organizations)
    requires id in topologies && Deletion(topologies[id].plan, after)
    ensures 1 <= topologies[id].revision <= MAX_REVISION && after.id == id
    ensures var next := topologies[id].(plan := after, revision := NextRevision(topologies[id].revision));
            && (Accepted(next, organizations, fits) <==> fits(next))
            && NormalDocument(Owned(next, organizations[next.organizationId])) == next
  {
    hide Valid, Normal, Deletion, NextRevision, RegistryOk, Trim;
    var d := topologies[id];
    TopologyIs(topologies, id);
    DeletionStored(d.plan, after);
    DeletionKeepsId(d.plan, after);
    RegistryNamed(organizations, d.organizationId);
  }
}
