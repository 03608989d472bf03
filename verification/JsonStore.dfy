/** JSONStore: topologies and organizations in memory and in files. Every write
    of a file replaces it atomically or fails and leaves it as it was. */
module JsonStore {
  import opened Outcomes
  import opened Text
  import opened Sorting
  import opened Topology
  import opened Validation
  import opened Draft
  import opened Normalize
  import opened NormalizeFacts
  import opened Validate
  import opened Revisions

  const DEFAULT_ORGANIZATION: Id := "00000000-0000-4000-8000-000000000000"

  datatype Organization = Organization(id: Id, name: string, isDefault: bool)

  datatype Document = Document(organizationId: Id, organization: string, revision: nat, plan: Topology)

  datatype StoreError =
    | NotFound | Conflict | Invalid | ProtectedOrganization | OrganizationInUse
    | RevisionConflict(expected: nat, actual: nat) | Rejected
    | WriteFailed(unrestored: set<Id>)

  /** Topology.Normalize on a whole document: a missing revision becomes one. */
  ghost function NormalDocument(d: Document): (r: Document)
    ensures r == d.(revision := r.revision, plan := Normal(d.plan)) && (d.revision != 0 ==> r.revision == d.revision)
    ensures d.revision == 0 ==> r.revision == 1
  {
    d.(revision := if d.revision == 0 then 1 else d.revision, plan := Normal(d.plan))
  }

  /** What only a validated document satisfies. */
  ghost predicate Storable(d: Document) {
    1 <= d.revision <= MAX_REVISION && Valid(d.plan) && Normal(d.plan) == d.plan
  }

  /** The document as its organization owns it. */
  function Owned(d: Document, o: Organization): (r: Document)
    ensures r.organizationId == o.id && r.organization == o.name && r.revision == d.revision && r.plan == d.plan
  {
    d.(organizationId := o.id, organization := o.name)
  }

  /** The document, once owned and normalized, may be stored. */
  ghost predicate Accepted(d: Document, organizations: map<Id, Organization>, fits: Document -> bool) {
    && Trim(d.organizationId) in organizations
    && var next := NormalDocument(Owned(d, organizations[Trim(d.organizationId)]));
       Valid(next.plan) && fits(next)
  }

  /** normalizeOrganizationName, of the trimmed name. */
  predicate NameFits(name: string) { 1 <= |name| <= 120 }

  predicate SameName(a: string, b: string) { Lower(a) == Lower(b) }

  /** Names are registered trimmed, under the organization's identifier, and no
      two are the same but for case. */
  ghost predicate RegistryOk(organizations: map<Id, Organization>) {
    && DEFAULT_ORGANIZATION in organizations
    && (forall id | id in organizations :: organizations[id].id == id && (organizations[id].isDefault <==> id == DEFAULT_ORGANIZATION))
    && (forall id | id in organizations :: Trim(organizations[id].name) == organizations[id].name != "")
    && forall a, b | a in organizations && b in organizations && SameName(organizations[a].name, organizations[b].name) :: a == b
  }

  /** Every topology carries its organization's identifier, trimmed, and current
      name. */
  ghost predicate NamesCurrent(topologies: map<Id, Document>, organizations: map<Id, Organization>) {
    forall id | id in topologies ::
      topologies[id].organizationId in organizations && Trim(topologies[id].organizationId) == topologies[id].organizationId
      && topologies[id].organization == organizations[topologies[id].organizationId].name
  }

  ghost predicate TopologiesOk(topologies: map<Id, Document>) {
    forall id | id in topologies :: topologies[id].plan.id == id && Storable(topologies[id])
  }

  /** The log tells the revision of every topology. */
  ghost predicate Logged(log: seq<Event>, topologies: map<Id, Document>) {
    Consistent(log) && forall id :: RevisionAfter(log, id) == if id in topologies then Some(topologies[id].revision) else None
  }

  lemma RegistryAdds(organizations: map<Id, Organization>, o: Organization)
    requires RegistryOk(organizations) && o.id !in organizations && !o.isDefault && Trim(o.name) == o.name != ""
    requires forall id | id in organizations :: !SameName(organizations[id].name, o.name)
    ensures RegistryOk(organizations[o.id := o])
  {
    hide Trim, Lower;
  }

  lemma NamesKeep(topologies: map<Id, Document>, before: map<Id, Organization>, after: map<Id, Organization>)
    requires NamesCurrent(topologies, before)
    requires forall t | t in topologies && topologies[t].organizationId in before ::
      (topologies[t].organizationId in after && after[topologies[t].organizationId].name == before[topologies[t].organizationId].name)
    ensures NamesCurrent(topologies, after)
  {
  }

  lemma RegistryDrops(organizations: map<Id, Organization>, id: Id)
    requires RegistryOk(organizations) && id in organizations && !organizations[id].isDefault
    ensures RegistryOk(organizations - {id})
  {
    hide Trim, Lower;
  }

  lemma RegistryNamed(organizations: map<Id, Organization>, id: Id)
    requires RegistryOk(organizations) && id in organizations
    ensures organizations[id].id == id
  {
    hide Trim, Lower;
  }

  lemma TopologyStored(topologies: map<Id, Document>, organizations: map<Id, Organization>, d: Document)
    requires TopologiesOk(topologies) && NamesCurrent(topologies, organizations) && Storable(d)
    requires d.organizationId in organizations && d.organization == organizations[d.organizationId].name
    requires Trim(d.organizationId) == d.organizationId
    ensures TopologiesOk(topologies[d.plan.id := d]) && NamesCurrent(topologies[d.plan.id := d], organizations)
  {
    hide Storable;
  }

  lemma TopologyDropped(topologies: map<Id, Document>, organizations: map<Id, Organization>, id: Id)
    requires TopologiesOk(topologies) && NamesCurrent(topologies, organizations)
    ensures TopologiesOk(topologies - {id}) && NamesCurrent(topologies - {id}, organizations)
  {
    hide Storable;
  }

  lemma TopologyIs(topologies: map<Id, Document>, id: Id)
    requires TopologiesOk(topologies) && id in topologies
    ensures topologies[id].plan.id == id && 1 <= topologies[id].revision <= MAX_REVISION
  {
    hide Valid, Normal;
  }

  lemma LogsCreation(log: seq<Event>, topologies: map<Id, Document>, d: Document)
    requires Logged(log, topologies) && d.plan.id !in topologies && 1 <= d.revision <= MAX_REVISION
    ensures Logged(log + [Created(d.plan.id, d.revision)], topologies[d.plan.id := d])
  {
    hide Consistent, RevisionAfter;
    var e := Created(d.plan.id, d.revision);
    ConsistentStep(log, e);
    forall id ensures RevisionAfter(log + [e], id) == if id == d.plan.id then Some(d.revision) else RevisionAfter(log, id) {
      RevisionStep(log, e, id);
    }
  }

  lemma LogsCommit(log: seq<Event>, topologies: map<Id, Document>, d: Document, expected: nat)
    requires Logged(log, topologies) && d.plan.id in topologies
    requires var before := topologies[d.plan.id].revision;
      before <= MAX_REVISION && (expected == 0 || expected == before) && d.revision == NextRevision(before)
    ensures Logged(log + [Committed(d.plan.id, expected, topologies[d.plan.id].revision)], topologies[d.plan.id := d])
  {
    hide Consistent, RevisionAfter, NextRevision;
    var e := Committed(d.plan.id, expected, topologies[d.plan.id].revision);
    assert Possible(log, e);
    ConsistentStep(log, e);
    forall id ensures RevisionAfter(log + [e], id) == if id == d.plan.id then Some(d.revision) else RevisionAfter(log, id) {
      RevisionStep(log, e, id);
    }
  }

  lemma LogsDeletion(log: seq<Event>, topologies: map<Id, Document>, id: Id)
    requires Logged(log, topologies) && id in topologies
    ensures Logged(log + [Deleted(id)], topologies - {id})
  {
    hide Consistent, RevisionAfter;
    assert Possible(log, Deleted(id));
    ConsistentStep(log, Deleted(id));
    forall other ensures RevisionAfter(log + [Deleted(id)], other) == if other == id then None else RevisionAfter(log, other) {
      RevisionStep(log, Deleted(id), other);
    }
  }

  lemma NothingLogged()
    ensures Logged([], map[])
  {
  }

  lemma OnlyDefault(o: Organization)
    requires o == Organization(DEFAULT_ORGANIZATION, "Default", true)
    ensures RegistryOk(map[DEFAULT_ORGANIZATION := o])
  {
  }

  method NormalizeDocument(d: Document) returns (r: Document)
    ensures r == NormalDocument(d)
  {
    hide Normal;
    var draft := new Draft(d.plan);
    Normalize.Normalize(draft);
    var plan := draft.Snapshot();
    r := d.(revision := if d.revision == 0 then 1 else d.revision, plan := plan);
  }

  /** Adding one in 64 bits and normalizing is taking the next revision. */
  lemma Wraps(r: nat)
    requires r <= MAX_REVISION
    ensures NextRevision(r) == if (r + 1) % (MAX_REVISION + 1) == 0 then 1 else (r + 1) % (MAX_REVISION + 1)
    ensures (r + 1) % (MAX_REVISION + 1) <= MAX_REVISION
  {
  }

  lemma NormalStorable(d: Document)
    requires d.revision <= MAX_REVISION && Valid(NormalDocument(d).plan)
    ensures Storable(NormalDocument(d))
  {
    hide Valid, Normal;
    NormalTwice(d.plan);
  }

  // ----- renaming an organization

  ghost function OwnedIds(topologies: map<Id, Document>, organization: Id): set<Id> {
    set t | t in topologies && topologies[t].organizationId == organization
  }

  /** The topologies with the given identifiers carry the name. */
  ghost function Renamed(topologies: map<Id, Document>, ids: set<Id>, name: string): map<Id, Document> {
    map t | t in topologies :: if t in ids then topologies[t].(organization := name) else topologies[t]
  }

  /** Files whose contents were replaced by those of source. */
  ghost function Overwritten(files: map<Id, Document>, source: map<Id, Document>, ids: set<Id>): map<Id, Document> {
    map t | t in files.Keys + (ids * source.Keys) :: if t in ids && t in source then source[t] else files[t]
  }

  ghost function WrittenBack(files: map<Id, Document>, topologies: map<Id, Document>, ids: set<Id>): map<Id, Document> {
    Overwritten(files, topologies, ids)
  }

  lemma OwnedKnown(topologies: map<Id, Document>, organization: Id, ids: seq<Id>)
    requires Elements(ids) == OwnedIds(topologies, organization)
    ensures forall t | t in ids :: t in topologies
  {
    assert forall t | t in ids :: t in Elements(ids);
  }

  lemma PrefixKnown(topologies: map<Id, Document>, ids: seq<Id>, k: nat)
    requires k <= |ids| && Distinct(ids) && forall t | t in ids :: t in topologies
    ensures Distinct(ids[..k]) && forall t | t in ids[..k] :: t in topologies
  {
  }

  lemma SubsetOwned(topologies: map<Id, Document>, organization: Id, ids: seq<Id>, k: nat, part: set<Id>)
    requires k <= |ids| && part <= Elements(ids[..k]) && Elements(ids) == OwnedIds(topologies, organization)
    ensures part <= OwnedIds(topologies, organization)
  {
    hide OwnedIds;
    assert forall t | t in Elements(ids[..k]) :: t in Elements(ids);
  }

  lemma NothingRenamed(files: map<Id, Document>, topologies: map<Id, Document>, ids: seq<Id>, name: string)
    ensures files == Overwritten(files, Renamed(topologies, Elements(ids), name), Elements(ids[..0]))
  {
  }

  lemma RenamedAt(topologies: map<Id, Document>, ids: seq<Id>, k: nat, name: string)
    requires TopologiesOk(topologies) && k < |ids| && forall t | t in ids :: t in topologies
    ensures ids[k] in topologies && topologies[ids[k]].plan.id == ids[k]
  {
    hide Storable;
  }

  lemma OneMoreWritten(files: map<Id, Document>, topologies: map<Id, Document>, ids: seq<Id>, k: nat, name: string)
    requires k < |ids| && forall t | t in ids :: t in topologies
    ensures var renamed := Renamed(topologies, Elements(ids), name);
            Overwritten(files, renamed, Elements(ids[..k]))[ids[k] := topologies[ids[k]].(organization := name)]
              == Overwritten(files, renamed, Elements(ids[..k + 1]))
  {
    assert ids[..k + 1] == ids[..k] + [ids[k]];
    assert Elements(ids[..k + 1]) == Elements(ids[..k]) + {ids[k]};
    assert ids[k] in Elements(ids);
  }

  /** Writing back undoes what was written, but for what could not be. */
  lemma RolledBack(files: map<Id, Document>, topologies: map<Id, Document>, ids: seq<Id>, k: nat, unrestored: set<Id>,
                   name: string)
    requires k <= |ids| && unrestored <= Elements(ids[..k]) && forall t | t in ids :: t in topologies
    ensures files == topologies ==>
      WrittenBack(Overwritten(files, Renamed(topologies, Elements(ids), name), Elements(ids[..k])), topologies, Elements(ids[..k]) - unrestored)
        == Renamed(topologies, unrestored, name)
  {
    assert forall t | t in Elements(ids[..k]) :: t in Elements(ids) && t in topologies;
  }

  lemma OwnedSize(topologies: map<Id, Document>, organization: Id, ids: seq<Id>)
    requires Distinct(ids) && Elements(ids) == OwnedIds(topologies, organization)
    ensures |OwnedIds(topologies, organization)| == |ids|
  {
    DistinctSize(ids);
  }

  lemma NothingLost(topologies: map<Id, Document>, name: string)
    ensures Renamed(topologies, {}, name) == topologies
  {
  }

  lemma AllWritten(files: map<Id, Document>, topologies: map<Id, Document>, ids: seq<Id>, name: string)
    requires forall t | t in ids :: t in topologies
    ensures files == topologies ==>
      Overwritten(files, Renamed(topologies, Elements(ids), name), Elements(ids[..|ids|])) == Renamed(topologies, Elements(ids), name)
  {
    assert ids[..|ids|] == ids;
  }

  /** After a failed rename memory and disk agree exactly when every file was
      written back, or the name was the old one anyway. */
  lemma FailedRenameAgrees(topologies: map<Id, Document>, organizations: map<Id, Organization>, organization: Id,
                           unrestored: set<Id>, name: string)
    requires NamesCurrent(topologies, organizations) && organization in organizations
    requires unrestored <= OwnedIds(topologies, organization)
    ensures Renamed(topologies, unrestored, name) == topologies <==> unrestored == {} || name == organizations[organization].name
  {
    var renamed := Renamed(topologies, unrestored, name);
    if unrestored != {} {
      var t :| t in unrestored;
      assert renamed[t].organization == name && topologies[t].organization == organizations[organization].name;
    }
    if unrestored == {} || name == organizations[organization].name {
      forall t | t in topologies ensures renamed[t] == topologies[t] {}
      assert renamed.Keys == topologies.Keys;
    }
  }

  lemma RenameKeepsRegistry(organizations: map<Id, Organization>, o: Organization)
    requires RegistryOk(organizations) && o.id in organizations && o == organizations[o.id].(name := o.name)
    requires Trim(o.name) == o.name != ""
    requires forall id | id in organizations && SameName(organizations[id].name, o.name) :: id == o.id
    ensures RegistryOk(organizations[o.id := o])
  {
    hide Trim, Lower;
  }

  lemma RenameKeepsTopologies(topologies: map<Id, Document>, ids: set<Id>, name: string)
    requires TopologiesOk(topologies)
    ensures TopologiesOk(Renamed(topologies, ids, name))
  {
    hide Valid, Normal;
  }

  lemma RenameKeepsNames(topologies: map<Id, Document>, organizations: map<Id, Organization>, o: Organization)
    requires NamesCurrent(topologies, organizations) && o.id in organizations
    ensures NamesCurrent(Renamed(topologies, OwnedIds(topologies, o.id), o.name), organizations[o.id := o])
  {
  }

  lemma RenameKeepsLog(log: seq<Event>, topologies: map<Id, Document>, ids: set<Id>, name: string)
    requires Logged(log, topologies)
    ensures Logged(log, Renamed(topologies, ids, name))
  {
    hide Consistent, RevisionAfter;
  }

  /** Only one organization can have the name that was found. */
  lemma OneNamed(organizations: map<Id, Organization>, found: Organization, name: string)
    requires RegistryOk(organizations) && SameName(found.name, name) && exists id :: id in organizations && organizations[id] == found
    ensures forall id | id in organizations && SameName(organizations[id].name, name) :: id == found.id
  {
    hide Trim, Lower;
  }

  lemma OneMoreRestored(files: map<Id, Document>, topologies: map<Id, Document>, ids: seq<Id>, k: nat, unrestored: set<Id>)
    requires k < |ids| && Distinct(ids) && ids[k] in topologies && unrestored <= Elements(ids[..k])
    ensures var now := WrittenBack(files, topologies, Elements(ids[..k]) - unrestored);
            && now[ids[k] := topologies[ids[k]]] == WrittenBack(files, topologies, Elements(ids[..k + 1]) - unrestored)
            && now == WrittenBack(files, topologies, Elements(ids[..k + 1]) - (unrestored + {ids[k]}))
            && unrestored + {ids[k]} <= Elements(ids[..k + 1])
  {
    assert ids[..k + 1] == ids[..k] + [ids[k]];
    assert Elements(ids[..k + 1]) == Elements(ids[..k]) + {ids[k]};
    assert ids[k] !in Elements(ids[..k]);
    var done := Elements(ids[..k]) - unrestored;
    assert Elements(ids[..k + 1]) - unrestored == done + {ids[k]};
    assert Elements(ids[..k + 1]) - (unrestored + {ids[k]}) == done;
  }

  /** The identifiers whose write the disk refuses, when they are tried in order. */
  ghost function Refused(disk: nat -> bool, tries: nat, ids: seq<Id>): set<Id> {
    set j | 0 <= j < |ids| && !disk(tries + j) :: ids[j]
  }

  lemma RefusedStep(disk: nat -> bool, tries: nat, ids: seq<Id>, k: nat)
    requires k < |ids|
    ensures Refused(disk, tries, ids[..k + 1]) == Refused(disk, tries, ids[..k]) + if disk(tries + k) then {} else {ids[k]}
  {
    var front, more := ids[..k], ids[..k + 1];
    assert forall j | 0 <= j < k :: front[j] == ids[j] && more[j] == ids[j];
    forall x ensures x in Refused(disk, tries, more) <==> x in Refused(disk, tries, front) || (!disk(tries + k) && x == ids[k]) {
      if x in Refused(disk, tries, front) {
        var j :| 0 <= j < |front| && !disk(tries + j) && front[j] == x;
        assert more[j] == x;
      }
    }
  }

  predicate NameTaken(organizations: map<Id, Organization>, name: string) {
    exists id :: id in organizations && SameName(organizations[id].name, name)
  }

  /** Why the mutation of a topology is refused, without writing anything. */
  ghost function MutationRefusal(topologies: map<Id, Document>, organizations: map<Id, Organization>, fits: Document -> bool, id: Id,
                                 expected: nat, mutation: Document -> Option<Document>): (r: Option<StoreError>)
    requires id in topologies ==> topologies[id].revision <= MAX_REVISION
    ensures r == Some(NotFound) <==> id !in topologies
    ensures r.Some? && r.value.RevisionConflict? <==> id in topologies && expected !in {0, topologies[id].revision}
    ensures r == Some(Rejected) <==> id in topologies && expected in {0, topologies[id].revision} && mutation(topologies[id]).None?
    ensures r.None? <==>
      && id in topologies && expected in {0, topologies[id].revision} && mutation(topologies[id]).Some?
      && Accepted(mutation(topologies[id]).value.(revision := NextRevision(topologies[id].revision)), organizations, fits)
  {
    if id !in topologies then Some(NotFound)
    else if expected != 0 && expected != topologies[id].revision then Some(RevisionConflict(expected, topologies[id].revision))
    else
      var next := mutation(topologies[id]);
      if next.None? then Some(Rejected)
      else if !Accepted(next.value.(revision := NextRevision(topologies[id].revision)), organizations, fits) then Some(Invalid)
      else None
  }

  /** And the removal of one; a file that is missing is tried for nothing. */
  ghost function DeletionRefusal(topologies: map<Id, Document>, id: Id, expected: nat,
                                 authorize: Document -> bool): (r: Option<StoreError>)
    ensures r == Some(NotFound) <==> id !in topologies
    ensures r.Some? && r.value.RevisionConflict? <==> id in topologies && expected !in {0, topologies[id].revision}
    ensures r.None? <==> id in topologies && expected in {0, topologies[id].revision} && authorize(topologies[id])
  {
    if id !in topologies then Some(NotFound)
    else if expected != 0 && expected != topologies[id].revision then Some(RevisionConflict(expected, topologies[id].revision))
    else if !authorize(topologies[id]) then Some(Rejected)
    else None
  }

  /** The rename of the organization is refused, without writing anything. */
  ghost function RenameRefusal(organizations: map<Id, Organization>, id: Id, name: string): (r: Option<StoreError>)
    ensures r == Some(Invalid) <==> !(1 <= |name| <= 120)
    ensures r.None? <==>
      && 1 <= |name| <= 120 && id in organizations && !organizations[id].isDefault
      && forall o | o in organizations && o != id :: Lower(organizations[o].name) != Lower(name)
  {
    if !NameFits(name) then Some(Invalid)
    else if id !in organizations then Some(NotFound)
    else if organizations[id].isDefault then Some(ProtectedOrganization)
    else if exists o :: o in organizations && o != id && SameName(organizations[o].name, name) then Some(Conflict)
    else None
  }

  /** And the removal of an organization. */
  ghost function RemovalRefusal(topologies: map<Id, Document>, organizations: map<Id, Organization>, id: Id): (r: Option<StoreError>)
    ensures r == Some(NotFound) <==> id !in organizations
    ensures r.None? <==>
      id in organizations && !organizations[id].isDefault && forall t | t in topologies :: topologies[t].organizationId != id
  {
    if id !in organizations then Some(NotFound)
    else if organizations[id].isDefault then Some(ProtectedOrganization)
    else if exists t :: t in topologies && topologies[t].organizationId == id then Some(OrganizationInUse)
    else None
  }

  /** Of the writes of a rename, listed in ids before the registry, the k-th is the
      first that the disk refuses; the k before it are then written back, and those
      are reported whose writing back it refuses. */
  ghost predicate FailsAt(disk: nat -> bool, tries: nat, ids: seq<Id>, k: nat, unrestored: set<Id>) {
    && k <= |ids| && (forall j | tries <= j < tries + k :: disk(j)) && !disk(tries + k)
    && unrestored == Refused(disk, tries + k + 1, ids[..k])
  }

  /** A file is reported exactly when the write that was to restore it failed. */
  lemma RefusedIff(disk: nat -> bool, tries: nat, ids: seq<Id>, j: nat)
    requires Distinct(ids) && j < |ids|
    ensures ids[j] in Refused(disk, tries, ids) <==> !disk(tries + j)
    ensures Refused(disk, tries, ids) <= Elements(ids)
  {
    if ids[j] in Refused(disk, tries, ids) { var i: nat :| i < |ids| && !disk(tries + i) && ids[i] == ids[j]; }
  }

  lemma AllRestored(disk: nat -> bool, tries: nat, ids: seq<Id>, k: nat, unrestored: set<Id>)
    requires FailsAt(disk, tries, ids, k, unrestored)
    ensures unrestored == {} <==> forall j | tries + k < j <= tries + 2 * k :: disk(j)
  {
    var front := ids[..k];
    forall j | tries + k < j <= tries + 2 * k && !disk(j) ensures exists x :: x in unrestored {
      var i := j - (tries + k + 1);
      assert !disk(tries + k + 1 + i);
      assert front[i] in unrestored;
    }
  }

  /** Some writes of the rename of these topologies failed like this. */
  ghost predicate RolledBackAfter(disk: nat -> bool, tries: nat, tries': nat, owned: set<Id>, unrestored: set<Id>) {
    exists ids, k: nat :: Distinct(ids) && Elements(ids) == owned && FailsAt(disk, tries, ids, k, unrestored) && tries' == tries + 2 * k + 1
  }

  lemma FailureReported(disk: nat -> bool, tries: nat, tries': nat, ids: seq<Id>, owned: set<Id>, unrestored: set<Id>)
    requires Distinct(ids) && Elements(ids) == owned
    requires exists k: nat :: FailsAt(disk, tries, ids, k, unrestored) && tries' == tries + 2 * k + 1
    ensures RolledBackAfter(disk, tries, tries', owned, unrestored)
  {
    hide FailsAt;
  }

  ghost predicate AllPass(disk: nat -> bool, tries: nat, tries': nat) { forall j | tries <= j < tries' :: disk(j) }

  lemma NothingRestored(files: map<Id, Document>, topologies: map<Id, Document>, ids: seq<Id>)
    ensures files == WrittenBack(files, topologies, Elements(ids[..0]) - {})
  {
  }

  class JsonStore {
    var topologies: map<Id, Document>
    var organizations: map<Id, Organization>
    /** The disk: one file for each topology and one for the organizations. */
    var files: map<Id, Document>
    var registry: map<Id, Organization>
    /** Whether an encoded document is within the size limit. */
    const fits: Document -> bool
    /** The disk's answer to the n-th time something is written or removed, and how
        often that was tried so far. */
    const disk: nat -> bool
    var tries: nat
    ghost var log: seq<Event>

    constructor (fits: Document -> bool, disk: nat -> bool)
      ensures Sound() && Agrees() && topologies == map[] && this.fits == fits && this.disk == disk && tries == 0
    {
      var default := Organization(DEFAULT_ORGANIZATION, "Default", true);
      topologies, files := map[], map[];
      organizations, registry := map[DEFAULT_ORGANIZATION := default], map[DEFAULT_ORGANIZATION := default];
      this.fits, this.disk, tries := fits, disk, 0;
      log := [];
      NothingLogged();
      OnlyDefault(default);
    }

    /** Memory and disk hold the same. */
    ghost predicate Agrees()
      reads this
    {
      files == topologies && registry == organizations
    }

    ghost predicate Sound()
      reads this
    {
      RegistryOk(organizations) && TopologiesOk(topologies) && NamesCurrent(topologies, organizations) && Logged(log, topologies)
    }

    // ----- files

    /** Whether the disk lets the next write or removal through. */
    method Try() returns (ok: bool)
      modifies this`tries
      ensures ok == disk(old(tries)) && tries == old(tries) + 1
    {
      ok := disk(tries);
      tries := tries + 1;
    }

    /** writeTopology: atomic, and may fail. */
    method WriteTopology(d: Document) returns (ok: bool)
      modifies this`files, this`tries
      ensures ok == disk(old(tries)) && tries == old(tries) + 1
      ensures files == if ok then old(files)[d.plan.id := d] else old(files)
    {
      ok := Try();
      if ok { files := files[d.plan.id := d]; }
    }

    method WriteOrganizations(source: map<Id, Organization>) returns (ok: bool)
      modifies this`registry, this`tries
      ensures ok == disk(old(tries)) && tries == old(tries) + 1
      ensures registry == if ok then source else old(registry)
    {
      ok := Try();
      if ok { registry := source; }
    }

    /** os.Remove: fails when there is no such file, and may fail otherwise. */
    method RemoveFile(id: Id) returns (ok: bool)
      modifies this`files, this`tries
      ensures ok == (id in old(files) && disk(old(tries))) && tries == old(tries) + 1
      ensures files == if ok then old(files) - {id} else old(files)
    {
      ok := Try();
      if id !in files { return false; }
      if ok { files := files - {id}; }
    }

    // ----- organizations

    /** findOrganizationByNameLocked. */
    method FindByName(name: string) returns (found: Option<Organization>)
      ensures found.Some? ==> exists id :: id in organizations && organizations[id] == found.value
      ensures found.Some? ==> SameName(found.value.name, Trim(name))
      ensures found.None? ==> forall id | id in organizations :: !SameName(organizations[id].name, Trim(name))
    {
      var ids := Listing(organizations.Keys);
      for k := 0 to |ids|
        invariant forall j | 0 <= j < k :: ids[j] in organizations && !SameName(organizations[ids[j]].name, Trim(name))
      {
        assert ids[k] in Elements(ids);
        if SameName(organizations[ids[k]].name, Trim(name)) { return Some(organizations[ids[k]]); }
      }
      assert forall id | id in organizations :: id in Elements(ids);
      return None;
    }

    /** CreateOrganization; newId is random, and so not registered. */
    method CreateOrganization(name: string, newId: Id) returns (r: Result<Organization, StoreError>)
      requires Sound() && newId !in organizations
      modifies this`organizations, this`registry, this`tries
      ensures Sound() && (old(Agrees()) ==> Agrees())
      ensures r.Ok? ==>
        && r.value == Organization(newId, Trim(name), false)
        && organizations == registry == old(organizations)[newId := r.value]
      ensures r == Err(Invalid) <==> !NameFits(Trim(name))
      ensures r == Err(Conflict) <==> NameFits(Trim(name)) && NameTaken(old(organizations), Trim(name))
      ensures r == Err(WriteFailed({})) <==> NameFits(Trim(name)) && !NameTaken(old(organizations), Trim(name)) && !disk(old(tries))
      ensures r.Ok? <==> NameFits(Trim(name)) && !NameTaken(old(organizations), Trim(name)) && disk(old(tries))
      ensures tries == old(tries) + if r.Ok? || r.error.WriteFailed? then 1 else 0
      ensures r.Err? ==> organizations == old(organizations) && registry == old(registry)
    {
      hide RegistryOk, TopologiesOk, NamesCurrent, Logged, Storable, Valid, Normal, Trim, Lower, NextRevision;
      var trimmed := Trim(name);
      TrimTwice(name);
      if !NameFits(trimmed) { return Err(Invalid); }
      var found := FindByName(trimmed);
      if found.Some? { return Err(Conflict); }
      var organization := Organization(newId, trimmed, false);
      var changed := organizations[newId := organization];
      var ok := WriteOrganizations(changed);
      if !ok { return Err(WriteFailed({})); }
      RegistryAdds(organizations, organization);
      NamesKeep(topologies, organizations, changed);
      organizations := organizations[newId := organization];
      return Ok(organization);
    }

    /** The topologies of an organization, in no particular order. */
    method OwnedBy(organization: Id) returns (ids: seq<Id>)
      ensures Distinct(ids) && Elements(ids) == OwnedIds(topologies, organization)
    {
      ids := [];
      var listed := Listing(topologies.Keys);
      for k := 0 to |listed|
        invariant Distinct(ids) && Elements(ids) == set t | t in listed[..k] && t in topologies && topologies[t].organizationId == organization
      {
        assert listed[..k + 1] == listed[..k] + [listed[k]] && listed[k] in Elements(listed);
        if topologies[listed[k]].organizationId == organization {
          assert forall t | t in ids :: t in Elements(ids);
          assert Elements(ids + [listed[k]]) == Elements(ids) + {listed[k]};
          ids := ids + [listed[k]];
        }
      }
      assert listed[..|listed|] == listed;
      assert forall t :: t in listed <==> t in Elements(listed);
    }

    /** restoreTopologyFiles: every file is tried once; those that fail are reported. */
    method RestoreTopologyFiles(ids: seq<Id>) returns (unrestored: set<Id>)
      requires TopologiesOk(topologies) && Distinct(ids) && forall t | t in ids :: t in topologies
      modifies this`files, this`tries
      ensures unrestored == Refused(disk, old(tries), ids) && tries == old(tries) + |ids|
      ensures unrestored <= Elements(ids)
      ensures files == WrittenBack(old(files), topologies, Elements(ids) - unrestored)
    {
      hide TopologiesOk, WrittenBack;
      unrestored := {};
      NothingRestored(files, topologies, ids);
      for k := 0 to |ids|
        invariant tries == old(tries) + k && unrestored == Refused(disk, old(tries), ids[..k])
        invariant unrestored <= Elements(ids[..k])
        invariant files == WrittenBack(old(files), topologies, Elements(ids[..k]) - unrestored)
      {
        RefusedStep(disk, old(tries), ids, k);
        OneMoreRestored(old(files), topologies, ids, k, unrestored);
        TopologyIs(topologies, ids[k]);
        var ok := WriteTopology(topologies[ids[k]]);
        if !ok { unrestored := unrestored + {ids[k]}; }
      }
      assert ids[..|ids|] == ids;
    }

    /** The writes of a rename: what was written before one that fails is written
        back. */
    method WriteRenamed(ids: seq<Id>, organization: Organization) returns (failed: Option<set<Id>>)
      requires TopologiesOk(topologies) && Distinct(ids) && forall t | t in ids :: t in topologies
      modifies this`files, this`registry, this`tries
      ensures failed.None? ==>
        && registry == organizations[organization.id := organization]
        && files == Overwritten(old(files), Renamed(topologies, Elements(ids), organization.name), Elements(ids[..|ids|]))
        && tries == old(tries) + |ids| + 1 && AllPass(disk, old(tries), tries)
      ensures failed.Some? ==>
        && registry == old(registry) && failed.value <= Elements(ids)
        && (exists k: nat :: FailsAt(disk, old(tries), ids, k, failed.value) && tries == old(tries) + 2 * k + 1)
        && (old(files) == topologies ==> files == Renamed(topologies, failed.value, organization.name))
    {
      hide TopologiesOk, Renamed, WrittenBack, Overwritten, Refused;
      var name := organization.name;
      NothingRenamed(files, topologies, ids, name);
      for k := 0 to |ids|
        invariant tries == old(tries) + k && AllPass(disk, old(tries), tries) && registry == old(registry)
        invariant files == Overwritten(old(files), Renamed(topologies, Elements(ids), name), Elements(ids[..k]))
      {
        RenamedAt(topologies, ids, k, name);
        var ok := WriteTopology(topologies[ids[k]].(organization := name));
        if !ok {
          var unrestored := WriteBack(old(files), ids, k, name);
          assert FailsAt(disk, old(tries), ids, k, unrestored);
          return Some(unrestored);
        }
        OneMoreWritten(old(files), topologies, ids, k, name);
      }
      var ok := WriteOrganizations(organizations[organization.id := organization]);
      if !ok {
        var unrestored := WriteBack(old(files), ids, |ids|, name);
        assert FailsAt(disk, old(tries), ids, |ids|, unrestored);
        return Some(unrestored);
      }
      return None;
    }

    /** The first k files of a rename are written back. */
    method WriteBack(ghost before: map<Id, Document>, ids: seq<Id>, k: nat, ghost name: string) returns (unrestored: set<Id>)
      requires TopologiesOk(topologies) && Distinct(ids) && (forall t | t in ids :: t in topologies) && k <= |ids|
      requires files == Overwritten(before, Renamed(topologies, Elements(ids), name), Elements(ids[..k]))
      modifies this`files, this`tries
      ensures unrestored == Refused(disk, old(tries), ids[..k]) && unrestored <= Elements(ids) && tries == old(tries) + k
      ensures before == topologies ==> files == Renamed(topologies, unrestored, name)
    {
      hide TopologiesOk, Renamed, WrittenBack, Overwritten, Refused;
      PrefixKnown(topologies, ids, k);
      unrestored := RestoreTopologyFiles(ids[..k]);
      RolledBack(before, topologies, ids, k, unrestored, name);
      assert forall t | t in Elements(ids[..k]) :: t in Elements(ids);
    }

    /** RenameOrganization: the topologies' files first, then the registry; when a
        write fails, what was written before is written back. A failed rename
        leaves memory as it was, and on disk the new name in exactly the files
        that could not be written back. */
    method RenameOrganization(id: Id, name: string) returns (r: Result<Organization, StoreError>)
      requires Sound()
      modifies this`topologies, this`organizations, this`files, this`registry, this`tries
      ensures Sound()
      ensures r.Ok? ==> old(Agrees()) ==> Agrees()
      ensures match RenameRefusal(old(organizations), Trim(id), Trim(name))
              case Some(e) => r == Err(e) && tries == old(tries)
              case None => r.Ok? || r.error.WriteFailed?
      ensures r.Ok? ==> tries == old(tries) + |OwnedIds(old(topologies), Trim(id))| + 1 && AllPass(disk, old(tries), tries)
      ensures r.Err? && r.error.WriteFailed? ==>
        RolledBackAfter(disk, old(tries), tries, OwnedIds(topologies, Trim(id)), r.error.unrestored)
      ensures r.Err? && r.error.WriteFailed? && old(Agrees()) && r.error.unrestored == {} ==> Agrees()
      ensures r.Ok? ==> r.value == old(organizations)[Trim(id)].(name := Trim(name))
      ensures r.Ok? ==> organizations == old(organizations)[Trim(id) := r.value]
      ensures r.Ok? ==> topologies == Renamed(old(topologies), OwnedIds(old(topologies), Trim(id)), Trim(name))
      ensures r.Err? ==> topologies == old(topologies) && organizations == old(organizations) && registry == old(registry)
      ensures r.Err? && !r.error.WriteFailed? ==> files == old(files)
      ensures r.Err? && r.error.WriteFailed? && old(Agrees()) ==>
        r.error.unrestored <= OwnedIds(topologies, Trim(id)) && files == Renamed(topologies, r.error.unrestored, Trim(name))
    {
      hide RegistryOk, TopologiesOk, NamesCurrent, Logged, Storable, Valid, Normal, Trim, Lower, OwnedIds, Renamed, WrittenBack,
           RolledBackAfter, FailsAt, AllPass;
      var key, trimmed := Trim(id), Trim(name);
      TrimTwice(name);
      if !NameFits(trimmed) { return Err(Invalid); }
      if key !in organizations { return Err(NotFound); }
      var organization := organizations[key];
      if organization.isDefault { return Err(ProtectedOrganization); }
      var duplicate := FindByName(trimmed);
      if duplicate.Some? { OneNamed(organizations, duplicate.value, trimmed); }
      if duplicate.Some? && duplicate.value.id != key { return Err(Conflict); }
      RegistryNamed(organizations, key);
      organization := organization.(name := trimmed);
      var ids := OwnedBy(key);
      OwnedKnown(topologies, key, ids);
      OwnedSize(topologies, key, ids);
      NothingLost(topologies, trimmed);
      AllWritten(files, topologies, ids, trimmed);
      ghost var n := tries;
      var failed := WriteRenamed(ids, organization);
      if failed.Some? {
        FailureReported(disk, n, tries, ids, OwnedIds(topologies, key), failed.value);
        return Err(WriteFailed(failed.value));
      }
      RenameKeepsRegistry(organizations, organization);
      RenameKeepsTopologies(topologies, Elements(ids), trimmed);
      RenameKeepsNames(topologies, organizations, organization);
      RenameKeepsLog(log, topologies, Elements(ids), trimmed);
      organizations := organizations[key := organization];
      topologies := Publish(topologies, ids, trimmed);
      return Ok(organization);
    }

    /** The loop that makes the new name visible. */
    method Publish(current: map<Id, Document>, ids: seq<Id>, name: string) returns (r: map<Id, Document>)
      requires forall t | t in ids :: t in current
      ensures r == Renamed(current, Elements(ids), name)
    {
      r := current;
      for k := 0 to |ids|
        invariant r == Renamed(current, Elements(ids[..k]), name)
      {
        assert ids[..k + 1] == ids[..k] + [ids[k]];
        assert Elements(ids[..k + 1]) == Elements(ids[..k]) + {ids[k]};
        r := r[ids[k] := current[ids[k]].(organization := name)];
      }
      assert ids[..|ids|] == ids;
    }

    /** DeleteOrganization. */
    method DeleteOrganization(id: Id) returns (failure: Option<StoreError>)
      requires Sound()
      modifies this`organizations, this`registry, this`tries
      ensures Sound() && (old(Agrees()) ==> Agrees())
      ensures match RemovalRefusal(topologies, old(organizations), Trim(id))
              case Some(e) => failure == Some(e) && tries == old(tries)
              case None => failure == (if disk(old(tries)) then None else Some(WriteFailed({}))) && tries == old(tries) + 1
      ensures failure.None? ==> organizations == registry == old(organizations) - {Trim(id)}
      ensures failure.Some? ==> organizations == old(organizations) && registry == old(registry)
    {
      hide RegistryOk, TopologiesOk, NamesCurrent, Logged, Storable, Valid, Normal, Trim, Lower, NextRevision;
      var key := Trim(id);
      if key !in organizations { return Some(NotFound); }
      if organizations[key].isDefault { return Some(ProtectedOrganization); }
      var used := InUse(key);
      if used { return Some(OrganizationInUse); }
      var ok := WriteOrganizations(organizations - {key});
      if !ok { return Some(WriteFailed({})); }
      RegistryDrops(organizations, key);
      NamesKeep(topologies, organizations, organizations - {key});
      organizations := organizations - {key};
      return None;
    }

    method InUse(organization: Id) returns (used: bool)
      ensures used <==> exists t :: t in topologies && topologies[t].organizationId == organization
    {
      var ids := Listing(topologies.Keys);
      for k := 0 to |ids|
        invariant forall j | 0 <= j < k :: ids[j] in topologies && topologies[ids[j]].organizationId != organization
      {
        assert ids[k] in Elements(ids);
        if topologies[ids[k]].organizationId == organization { return true; }
      }
      assert forall t | t in topologies :: t in Elements(ids);
      return false;
    }

    // ----- topologies

    /** Create. */
    method Create(d: Document) returns (r: Result<Document, StoreError>)
      requires Sound() && d.revision <= MAX_REVISION
      modifies this`topologies, this`files, this`tries, this`log
      ensures Sound() && (old(Agrees()) ==> Agrees())
      ensures r == Err(Invalid) <==> !Accepted(d, organizations, fits)
      ensures r == Err(Conflict) <==> Accepted(d, organizations, fits) && d.plan.id in old(topologies)
      ensures r == Err(WriteFailed({})) <==> Accepted(d, organizations, fits) && d.plan.id !in old(topologies) && !disk(old(tries))
      ensures r.Ok? <==> Accepted(d, organizations, fits) && d.plan.id !in old(topologies) && disk(old(tries))
      ensures tries == old(tries) + if r.Ok? || r.error.WriteFailed? then 1 else 0
      ensures r.Ok? ==>
        && r.value == NormalDocument(Owned(d, organizations[Trim(d.organizationId)])) && r.value.plan.id == d.plan.id
        && topologies == old(topologies)[d.plan.id := r.value] && files == old(files)[d.plan.id := r.value]
        && log == old(log) + [Created(r.value.plan.id, r.value.revision)]
      ensures r.Err? ==> topologies == old(topologies) && files == old(files) && log == old(log)
    {
      hide RegistryOk, TopologiesOk, NamesCurrent, Logged, Storable, Valid, Normal, Trim, Lower, NextRevision;
      var key := Trim(d.organizationId);
      if key !in organizations { return Err(Invalid); }
      var next := NormalizeDocument(Owned(d, organizations[key]));
      var ok := ValidateTopology(next.plan);
      if !ok { return Err(Invalid); }
      if !fits(next) { return Err(Invalid); }
      if next.plan.id in topologies { return Err(Conflict); }
      ok := WriteTopology(next);
      if !ok { return Err(WriteFailed({})); }
      TrimTwice(d.organizationId);
      NormalStorable(Owned(d, organizations[key]));
      RegistryNamed(organizations, key);
      TopologyStored(topologies, organizations, next);
      LogsCreation(log, topologies, next);
      topologies := topologies[next.plan.id := next];
      log := log + [Created(next.plan.id, next.revision)];
      return Ok(next);
    }

    /** MutateAtRevision. Mutations may fail; none that the handlers pass changes
        a topology's identifier. */
    method MutateAtRevision(id: Id, expected: nat, mutation: Document -> Option<Document>) returns (r: Result<Document,
                            StoreError>)
      requires Sound()
      requires forall d :: mutation(d).Some? ==> mutation(d).value.plan.id == d.plan.id
      modifies this`topologies, this`files, this`tries, this`log
      ensures Sound() && (old(Agrees()) ==> Agrees())
      ensures match MutationRefusal(old(topologies), organizations, fits, id, expected, mutation)
              case Some(e) => r == Err(e) && tries == old(tries)
              case None => tries == old(tries) + 1 && if disk(old(tries)) then r.Ok? else r == Err(WriteFailed({}))
      ensures r.Ok? ==>
        && id in old(topologies) && old(topologies)[id].revision <= MAX_REVISION && mutation(old(topologies)[id]).Some?
        && Trim(mutation(old(topologies)[id]).value.organizationId) in organizations
        && topologies == old(topologies)[id := r.value] && files == old(files)[id := r.value] && r.value.plan.id == id
        && var next := mutation(old(topologies)[id]).value;
           && r.value == NormalDocument(Owned(next, organizations[Trim(next.organizationId)]).(revision := r.value.revision))
           && r.value.revision == NextRevision(old(topologies)[id].revision)
           && log == old(log) + [Committed(id, expected, old(topologies)[id].revision)]
      ensures r.Err? ==> topologies == old(topologies) && files == old(files) && log == old(log)
    {
      hide RegistryOk, TopologiesOk, NamesCurrent, Logged, Storable, Valid, Normal, Trim, Lower, NextRevision;
      if id !in topologies { return Err(NotFound); }
      var current := topologies[id];
      TopologyIs(topologies, id);
      Wraps(current.revision);
      if expected != 0 && current.revision != expected { return Err(RevisionConflict(expected, current.revision)); }
      var mutated := mutation(current);
      if mutated.None? { return Err(Rejected); }
      var key := Trim(mutated.value.organizationId);
      if key !in organizations { return Err(Invalid); }
      var owned := Owned(mutated.value, organizations[key]).(revision := (current.revision + 1) % (MAX_REVISION + 1));
      var next := NormalizeDocument(owned);
      var ok := ValidateTopology(next.plan);
      if !ok { return Err(Invalid); }
      if !fits(next) { return Err(Invalid); }
      ok := WriteTopology(next);
      if !ok { return Err(WriteFailed({})); }
      TrimTwice(mutated.value.organizationId);
      NormalStorable(owned);
      RegistryNamed(organizations, key);
      TopologyStored(topologies, organizations, next);
      LogsCommit(log, topologies, next, expected);
      topologies := topologies[id := next];
      log := log + [Committed(id, expected, current.revision)];
      return Ok(next);
    }

    /** DeleteAtRevision; authorize sees the snapshot that is deleted. */
    method DeleteAtRevision(id: Id, expected: nat, authorize: Document -> bool) returns (failure: Option<StoreError>)
      requires Sound()
      modifies this`topologies, this`files, this`tries, this`log
      ensures Sound() && (old(Agrees()) ==> Agrees())
      ensures match DeletionRefusal(old(topologies), id, expected, authorize)
              case Some(e) => failure == Some(e) && tries == old(tries)
              case None =>
                && tries == old(tries) + 1
                && failure == if id !in old(files) then Some(NotFound) else if disk(old(tries)) then None else Some(WriteFailed({}))
      ensures failure.None? ==>
        && topologies == old(topologies) - {id} && files == old(files) - {id} && log == old(log) + [Deleted(id)]
      ensures failure.Some? ==> topologies == old(topologies) && files == old(files) && log == old(log)
    {
      hide RegistryOk, TopologiesOk, NamesCurrent, Logged, Storable, Valid, Normal, Trim, Lower, NextRevision;
      if id !in topologies { return Some(NotFound); }
      var current := topologies[id];
      if expected != 0 && current.revision != expected { return Some(RevisionConflict(expected, current.revision)); }
      if !authorize(current) { return Some(Rejected); }
      var exists' := id in files;
      var ok := RemoveFile(id);
      if !ok { return Some(if exists' then WriteFailed({}) else NotFound); }
      LogsDeletion(log, topologies, id);
      TopologyDropped(topologies, organizations, id);
      topologies := topologies - {id};
      log := log + [Deleted(id)];
      return None;
    }
  }
}
