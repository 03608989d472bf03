/** organizationCatalog: two maps kept as inverses of each other. */
module Catalog {
  import opened Outcomes
  import opened Text

  datatype OrganizationRef = OrganizationRef(id: Id, name: string)

  datatype CatalogError = EmptyIdentity | LongName | DuplicateId | DuplicateName

  function NameKey(name: string): string { Lower(Trim(name)) }

  function Trimmed(ref: OrganizationRef): OrganizationRef { OrganizationRef(Trim(ref.id), Trim(ref.name)) }

  /** byName leads from the key of each organization's name to its identifier,
      and nowhere else. */
  ghost predicate Inverse(byId: map<Id, OrganizationRef>, byName: map<string, Id>) {
    && (forall id | id in byId :: byId[id].id == id && Trim(id) == id != "" && NameKey(byId[id].name) in byName
          && byName[NameKey(byId[id].name)] == id)
    && forall key | key in byName :: byName[key] in byId && NameKey(byId[byName[key]].name) == key
  }

  /** Each map is determined by the other. */
  lemma InverseUnique(byId: map<Id, OrganizationRef>, a: map<string, Id>, b: map<string, Id>)
    requires Inverse(byId, a) && Inverse(byId, b)
    ensures a == b
  {
    hide NameKey, Trim;
    forall key ensures key in a <==> key in b {
      if key in a { assert a[key] in byId; }
      if key in b { assert b[key] in byId; }
    }
    forall key | key in a ensures a[key] == b[key] { assert b[key] in byId && a[key] in byId; }
  }

  /** No two organizations have the same name. */
  lemma NamesDiffer(byId: map<Id, OrganizationRef>, byName: map<string, Id>, a: Id, b: Id)
    requires Inverse(byId, byName) && a in byId && b in byId && NameKey(byId[a].name) == NameKey(byId[b].name)
    ensures a == b
  {
    hide NameKey, Trim;
  }

  lemma RegisterInverse(byId: map<Id, OrganizationRef>, byName: map<string, Id>, ref: OrganizationRef)
    requires Inverse(byId, byName) && Trim(ref.id) == ref.id != ""
    requires NameKey(ref.name) in byName ==> byName[NameKey(ref.name)] == ref.id
    ensures var names := if ref.id in byId then byName - {NameKey(byId[ref.id].name)} else byName;
            Inverse(byId[ref.id := ref], names[NameKey(ref.name) := ref.id])
  {
    hide NameKey, Trim;
  }

  lemma RemoveInverse(byId: map<Id, OrganizationRef>, byName: map<string, Id>, id: Id)
    requires Inverse(byId, byName) && id in byId
    ensures Inverse(byId - {id}, byName - {NameKey(byId[id].name)})
  {
    hide NameKey, Trim;
  }

  class OrganizationCatalog {
    var byId: map<Id, OrganizationRef>
    var byName: map<string, Id>

    ghost predicate Valid()
      reads this
    {
      Inverse(byId, byName)
    }

    constructor ()
      ensures Valid() && byId == map[]
    {
      byId, byName := map[], map[];
    }

    /** clone. */
    constructor Clone(other: OrganizationCatalog)
      requires other.Valid()
      ensures Valid() && byId == other.byId && byName == other.byName
    {
      byId, byName := other.byId, other.byName;
    }

    /** register: adds an organization or renames it; refused when the name is
        another one's. */
    method Register(ref: OrganizationRef) returns (failure: Option<CatalogError>)
      requires Valid()
      modifies this
      ensures Valid()
      ensures failure.None? <==>
        RefFits(ref) && forall id | id in old(byId) && NameKey(old(byId)[id].name) == NameKey(ref.name) :: id == Trim(ref.id)
      ensures failure.None? ==> byId == old(byId)[Trim(ref.id) := Trimmed(ref)]
      ensures failure.Some? ==> byId == old(byId) && byName == old(byName)
    {
      hide Lower, Trim;
      TrimTwice(ref.id);
      TrimTwice(ref.name);
      var r := Trimmed(ref);
      if r.id == "" || r.name == "" { return Some(EmptyIdentity); }
      if |r.name| > 120 { return Some(LongName); }
      var key := NameKey(r.name);
      if key in byName && byName[key] != r.id { return Some(DuplicateName); }
      RegisterInverse(byId, byName, r);
      if r.id in byId { byName := byName - {NameKey(byId[r.id].name)}; }
      byId := byId[r.id := r];
      byName := byName[key := r.id];
      return None;
    }

    /** remove. */
    method Remove(id: Id)
      requires Valid()
      modifies this
      ensures Valid() && byId == old(byId) - {Trim(id)}
    {
      hide Lower, Trim;
      var key := Trim(id);
      if key in byId {
        RemoveInverse(byId, byName, key);
        byName := byName - {NameKey(byId[key].name)};
        byId := byId - {key};
      }
    }

    predicate Contains(id: Id)
      reads this
    {
      Trim(id) in byId
    }

    /** idByName. */
    function IdByName(name: string): (id: Option<Id>)
      reads this
      requires Valid()
      ensures id.Some? ==> id.value in byId && NameKey(byId[id.value].name) == NameKey(name)
      ensures id.None? ==> forall o | o in byId :: NameKey(byId[o].name) != NameKey(name)
    {
      hide Lower, Trim;
      if NameKey(name) in byName then Some(byName[NameKey(name)]) else None
    }
  }

  predicate RefFits(ref: OrganizationRef) {
    Trim(ref.id) != "" && Trim(ref.name) != "" && |Trim(ref.name)| <= 120
  }

  ghost predicate RefsDiffer(a: OrganizationRef, b: OrganizationRef) {
    Trim(a.id) != Trim(b.id) && NameKey(a.name) != NameKey(b.name)
  }

  /** The first n references, which fit and differ, are the catalog. */
  ghost predicate Loaded(refs: seq<OrganizationRef>, n: nat, byId: map<Id, OrganizationRef>)
    requires n <= |refs|
  {
    && (forall k | 0 <= k < n :: RefFits(refs[k]) && Trim(refs[k].id) in byId && byId[Trim(refs[k].id)] == Trimmed(refs[k]))
    && (forall id | id in byId :: exists k :: 0 <= k < n && Trim(refs[k].id) == id)
    && forall j, k | 0 <= j < k < n :: RefsDiffer(refs[j], refs[k])
  }

  ghost predicate RefsFit(refs: seq<OrganizationRef>) {
    && (forall k | 0 <= k < |refs| :: RefFits(refs[k]))
    && forall j, k | 0 <= j < k < |refs| :: RefsDiffer(refs[j], refs[k])
  }

  /** The next reference adds to the catalog, unless its identifier or its name
      is taken by an earlier one. */
  lemma LoadNext(refs: seq<OrganizationRef>, n: nat, byId: map<Id, OrganizationRef>, byName: map<string, Id>)
    requires n < |refs| && Loaded(refs, n, byId) && Inverse(byId, byName)
    ensures Trim(refs[n].id) in byId || NameKey(refs[n].name) in byName ==> !RefsFit(refs)
    ensures RefFits(refs[n]) && Trim(refs[n].id) !in byId && NameKey(refs[n].name) !in byName ==>
              Loaded(refs, n + 1, byId[Trim(refs[n].id) := Trimmed(refs[n])])
  {
    hide Trim, NameKey, Inverse;
    forall k | 0 <= k < n
      ensures Trim(refs[n].id) !in byId && NameKey(refs[n].name) !in byName ==> RefsDiffer(refs[k], refs[n]) {
      NameTaken(refs, n, byId, byName, k);
    }
    if Trim(refs[n].id) in byId {
      var k :| 0 <= k < n && Trim(refs[k].id) == Trim(refs[n].id);
      assert !RefsDiffer(refs[k], refs[n]);
    } else if NameKey(refs[n].name) in byName {
      var k := NameTaker(refs, n, byId, byName, NameKey(refs[n].name));
      assert !RefsDiffer(refs[k], refs[n]);
    }
  }

  lemma NameTaken(refs: seq<OrganizationRef>, n: nat, byId: map<Id, OrganizationRef>, byName: map<string, Id>, k: nat)
    requires k < n <= |refs| && Loaded(refs, n, byId) && Inverse(byId, byName)
    ensures Trim(refs[k].id) in byId && NameKey(refs[k].name) in byName
  {
    hide Trim, NameKey, RefFits, RefsDiffer;
    KeyOfTrimmed(refs[k]);
  }

  lemma NameTaker(refs: seq<OrganizationRef>, n: nat, byId: map<Id, OrganizationRef>, byName: map<string, Id>, key: string)
    returns (k: nat)
    requires n <= |refs| && Loaded(refs, n, byId) && Inverse(byId, byName) && key in byName
    ensures k < n && NameKey(refs[k].name) == key
  {
    hide Trim, NameKey, RefFits, RefsDiffer;
    k :| k < n && Trim(refs[k].id) == byName[key];
    KeyOfTrimmed(refs[k]);
  }

  lemma NoneLoaded(refs: seq<OrganizationRef>)
    ensures Loaded(refs, 0, map[])
  {
  }

  /** newOrganizationCatalog: a catalog of exactly the references given, which
      is refused when one does not fit or two of them clash. */
  method NewCatalog(refs: seq<OrganizationRef>) returns (r: Result<OrganizationCatalog, CatalogError>)
    ensures r.Ok? <==> RefsFit(refs)
    ensures r.Ok? ==> fresh(r.value) && r.value.Valid() && Loaded(refs, |refs|, r.value.byId)
  {
    hide Lower, Trim, Inverse, Loaded, NameKey;
    var catalog := new OrganizationCatalog();
    NoneLoaded(refs);
    for i := 0 to |refs|
      invariant catalog.Valid() && fresh(catalog) && Loaded(refs, i, catalog.byId)
    {
      var ref := Trimmed(refs[i]);
      TrimTwice(refs[i].id);
      KeyOfTrimmed(refs[i]);
      LoadNext(refs, i, catalog.byId, catalog.byName);
      if ref.id == "" || ref.name == "" { return Err(EmptyIdentity); }
      if |ref.name| > 120 { return Err(LongName); }
      if ref.id in catalog.byId { return Err(DuplicateId); }
      if NameKey(ref.name) in catalog.byName { return Err(DuplicateName); }
      RegisterInverse(catalog.byId, catalog.byName, ref);
      catalog.byId := catalog.byId[ref.id := ref];
      catalog.byName := catalog.byName[NameKey(ref.name) := ref.id];
    }
    AllLoaded(refs, catalog.byId);
    return Ok(catalog);
  }

  lemma KeyOfTrimmed(ref: OrganizationRef)
    ensures NameKey(Trimmed(ref).name) == NameKey(ref.name)
  {
    hide Lower, Trim;
    TrimTwice(ref.name);
  }

  lemma AllLoaded(refs: seq<OrganizationRef>, byId: map<Id, OrganizationRef>)
    requires Loaded(refs, |refs|, byId)
    ensures RefsFit(refs)
  {
    hide Trim, NameKey, RefFits, RefsDiffer;
  }
}
