/** Persisted accounts, and what validatePersistentState demands of them. */
module Accounts {
  import opened Outcomes
  import opened Text
  import opened Sorting
  import opened Lists

  const ROLE_ADMIN := "admin"
  const ROLE_USER := "user"
  const ROLE_GUEST := "guest"
  const BOOTSTRAP_ADMIN := "bootstrap-admin"
  const MAX_GRANTS := 64

  datatype AuthSource = Local | Entra

  /** A sealed authenticator secret opens only for the account it was sealed
      for: encryption itself is not modelled. */
  datatype Secret = NoSecret | Sealed(owner: Id, secret: string)

  datatype User = User(
    id: Id, username: string, usernameKey: string, role: string, allOrganizations: bool, organizationIds: seq<Id>,
    passwordHash: string, secret: Secret, recoveryHashes: seq<string>, lastTotpStep: nat,
    authSource: AuthSource, externalLogin: string, externalTenantId: string, externalObjectId: string, externalLinkedAt: int,
    bootstrap: bool, disabled: bool)

  datatype AuthState = AuthState(guestOrganizationId: Id, users: seq<User>)

  datatype Access = Access(role: string, allOrganizations: bool, organizationIds: seq<Id>)

  /** Formats that are checked character by character or by a library. */
  datatype Formats = Formats(
    validHash: string -> bool, validSecret: string -> bool, validLogin: string -> bool, validUsername: string -> bool)

  function NormalizeUsername(s: string): string { Lower(Trim(s)) }

  // ----- organization grants

  ghost function TrimmedIds(ids: seq<Id>): set<Id> { set id | id in ids && Trim(id) != "" :: Trim(id) }

  /** normalizeIDs: trimmed, without blanks and repeats, sorted. */
  ghost function NormalIds(ids: seq<Id>): (r: seq<Id>)
    ensures Elements(r) == TrimmedIds(ids) && Ascending(Less, r) && |r| == |TrimmedIds(ids)|
  {
    SortedIds(TrimmedIds(ids))
  }

  lemma TrimmedOnce(ids: seq<Id>, id: Id)
    requires id in TrimmedIds(ids)
    ensures Trim(id) == id != ""
  {
    var raw :| raw in ids && Trim(raw) == id;
    TrimTwice(raw);
  }

  lemma NormalMembers(ids: seq<Id>)
    ensures forall id :: id in NormalIds(ids) <==> id in TrimmedIds(ids)
    ensures forall id | id in NormalIds(ids) :: Trim(id) == id != ""
  {
    hide Trim, TrimmedIds, SortedIds;
    var r := NormalIds(ids);
    forall id ensures id in r <==> id in TrimmedIds(ids) { assert id in r <==> id in Elements(r); }
    forall id | id in r ensures Trim(id) == id != "" { TrimmedOnce(ids, id); }
  }

  lemma AlreadyTrimmed(ids: seq<Id>)
    requires forall id | id in ids :: Trim(id) == id != ""
    ensures TrimmedIds(ids) == Elements(ids)
  {
    hide Trim;
  }

  lemma NormalIdsTwice(ids: seq<Id>)
    ensures NormalIds(NormalIds(ids)) == NormalIds(ids)
  {
    hide Trim, TrimmedIds, SortedIds;
    NormalMembers(ids);
    AlreadyTrimmed(NormalIds(ids));
  }

  /** What is left of normalized grants when one is taken away is normalized. */
  lemma NormalIdsWithout(ids: seq<Id>, i: nat)
    requires NormalIds(ids) == ids && i < |ids|
    ensures NormalIds(RemoveAt(ids, i)) == RemoveAt(ids, i) && ids[i] !in RemoveAt(ids, i)
  {
    hide NormalIds, Trim, Less;
    var rest := RemoveAt(ids, i);
    LessIsStrictTotal();
    NormalMembers(ids);
    RemovePairwise(ids, i, Less);
    AlreadyTrimmed(rest);
    AscendingUnique(Less, NormalIds(rest), rest);
    AscendingDistinct(Less, ids);
  }

  method NormalizeIds(values: seq<Id>) returns (r: seq<Id>)
    ensures r == NormalIds(values)
  {
    var kept: seq<Id>, seen: set<Id> := [], {};
    for i := 0 to |values|
      invariant seen == Elements(kept) == TrimmedIds(values[..i])
    {
      assert values[..i + 1] == values[..i] + [values[i]];
      var value := Trim(values[i]);
      if value == "" || value in seen { continue; }
      assert Elements(kept + [value]) == Elements(kept) + {value};
      kept, seen := kept + [value], seen + {value};
    }
    assert values[..|values|] == values;
    LessIsStrictTotal();
    r := SortAndCompact(kept, Less);
  }

  /** Grants as normalizeAccessLocked leaves them. */
  ghost predicate AccessValid(a: Access, known: set<Id>) {
    && (a.role == ROLE_ADMIN || a.role == ROLE_USER)
    && |a.organizationIds| <= MAX_GRANTS && NormalIds(a.organizationIds) == a.organizationIds
    && (forall id | id in a.organizationIds :: Trim(id) in known)
    && (a.role == ROLE_ADMIN ==> a.allOrganizations && a.organizationIds == [])
    && (a.allOrganizations ==> a.organizationIds == [])
  }

  // ----- accounts

  ghost predicate UserValid(u: User, known: set<Id>, formats: Formats) {
    && u.id != "" && u.usernameKey != "" && NormalizeUsername(u.username) == u.usernameKey
    && AccessValid(Access(u.role, u.allOrganizations, u.organizationIds), known)
    && (u.bootstrap ==> u.id == BOOTSTRAP_ADMIN && u.role == ROLE_ADMIN && u.allOrganizations && !u.disabled && u.authSource.Local?)
    && (if u.authSource.Local? then LocalValid(u, formats) else EntraValid(u, formats))
    && (u.secret.Sealed? ==> u.secret.owner == u.id && formats.validSecret(u.secret.secret))
  }

  predicate LocalValid(u: User, formats: Formats) {
    && u.externalLogin == "" && u.externalTenantId == "" && u.externalObjectId == "" && u.externalLinkedAt == 0
    && formats.validHash(u.passwordHash)
  }

  predicate EntraValid(u: User, formats: Formats) {
    && u.passwordHash == "" && u.secret.NoSecret? && u.recoveryHashes == [] && u.lastTotpStep == 0 && !u.bootstrap
    && formats.validLogin(u.externalLogin)
    && (u.externalTenantId == "" <==> u.externalObjectId == "") && (u.externalObjectId == "" <==> u.externalLinkedAt == 0)
  }

  function LoginKey(u: User): string { NormalizeUsername(u.externalLogin) }

  function ObjectKeyOf(tenant: string, object': string): string { Lower(tenant + "|" + object') }

  function ObjectKey(u: User): string { ObjectKeyOf(u.externalTenantId, u.externalObjectId) }

  predicate Bound(u: User) { u.authSource.Entra? && u.externalObjectId != "" }

  predicate UsersDiffer(u: User, v: User) {
    && u.id != v.id && u.usernameKey != v.usernameKey
    && (u.authSource.Entra? && v.authSource.Entra? ==> LoginKey(u) != LoginKey(v))
    && (Bound(u) && Bound(v) ==> ObjectKey(u) != ObjectKey(v))
  }

  /** The identity of the account, but for case in tenant and object. */
  predicate SameIdentity(tenant: string, object': string, u: User) {
    Lower(u.externalTenantId) == Lower(tenant) && Lower(u.externalObjectId) == Lower(object')
  }

  /** What no step of the manager breaks: bound accounts differ as identities,
      which is less than differing in the joined key. */
  predicate AccountsDiffer(u: User, v: User) {
    && u.id != v.id && u.usernameKey != v.usernameKey
    && (u.authSource.Entra? && v.authSource.Entra? ==> LoginKey(u) != LoginKey(v))
    && (Bound(u) && Bound(v) ==> !SameIdentity(u.externalTenantId, u.externalObjectId, v))
  }

  ghost predicate AccountsSound(users: seq<User>, known: set<Id>, formats: Formats) {
    Pairwise(users, AccountsDiffer) && forall u | u in users :: UserValid(u, known, formats)
  }

  /** validatePersistentState, relative to the identifiers in the catalog. */
  ghost predicate StateValid(s: AuthState, known: set<Id>, formats: Formats) {
    && (s.guestOrganizationId == "" || Trim(s.guestOrganizationId) in known)
    && Pairwise(s.users, UsersDiffer) && forall u | u in s.users :: UserValid(u, known, formats)
  }

  // ----- validatePersistentState

  method CheckUser(u: User, known: set<Id>, formats: Formats) returns (ok: bool)
    ensures ok <==> UserValid(u, known, formats)
  {
    hide NormalIds, Trim, Lower;
    if u.id == "" || u.usernameKey == "" || NormalizeUsername(u.username) != u.usernameKey { return false; }
    if u.role != ROLE_ADMIN && u.role != ROLE_USER { return false; }
    var normal := NormalizeIds(u.organizationIds);
    if |u.organizationIds| > MAX_GRANTS || normal != u.organizationIds { return false; }
    for i := 0 to |u.organizationIds|
      invariant forall k | 0 <= k < i :: Trim(u.organizationIds[k]) in known
    {
      if Trim(u.organizationIds[i]) !in known {
        assert u.organizationIds[i] in u.organizationIds;
        return false;
      }
    }
    if u.role == ROLE_ADMIN {
      if !u.allOrganizations || u.organizationIds != [] { return false; }
    } else if u.allOrganizations && u.organizationIds != [] { return false; }
    if u.bootstrap && !(u.id == BOOTSTRAP_ADMIN && u.role == ROLE_ADMIN && u.allOrganizations && !u.disabled && u.authSource.Local?) {
      return false;
    }
    match u.authSource {
      case Local => if !LocalValid(u, formats) { return false; }
      case Entra => if !EntraValid(u, formats) { return false; }
    }
    return !u.secret.Sealed? || (u.secret.owner == u.id && formats.validSecret(u.secret.secret));
  }

  /** What the four maps remember of the first i accounts. */
  ghost predicate UsersSeen(users: seq<User>, i: nat, ids: set<Id>, names: set<string>, logins: set<string>,
                            objects: set<string>)
    requires i <= |users|
  {
    && ids == (set u | u in users[..i] :: u.id) && names == (set u | u in users[..i] :: u.usernameKey)
    && logins == (set u | u in users[..i] && u.authSource.Entra? :: LoginKey(u))
    && objects == (set u | u in users[..i] && Bound(u) :: ObjectKey(u))
  }

  lemma UserDiffers(users: seq<User>, i: nat, ids: set<Id>, names: set<string>, logins: set<string>, objects: set<string>)
    requires i < |users| && UsersSeen(users, i, ids, names, logins, objects)
    ensures var u := users[i];
            && ((forall k | 0 <= k < i :: UsersDiffer(users[k], u)) <==>
                  && u.id !in ids && u.usernameKey !in names
                  && (u.authSource.Entra? ==> LoginKey(u) !in logins) && (Bound(u) ==> ObjectKey(u) !in objects))
            && UsersSeen(users, i + 1, ids + {u.id}, names + {u.usernameKey},
                         if u.authSource.Entra? then logins + {LoginKey(u)} else logins,
                         if Bound(u) then objects + {ObjectKey(u)} else objects)
  {
    hide Bound, ObjectKey, LoginKey, UsersDiffer, UsersSeen;
    DifferFromSeen(users, i, ids, names, logins, objects);
    SeeUser(users, i, ids, names, logins, objects);
  }

  lemma DifferFromSeen(users: seq<User>, i: nat, ids: set<Id>, names: set<string>, logins: set<string>, objects: set<string>)
    requires i < |users| && UsersSeen(users, i, ids, names, logins, objects)
    ensures var u := users[i];
            (forall k | 0 <= k < i :: UsersDiffer(users[k], u)) <==>
              && u.id !in ids && u.usernameKey !in names
              && (u.authSource.Entra? ==> LoginKey(u) !in logins) && (Bound(u) ==> ObjectKey(u) !in objects)
  {
    hide Bound, ObjectKey, LoginKey;
    var u := users[i];
    assert forall k | 0 <= k < i :: users[..i][k] == users[k] && users[k] in users[..i];
    if forall k | 0 <= k < i :: UsersDiffer(users[k], u) {
      forall v | v in users[..i] ensures UsersDiffer(v, u) { var k :| 0 <= k < i && users[..i][k] == v; }
    }
  }

  lemma SeeUser(users: seq<User>, i: nat, ids: set<Id>, names: set<string>, logins: set<string>, objects: set<string>)
    requires i < |users| && UsersSeen(users, i, ids, names, logins, objects)
    ensures var u := users[i];
            UsersSeen(users, i + 1, ids + {u.id}, names + {u.usernameKey},
                      if u.authSource.Entra? then logins + {LoginKey(u)} else logins,
                      if Bound(u) then objects + {ObjectKey(u)} else objects)
  {
    hide Bound, ObjectKey, LoginKey;
    assert users[..i + 1] == users[..i] + [users[i]];
  }

  lemma NoUserSeen(users: seq<User>)
    ensures UsersSeen(users, 0, {}, {}, {}, {})
  {
  }

  lemma PairwiseGrows(users: seq<User>, i: nat)
    requires i < |users|
    ensures Pairwise(users[..i + 1], UsersDiffer) <==>
      Pairwise(users[..i], UsersDiffer) && forall k | 0 <= k < i :: UsersDiffer(users[k], users[i])
    ensures Pairwise(users, UsersDiffer) ==> Pairwise(users[..i + 1], UsersDiffer)
  {
    hide UsersDiffer;
    var front, more := users[..i], users[..i + 1];
    assert forall k | 0 <= k < i :: front[k] == users[k] && more[k] == users[k];
    if Pairwise(more, UsersDiffer) {
      forall k, m | 0 <= k < m < |front| ensures UsersDiffer(front[k], front[m]) { assert UsersDiffer(more[k], more[m]); }
      forall k | 0 <= k < i ensures UsersDiffer(users[k], users[i]) { assert UsersDiffer(more[k], more[i]); }
    }
    if Pairwise(front, UsersDiffer) && forall k | 0 <= k < i :: UsersDiffer(users[k], users[i]) {
      forall k, m | 0 <= k < m < |more| ensures UsersDiffer(more[k], more[m]) {
        if m < i { assert UsersDiffer(front[k], front[m]); }
      }
    }
  }

  /** validatePersistentState: accepts exactly the valid states. */
  method ValidatePersistentState(s: AuthState, known: set<Id>, formats: Formats) returns (ok: bool)
    ensures ok <==> StateValid(s, known, formats)
  {
    hide UserValid, UsersDiffer, UsersSeen, Trim, Lower;
    if s.guestOrganizationId != "" && Trim(s.guestOrganizationId) !in known { return false; }
    var ids: set<Id>, names: set<string>, logins: set<string>, objects: set<string> := {}, {}, {}, {};
    NoUserSeen(s.users);
    for i := 0 to |s.users|
      invariant Pairwise(s.users[..i], UsersDiffer) && UsersSeen(s.users, i, ids, names, logins, objects)
      invariant forall k | 0 <= k < i :: UserValid(s.users[k], known, formats)
    {
      var u := s.users[i];
      assert u in s.users;
      UserDiffers(s.users, i, ids, names, logins, objects);
      PairwiseGrows(s.users, i);
      ok := CheckUser(u, known, formats);
      if !ok || u.id in ids || u.usernameKey in names { return false; }
      if u.authSource.Entra? && LoginKey(u) in logins { return false; }
      if Bound(u) && ObjectKey(u) in objects { return false; }
      ids, names := ids + {u.id}, names + {u.usernameKey};
      if u.authSource.Entra? { logins := logins + {LoginKey(u)}; }
      if Bound(u) { objects := objects + {ObjectKey(u)}; }
    }
    assert s.users[..|s.users|] == s.users;
    return true;
  }

  // ----- normalizeAccessLocked

  datatype AccessError = InvalidRole | TooManyGrants | UnknownGrant | ScopedAdministrator | ScopedGlobal | NoGrant

  /** The access of an account from what was asked for. */
  ghost function NormalAccess(a: Access, allowEmpty: bool, known: set<Id>): Result<Access, AccessError> {
    var role := if Trim(a.role) == "" then ROLE_USER else Trim(a.role);
    var ids := NormalIds(a.organizationIds);
    if role != ROLE_ADMIN && role != ROLE_USER then Err(InvalidRole)
    else if |ids| > MAX_GRANTS then Err(TooManyGrants)
    else if exists id :: id in ids && Trim(id) !in known then Err(UnknownGrant)
    else if role == ROLE_ADMIN then if ids != [] then Err(ScopedAdministrator) else Ok(Access(ROLE_ADMIN, true, []))
    else if a.allOrganizations && ids != [] then Err(ScopedGlobal)
    else if !a.allOrganizations && ids == [] && !allowEmpty then Err(NoGrant)
    else Ok(Access(ROLE_USER, a.allOrganizations, ids))
  }

  method NormalizeAccess(a: Access, allowEmpty: bool, known: set<Id>) returns (r: Result<Access, AccessError>)
    ensures r == NormalAccess(a, allowEmpty, known)
  {
    hide NormalIds, Trim;
    var role := Trim(a.role);
    if role == "" { role := ROLE_USER; }
    if role != ROLE_ADMIN && role != ROLE_USER { return Err(InvalidRole); }
    var ids := NormalizeIds(a.organizationIds);
    if |ids| > MAX_GRANTS { return Err(TooManyGrants); }
    for i := 0 to |ids|
      invariant forall k | 0 <= k < i :: Trim(ids[k]) in known
    {
      if Trim(ids[i]) !in known {
        assert ids[i] in ids;
        return Err(UnknownGrant);
      }
    }
    if role == ROLE_ADMIN {
      if ids != [] { return Err(ScopedAdministrator); }
      return Ok(Access(ROLE_ADMIN, true, []));
    }
    if a.allOrganizations && ids != [] { return Err(ScopedGlobal); }
    if !a.allOrganizations && ids == [] && !allowEmpty { return Err(NoGrant); }
    return Ok(Access(ROLE_USER, a.allOrganizations, ids));
  }

  /** Administrators come out unscoped, everyone else's grants are registered, and
      no access is wider than what was asked for. */
  /** The organizations that are asked for, without blanks. */
  ghost function Asked(a: Access): set<Id> { set id | id in a.organizationIds && Trim(id) != "" :: Trim(id) }

  /** The role is known, there are no more than 64 organizations and all of them exist,
      and they go with the role: none with an administrator's or with global access,
      and some otherwise, unless an account may stay without. */
  ghost predicate Grantable(a: Access, allowEmpty: bool, known: set<Id>) {
    && Trim(a.role) in {"admin", "user", ""} && |Asked(a)| <= 64 && Asked(a) <= known
    && if Trim(a.role) == "admin" || a.allOrganizations then Asked(a) == {} else Asked(a) != {} || allowEmpty
  }

  /** What is asked for is granted, exactly when it may be. */
  lemma AccessGranted(a: Access, allowEmpty: bool, known: set<Id>)
    ensures NormalAccess(a, allowEmpty, known).Ok? <==> Grantable(a, allowEmpty, known)
    ensures Grantable(a, allowEmpty, known) ==>
      var r := NormalAccess(a, allowEmpty, known).value;
      && r.role == (if Trim(a.role) == "admin" then "admin" else "user")
      && r.allOrganizations == (r.role == "admin" || a.allOrganizations)
      && Elements(r.organizationIds) == Asked(a) && Ascending(Less, r.organizationIds)
  {
    hide Trim, Less;
    var ids := NormalIds(a.organizationIds);
    NormalMembers(a.organizationIds);
    assert Asked(a) == TrimmedIds(a.organizationIds) == Elements(ids);
    assert ids == [] <==> Asked(a) == {} by { assert ids != [] ==> ids[0] in Elements(ids); }
    assert (exists id :: id in ids && Trim(id) !in known) <==> !(Asked(a) <= known) by {
      if id :| id in Asked(a) && id !in known { assert id in ids && Trim(id) == id; }
    }
    assert Elements<Id>([]) == {};
  }

  lemma NormalAccessValid(a: Access, allowEmpty: bool, known: set<Id>)
    requires NormalAccess(a, allowEmpty, known).Ok?
    ensures var r := NormalAccess(a, allowEmpty, known).value;
            && AccessValid(r, known)
            && (r.role == ROLE_ADMIN ==> Trim(a.role) == ROLE_ADMIN)
            && (r.allOrganizations && r.role != ROLE_ADMIN ==> a.allOrganizations)
            && (forall id | id in r.organizationIds :: id in TrimmedIds(a.organizationIds))
            && (r.organizationIds == [] && !r.allOrganizations ==> allowEmpty)
  {
    hide Trim, NormalIds;
    NormalIdsTwice(a.organizationIds);
    NormalMembers(a.organizationIds);
    assert TrimmedIds([]) == {};
  }
}
