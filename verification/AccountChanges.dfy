/** What changes to accounts and to the catalog do to the validity of the
    persisted state. */
module AccountChanges {
  import opened Outcomes
  import opened Text
  import opened Sorting
  import opened Lists
  import opened Accounts

  /** The account keeps the names it is known by. */
  predicate SameNames(u: User, v: User) {
    u.id == v.id && u.usernameKey == v.usernameKey && u.authSource == v.authSource && u.externalLogin == v.externalLogin
  }

  /** No other account is bound to the external identity with the key. */
  predicate KeyFree(users: seq<User>, i: nat, key: string) {
    forall k | 0 <= k < |users| && k != i && Bound(users[k]) :: ObjectKey(users[k]) != key
  }

  lemma ReplacedDiffer(users: seq<User>, i: nat, u: User)
    requires Pairwise(users, UsersDiffer) && i < |users| && SameNames(users[i], u)
    requires Bound(u) ==> KeyFree(users, i, ObjectKey(u))
    ensures Pairwise(users[i := u], UsersDiffer)
  {
    hide NormalizeUsername, ObjectKeyOf;
    forall k | 0 <= k < i ensures UsersDiffer(users[k], u) { assert UsersDiffer(users[k], users[i]); }
    forall k | i < k < |users| ensures UsersDiffer(u, users[k]) { assert UsersDiffer(users[i], users[k]); }
    UpdatePairwise(users, i, u, UsersDiffer);
  }

  /** The account keeps its names, and its external identity unless it loses it. */
  predicate Replaces(u: User, v: User) {
    && SameNames(u, v)
    && (Bound(v) ==> Bound(u) && v.externalTenantId == u.externalTenantId && v.externalObjectId == u.externalObjectId)
  }

  lemma UserReplaced(s: AuthState, i: nat, u: User, known: set<Id>, formats: Formats)
    requires StateValid(s, known, formats) && i < |s.users| && SameNames(s.users[i], u) && UserValid(u, known, formats)
    requires Bound(u) ==> KeyFree(s.users, i, ObjectKey(u))
    ensures StateValid(s.(users := s.users[i := u]), known, formats)
  {
    hide UsersDiffer, UserValid, SameNames, KeyFree, Trim;
    ReplacedDiffer(s.users, i, u);
    assert forall v | v in s.users[i := u] :: v in s.users || v == u;
  }

  /** No other account is bound to the external identity. */
  predicate IdentityFree(users: seq<User>, i: nat, tenant: string, object': string) {
    forall k | 0 <= k < |users| && k != i && Bound(users[k]) :: !SameIdentity(tenant, object', users[k])
  }

  lemma ReplacedSound(users: seq<User>, i: nat, u: User)
    requires Pairwise(users, AccountsDiffer) && i < |users| && SameNames(users[i], u)
    requires Bound(u) ==> IdentityFree(users, i, u.externalTenantId, u.externalObjectId)
    ensures Pairwise(users[i := u], AccountsDiffer)
  {
    hide NormalizeUsername, Lower;
    forall k | 0 <= k < i ensures AccountsDiffer(users[k], u) { assert AccountsDiffer(users[k], users[i]); }
    forall k | i < k < |users| ensures AccountsDiffer(u, users[k]) { assert AccountsDiffer(users[i], users[k]); }
    UpdatePairwise(users, i, u, AccountsDiffer);
  }

  lemma KeptSound(users: seq<User>, i: nat, u: User)
    requires Pairwise(users, AccountsDiffer) && i < |users| && Replaces(users[i], u)
    ensures Pairwise(users[i := u], AccountsDiffer)
  {
    hide NormalizeUsername, Lower;
    if Bound(u) {
      forall k | 0 <= k < |users| && k != i && Bound(users[k]) ensures !SameIdentity(u.externalTenantId, u.externalObjectId, users[k]) {
        assert if k < i then AccountsDiffer(users[k], users[i]) else AccountsDiffer(users[i], users[k]);
      }
    }
    ReplacedSound(users, i, u);
  }

  /** An account that differs in key differs as an identity. */
  lemma KeysTellMore(u: User, v: User)
    requires UsersDiffer(u, v)
    ensures AccountsDiffer(u, v)
  {
    hide NormalizeUsername, Lower;
    LowerJoin(u.externalTenantId, u.externalObjectId);
    LowerJoin(v.externalTenantId, v.externalObjectId);
  }

  lemma ValidSound(s: AuthState, known: set<Id>, formats: Formats)
    requires StateValid(s, known, formats)
    ensures AccountsSound(s.users, known, formats)
  {
    hide UsersDiffer, AccountsDiffer, UserValid, Trim;
    forall i, j | 0 <= i < j < |s.users| ensures AccountsDiffer(s.users[i], s.users[j]) { KeysTellMore(s.users[i], s.users[j]); }
  }

  /** A valid state in which no bar is in a bound tenant and no blank around the
      guest organization. */
  ghost predicate OrderlyState(s: AuthState, known: set<Id>, formats: Formats) {
    && StateValid(s, known, formats) && Trim(s.guestOrganizationId) == s.guestOrganizationId
    && forall u | u in s.users && Bound(u) :: NoBar(u.externalTenantId)
  }

  /** Replacing an account by a valid one that keeps its names and identity. */
  lemma AccountKept(s: AuthState, i: nat, u: User, known: set<Id>, formats: Formats)
    requires AccountsSound(s.users, known, formats) && i < |s.users| && Replaces(s.users[i], u) && UserValid(u, known, formats)
    ensures AccountsSound(s.users[i := u], known, formats)
    ensures StateValid(s, known, formats) ==> StateValid(s.(users := s.users[i := u]), known, formats)
    ensures OrderlyState(s, known, formats) ==> OrderlyState(s.(users := s.users[i := u]), known, formats)
  {
    hide UsersDiffer, AccountsDiffer, UserValid, StateValid, NoBar, Trim;
    KeptSound(s.users, i, u);
    assert s.users[i] in s.users;
    assert forall v | v in s.users[i := u] :: v in s.users || v == u;
    if StateValid(s, known, formats) { KeptValid(s, i, u, known, formats); }
  }

  lemma KeptValid(s: AuthState, i: nat, u: User, known: set<Id>, formats: Formats)
    requires StateValid(s, known, formats) && i < |s.users| && Replaces(s.users[i], u) && UserValid(u, known, formats)
    ensures StateValid(s.(users := s.users[i := u]), known, formats)
  {
    hide UsersDiffer, UserValid, KeyFree, ObjectKeyOf, Trim, NormalizeUsername;
    if Bound(u) { SameKeyFree(s.users, i, u); }
    UserReplaced(s, i, u, known, formats);
  }

  /** Unless it becomes bound anew, the account's key stays as free as it was. */
  lemma SameKeyFree(users: seq<User>, i: nat, u: User)
    requires Pairwise(users, UsersDiffer) && i < |users| && Bound(users[i]) && ObjectKey(u) == ObjectKey(users[i])
    ensures KeyFree(users, i, ObjectKey(u))
  {
    hide NormalizeUsername, ObjectKeyOf;
    forall k | 0 <= k < |users| && k != i && Bound(users[k]) ensures ObjectKey(users[k]) != ObjectKey(u) {
      assert if k < i then UsersDiffer(users[k], users[i]) else UsersDiffer(users[i], users[k]);
    }
  }

  /** The new account's names are not taken. */
  predicate NamesFree(users: seq<User>, u: User) {
    forall v | v in users :: v.id != u.id && v.usernameKey != u.usernameKey
      && (u.authSource.Entra? && v.authSource.Entra? ==> LoginKey(v) != LoginKey(u))
  }

  lemma UserAdded(s: AuthState, u: User, known: set<Id>, formats: Formats)
    requires StateValid(s, known, formats) && UserValid(u, known, formats) && NamesFree(s.users, u) && !Bound(u)
    ensures StateValid(s.(users := s.users + [u]), known, formats)
  {
    hide NormalizeUsername, ObjectKeyOf, UserValid, Trim;
    var more := s.users + [u];
    forall i, j | 0 <= i < j < |more| ensures UsersDiffer(more[i], more[j]) {
      if j < |s.users| { assert UsersDiffer(s.users[i], s.users[j]); } else { assert s.users[i] in s.users; }
    }
  }

  lemma AddedSound(s: AuthState, u: User, known: set<Id>, formats: Formats)
    requires AccountsSound(s.users, known, formats) && UserValid(u, known, formats) && NamesFree(s.users, u) && !Bound(u)
    ensures AccountsSound(s.users + [u], known, formats)
    ensures StateValid(s, known, formats) ==> StateValid(s.(users := s.users + [u]), known, formats)
    ensures OrderlyState(s, known, formats) ==> OrderlyState(s.(users := s.users + [u]), known, formats)
  {
    hide StateValid, NormalizeUsername, SameIdentity, UserValid, NoBar, Trim;
    var more := s.users + [u];
    forall i, j | 0 <= i < j < |more| ensures AccountsDiffer(more[i], more[j]) {
      if j < |s.users| { assert AccountsDiffer(s.users[i], s.users[j]); } else { assert s.users[i] in s.users; }
    }
    if StateValid(s, known, formats) { UserAdded(s, u, known, formats); }
  }

  /** Registering organizations never invalidates an account. */
  lemma KnownGrows(s: AuthState, known: set<Id>, more: set<Id>, formats: Formats)
    requires AccountsSound(s.users, known, formats) && known <= more
    ensures AccountsSound(s.users, more, formats)
    ensures StateValid(s, known, formats) ==> StateValid(s, more, formats)
    ensures OrderlyState(s, known, formats) ==> OrderlyState(s, more, formats)
  {
    hide UsersDiffer, AccountsDiffer, UserValid, NoBar, Trim;
    forall u | u in s.users ensures UserValid(u, more, formats) { UserKnown(u, known, more, formats); }
  }

  lemma UserKnown(u: User, known: set<Id>, more: set<Id>, formats: Formats)
    requires UserValid(u, known, formats) && known <= more
    ensures UserValid(u, more, formats)
  {
    hide NormalIds, LocalValid, EntraValid, Trim, NormalizeUsername;
  }

  // ----- changing access

  function WithAccess(u: User, a: Access, disabled: bool): User {
    u.(role := a.role, allOrganizations := a.allOrganizations, organizationIds := a.organizationIds, disabled := disabled)
  }

  lemma AccessChanged(u: User, a: Access, disabled: bool, known: set<Id>, formats: Formats)
    requires UserValid(u, known, formats) && AccessValid(a, known) && !u.bootstrap
    ensures UserValid(WithAccess(u, a, disabled), known, formats) && SameNames(u, WithAccess(u, a, disabled))
  {
    hide NormalIds, Trim, NormalizeUsername;
  }

  function Unbound(u: User): User { u.(externalTenantId := "", externalObjectId := "", externalLinkedAt := 0) }

  lemma BindingReset(u: User, known: set<Id>, formats: Formats)
    requires UserValid(u, known, formats) && u.authSource.Entra?
    ensures UserValid(Unbound(u), known, formats) && SameNames(u, Unbound(u)) && !Bound(Unbound(u))
  {
    hide NormalIds, Trim, NormalizeUsername;
  }

  // ----- binding an external identity

  function BoundTo(u: User, tenant: string, object': string, now: int): User {
    u.(externalTenantId := tenant, externalObjectId := object', externalLinkedAt := now)
  }

  lemma BindingValid(u: User, tenant: string, object': string, now: int, known: set<Id>, formats: Formats)
    requires UserValid(u, known, formats) && u.authSource.Entra? && tenant != "" && object' != "" && now != 0
    ensures UserValid(BoundTo(u, tenant, object', now), known, formats) && SameNames(u, BoundTo(u, tenant, object', now))
    ensures Bound(BoundTo(u, tenant, object', now)) && ObjectKey(BoundTo(u, tenant, object', now)) == ObjectKeyOf(tenant, object')
  {
    hide NormalIds, Trim, NormalizeUsername, ObjectKeyOf;
  }

  /** Binding an account to an identity keeps the state valid exactly when no other
      account is bound under the same key. */
  lemma BindValidIff(s: AuthState, i: nat, tenant: string, object': string, now: int, known: set<Id>, formats: Formats)
    requires StateValid(s, known, formats) && i < |s.users| && s.users[i].authSource.Entra?
    requires tenant != "" && object' != "" && now != 0
    ensures StateValid(s.(users := s.users[i := BoundTo(s.users[i], tenant, object', now)]), known, formats)
      <==> KeyFree(s.users, i, ObjectKeyOf(tenant, object'))
  {
    hide UserValid, ObjectKeyOf, Trim, NormalizeUsername;
    var u := BoundTo(s.users[i], tenant, object', now);
    var changed := s.(users := s.users[i := u]);
    assert s.users[i] in s.users;
    BindingValid(s.users[i], tenant, object', now, known, formats);
    if KeyFree(s.users, i, ObjectKeyOf(tenant, object')) { UserReplaced(s, i, u, known, formats); }
    if StateValid(changed, known, formats) {
      forall k | 0 <= k < |s.users| && k != i && Bound(s.users[k]) ensures ObjectKey(s.users[k]) != ObjectKeyOf(tenant, object') {
        assert changed.users[k] == s.users[k] && changed.users[i] == u;
        assert if k < i then UsersDiffer(changed.users[k], changed.users[i]) else UsersDiffer(changed.users[i], changed.users[k]);
      }
    }
  }

  /** The external account is bound to the identity. */
  predicate BoundAs(u: User, tenant: string, object': string) { u.authSource.Entra? && SameIdentity(tenant, object', u) }

  predicate NoBar(s: string) { forall c | c in s :: c != '|' }

  lemma LowerJoin(a: string, b: string)
    ensures ObjectKeyOf(a, b) == Lower(a) + ['|'] + Lower(b)
  {
    var whole, parts := ObjectKeyOf(a, b), Lower(a) + ['|'] + Lower(b);
    assert |whole| == |parts|;
    forall k | 0 <= k < |whole| ensures whole[k] == parts[k] {
      var raw := a + "|" + b;
      assert raw[k] == if k < |a| then a[k] else if k == |a| then '|' else b[k - |a| - 1];
    }
  }

  /** Tenants have no bar in their names, so that the key tells tenant and object
      apart. */
  lemma KeyTellsIdentity(a: string, b: string, c: string, d: string)
    requires NoBar(a) && NoBar(c) && ObjectKeyOf(a, b) == ObjectKeyOf(c, d)
    ensures Lower(a) == Lower(c) && Lower(b) == Lower(d)
  {
    LowerJoin(a, b);
    LowerJoin(c, d);
    var x, y := Lower(a), Lower(c);
    NoBarLower(a);
    NoBarLower(c);
    var joined := ObjectKeyOf(a, b);
    assert joined[|x|] == '|' && joined[|y|] == '|';
    assert forall k | 0 <= k < |x| :: joined[k] == x[k] && joined[k] != '|';
    assert forall k | 0 <= k < |y| :: joined[k] == y[k] && joined[k] != '|';
    assert |x| == |y|;
    assert joined[..|x|] == x && joined[..|y|] == y;
    assert joined[|x| + 1..] == Lower(b) && joined[|y| + 1..] == Lower(d);
  }

  lemma NoBarLower(s: string)
    requires NoBar(s)
    ensures forall k | 0 <= k < |s| :: Lower(s)[k] != '|'
  {
    assert forall k | 0 <= k < |s| :: s[k] in s;
  }

  /** For an identity no account is bound to, the key is free when tenants have no
      bar in them. */
  lemma FreeWithoutBars(users: seq<User>, i: nat, tenant: string, object': string)
    requires NoBar(tenant) && forall u | u in users && Bound(u) :: NoBar(u.externalTenantId)
    requires forall u | u in users && Bound(u) :: !SameIdentity(tenant, object', u)
    ensures KeyFree(users, i, ObjectKeyOf(tenant, object'))
  {
    hide ObjectKeyOf, Lower, NoBar;
    forall k | 0 <= k < |users| && k != i && Bound(users[k]) ensures ObjectKey(users[k]) != ObjectKeyOf(tenant, object') {
      assert users[k] in users;
      if ObjectKey(users[k]) == ObjectKeyOf(tenant, object') {
        KeyTellsIdentity(users[k].externalTenantId, users[k].externalObjectId, tenant, object');
        assert false;
      }
    }
  }

  /** Binding an account to an identity that no account is bound to keeps the
      accounts sound, whether or not the key is free. */
  lemma BoundSound(users: seq<User>, i: nat, tenant: string, object': string, now: int, known: set<Id>, formats: Formats)
    requires AccountsSound(users, known, formats) && i < |users| && users[i].authSource.Entra?
    requires tenant != "" && object' != "" && now != 0 && forall u | u in users :: !BoundAs(u, tenant, object')
    ensures AccountsSound(users[i := BoundTo(users[i], tenant, object', now)], known, formats)
  {
    hide AccountsDiffer, UserValid, SameIdentity;
    assert users[i] in users;
    BindingValid(users[i], tenant, object', now, known, formats);
    forall k | 0 <= k < |users| && k != i && Bound(users[k]) ensures !SameIdentity(tenant, object', users[k]) {
      assert users[k] in users;
    }
    ReplacedSound(users, i, BoundTo(users[i], tenant, object', now));
    assert forall v | v in users[i := BoundTo(users[i], tenant, object', now)] :: v in users || v == BoundTo(users[i], tenant, object', now);
  }

  /** With tenants free of bars the state stays valid, and as orderly as it was. */
  lemma BoundOrderly(s: AuthState, i: nat, tenant: string, object': string, now: int, known: set<Id>, formats: Formats)
    requires OrderlyState(s, known, formats) && i < |s.users| && s.users[i].authSource.Entra? && NoBar(tenant)
    requires tenant != "" && object' != "" && now != 0 && forall u | u in s.users :: !BoundAs(u, tenant, object')
    ensures OrderlyState(s.(users := s.users[i := BoundTo(s.users[i], tenant, object', now)]), known, formats)
  {
    hide StateValid, SameIdentity, KeyFree, NoBar, Trim, ObjectKeyOf;
    var u := BoundTo(s.users[i], tenant, object', now);
    FreeWithoutBars(s.users, i, tenant, object');
    BindValidIff(s, i, tenant, object', now, known, formats);
    assert forall v | v in s.users[i := u] :: v in s.users || v == u;
  }

  function External(id: Id, name: string, tenant: string, object': string, linkedAt: int): User {
    User(id, name, name, ROLE_USER, true, [], "", NoSecret, [], 0, Entra, name, tenant, object', linkedAt, false, false)
  }

  /** With bars the key is ambiguous. Of these two accounts, which validation
      accepts, neither is bound to tenant "a" and object "b|c", and binding the
      second to it gives what validation refuses. Only a caller that names the
      tenant freely can ask for it: the sign-in flow admits one configured tenant
      (entra.go:195). */
  lemma AmbiguousKey(formats: Formats)
    requires formats.validLogin("ann") && formats.validLogin("bob")
    ensures var s := AuthState("", [External("1", "ann", "a|b", "c", 1), External("2", "bob", "", "", 0)]);
            && StateValid(s, {}, formats) && (forall u | u in s.users :: !BoundAs(u, "a", "b|c"))
            && !StateValid(s.(users := s.users[1 := BoundTo(s.users[1], "a", "b|c", 1)]), {}, formats)
  {
    hide StateValid, UserValid, UsersDiffer, Trim, Lower;
    var ann, bob := External("1", "ann", "a|b", "c", 1), External("2", "bob", "", "", 0);
    var s := AuthState("", [ann, bob]);
    ExternalValid("1", "ann", "a|b", "c", 1, formats);
    ExternalValid("2", "bob", "", "", 0, formats);
    TwoAccounts(ann, bob, formats);
    assert |Lower("a|b")| == 3 && |Lower("a")| == 1 && |Lower("")| == 0;
    BindValidIff(s, 1, "a", "b|c", 1, {}, formats);
    assert ObjectKey(s.users[0]) == ObjectKeyOf("a", "b|c") by { assert "a|b" + "|" + "c" == "a" + "|" + "b|c"; }
  }

  lemma TwoAccounts(u: User, v: User, formats: Formats)
    requires UserValid(u, {}, formats) && UserValid(v, {}, formats) && u.id != v.id && u.usernameKey != v.usernameKey && !Bound(v)
    requires LoginKey(u) != LoginKey(v)
    ensures StateValid(AuthState("", [u, v]), {}, formats)
  {
    hide UserValid, Trim, Lower;
  }

  lemma ExternalValid(id: Id, name: string, tenant: string, object': string, linkedAt: int, formats: Formats)
    requires id != "" && name in {"ann", "bob"} && formats.validLogin(name)
    requires (tenant == "" <==> object' == "") && (object' == "" <==> linkedAt == 0)
    ensures UserValid(External(id, name, tenant, object', linkedAt), {}, formats)
    ensures LoginKey(External(id, name, tenant, object', linkedAt)) == name
  {
    assert Trim(name) == name;
    assert Lower(name) == name;
    assert TrimmedIds([]) == {};
  }

  // ----- deleting an organization

  function GrantIndex(u: User, organization: Id): nat { IndexOf(u.organizationIds, (id: Id) => id == organization) }

  function WithoutGrant(u: User, organization: Id): User {
    var k := GrantIndex(u, organization);
    if k < |u.organizationIds| then u.(organizationIds := RemoveAt(u.organizationIds, k)) else u
  }

  function WithoutOrganization(s: AuthState, organization: Id): AuthState {
    AuthState(if s.guestOrganizationId == organization then "" else s.guestOrganizationId,
              Map(s.users, u => WithoutGrant(u, organization)))
  }

  lemma WithoutGrantValid(u: User, organization: Id, known: set<Id>, formats: Formats)
    requires UserValid(u, known, formats) && Trim(organization) == organization != ""
    ensures UserValid(WithoutGrant(u, organization), known - {organization}, formats)
    ensures SameNames(u, WithoutGrant(u, organization)) && Bound(WithoutGrant(u, organization)) == Bound(u)
    ensures ObjectKey(WithoutGrant(u, organization)) == ObjectKey(u)
  {
    hide NormalIds, Trim, NormalizeUsername, LocalValid, EntraValid, ObjectKeyOf;
    var k := GrantIndex(u, organization);
    var ids := u.organizationIds;
    NormalMembers(ids);
    if k < |ids| {
      NormalIdsWithout(ids, k);
      assert ids[k] == organization;
    } else {
      assert organization !in ids;
    }
    forall id | id in WithoutGrant(u, organization).organizationIds ensures Trim(id) in known - {organization} {
      assert id in ids && Trim(id) == id;
    }
    SameLocal(u, organization, formats);
  }

  lemma SameLocal(u: User, organization: Id, formats: Formats)
    ensures LocalValid(WithoutGrant(u, organization), formats) <==> LocalValid(u, formats)
    ensures EntraValid(WithoutGrant(u, organization), formats) <==> EntraValid(u, formats)
  {
  }

  lemma WithoutGrantDiffer(u: User, v: User, organization: Id)
    requires UsersDiffer(u, v)
    ensures UsersDiffer(WithoutGrant(u, organization), WithoutGrant(v, organization))
  {
    hide NormalizeUsername, ObjectKeyOf, WithoutGrant;
    OnlyGrants(u, organization);
    OnlyGrants(v, organization);
  }

  lemma WithoutGrantSound(u: User, v: User, organization: Id)
    requires AccountsDiffer(u, v)
    ensures AccountsDiffer(WithoutGrant(u, organization), WithoutGrant(v, organization))
  {
    hide NormalizeUsername, Lower;
    OnlyGrants(u, organization);
    OnlyGrants(v, organization);
  }

  lemma OnlyGrants(u: User, organization: Id)
    ensures WithoutGrant(u, organization) == u.(organizationIds := WithoutGrant(u, organization).organizationIds)
  {
  }

  /** Whatever the guest organization, the accounts stay sound. */
  lemma WithoutOrganizationSound(users: seq<User>, organization: Id, known: set<Id>, formats: Formats)
    requires AccountsSound(users, known, formats) && Trim(organization) == organization != ""
    ensures AccountsSound(Map(users, u => WithoutGrant(u, organization)), known - {organization}, formats)
  {
    hide AccountsDiffer, UserValid, WithoutGrant, Trim;
    var f := (u: User) => WithoutGrant(u, organization);
    MapPairwise(users, f, AccountsDiffer, AccountsDiffer) by {
      forall u, v | u in users && v in users && AccountsDiffer(u, v) ensures AccountsDiffer(f(u), f(v)) {
        WithoutGrantSound(u, v, organization);
      }
    }
    forall v | v in Map(users, f) ensures UserValid(v, known - {organization}, formats) {
      var u := MapMember(users, f, v);
      WithoutGrantValid(u, organization, known, formats);
    }
  }

  lemma WithoutOrganizationUsers(s: AuthState, organization: Id, known: set<Id>, formats: Formats)
    requires StateValid(s, known, formats) && Trim(organization) == organization != ""
    ensures var r := WithoutOrganization(s, organization);
            Pairwise(r.users, UsersDiffer) && forall u | u in r.users :: UserValid(u, known - {organization}, formats)
  {
    hide UsersDiffer, UserValid, WithoutGrant, Trim;
    var f := (u: User) => WithoutGrant(u, organization);
    MapPairwise(s.users, f, UsersDiffer, UsersDiffer) by {
      forall u, v | u in s.users && v in s.users && UsersDiffer(u, v) ensures UsersDiffer(f(u), f(v)) {
        WithoutGrantDiffer(u, v, organization);
      }
    }
    forall v | v in Map(s.users, f) ensures UserValid(v, known - {organization}, formats) {
      var u := MapMember(s.users, f, v);
      WithoutGrantValid(u, organization, known, formats);
    }
  }

  /** Every account loses its grant of the organization and nothing else; grants have
      no repeats. */
  lemma WithoutOrganizationIs(s: AuthState, organization: Id, known: set<Id>, formats: Formats)
    requires AccountsSound(s.users, known, formats)
    ensures var r := WithoutOrganization(s, organization);
            && |r.users| == |s.users| && r.guestOrganizationId == (if s.guestOrganizationId == organization then "" else s.guestOrganizationId)
            && forall k | 0 <= k < |s.users| ::
                 && r.users[k] == s.users[k].(organizationIds := r.users[k].organizationIds)
                 && Distinct(r.users[k].organizationIds)
                 && forall id :: id in r.users[k].organizationIds <==> id in s.users[k].organizationIds && id != organization
  {
    hide AccountsSound, WithoutGrant, Distinct;
    forall k | 0 <= k < |s.users| { GrantGone(s.users, k, organization, known, formats); }
  }

  lemma GrantGone(users: seq<User>, k: nat, organization: Id, known: set<Id>, formats: Formats)
    requires AccountsSound(users, known, formats) && k < |users|
    ensures var u, v := users[k], WithoutGrant(users[k], organization);
            && v == u.(organizationIds := v.organizationIds) && Distinct(v.organizationIds)
            && forall id :: id in v.organizationIds <==> id in u.organizationIds && id != organization
  {
    hide AccountsDiffer, Trim, NormalizeUsername, LocalValid, EntraValid;
    assert UserValid(users[k], known, formats);
    LessIsStrictTotal();
    AscendingDistinct(Less, NormalIds(users[k].organizationIds));
    OneLeft(users[k].organizationIds, organization);
  }

  lemma OneLeft(ids: seq<Id>, id: Id)
    requires Distinct(ids)
    ensures var k := IndexOf(ids, (i: Id) => i == id);
            if k == |ids| then id !in ids
            else Distinct(RemoveAt(ids, k)) && forall i :: i in RemoveAt(ids, k) <==> i in ids && i != id
  {
    var k := IndexOf(ids, (i: Id) => i == id);
    if k < |ids| {
      forall i { RemovedOne(ids, k, i); }
      var r := RemoveAt(ids, k);
      assert forall j | 0 <= j < |r| :: r[j] == ids[if j < k then j else j + 1];
    }
  }

  predicate BlankGuest(s: AuthState, organization: Id) {
    Trim(s.guestOrganizationId) == organization && s.guestOrganizationId != organization
  }

  /** Taking a deleted organization out of accounts and catalog keeps the state
      valid exactly when the guest organization is not that one spelled with
      blanks around it. */
  lemma RemovalValidIff(s: AuthState, organization: Id, known: set<Id>, formats: Formats)
    requires StateValid(s, known, formats) && Trim(organization) == organization != ""
    ensures StateValid(WithoutOrganization(s, organization), known - {organization}, formats)
      <==> !BlankGuest(s, organization)
  {
    hide UsersDiffer, UserValid, WithoutGrant, Trim;
    WithoutOrganizationUsers(s, organization, known, formats);
    assert Trim("") == "" by { EmptyTrim(); }
  }

  lemma RemovalOrderly(s: AuthState, organization: Id, known: set<Id>, formats: Formats)
    requires OrderlyState(s, known, formats) && Trim(organization) == organization != ""
    ensures OrderlyState(WithoutOrganization(s, organization), known - {organization}, formats)
  {
    hide StateValid, WithoutGrant, NoBar, Trim;
    RemovalValidIff(s, organization, known, formats);
    assert Trim("") == "" by { EmptyTrim(); }
    var f := (u: User) => WithoutGrant(u, organization);
    forall v | v in Map(s.users, f) && Bound(v) ensures NoBar(v.externalTenantId) {
      var u := MapMember(s.users, f, v);
      OnlyGrants(u, organization);
    }
  }

  /** Such a guest organization is accepted, and stays behind. */
  lemma BlankGuestStays(formats: Formats)
    ensures StateValid(AuthState(" a", []), {"a"}, formats)
    ensures !StateValid(WithoutOrganization(AuthState(" a", []), "a"), {"a"} - {"a"}, formats)
  {
    assert Trim(" a") == Trim("a") == "a" by { assert " a"[1..] == "a"; }
    assert " a" != "a";
    RemovalValidIff(AuthState(" a", []), "a", {"a"}, formats);
  }

  lemma EmptyTrim()
    ensures Trim("") == ""
  {
  }
}
