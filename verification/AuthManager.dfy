/** auth.Manager. Each method that takes the lock is one atomic step; logins and
    second factors, which release it while a password or code is checked, are two.
    Every step keeps the manager sound from any sound state, so any interleaving
    does; and keeps the accounts valid, with the two exceptions that say when. */
module AuthManager {
  import opened Outcomes
  import opened Text
  import opened Sorting
  import opened Lists
  import opened Accounts
  import opened AccountChanges
  import opened AuthInvariants
  import opened Catalog
  import opened SecondFactor
  import opened Totp
  import AuthEvents

  const SESSION_LIFETIME: nat := 8 * HOUR
  const CHALLENGE_LIFETIME: nat := 5 * MINUTE
  const MAX_CHALLENGE_TRIES := 5
  const PRUNE_INTERVAL: nat := MINUTE
  const GUEST_CAP_PRUNE_INTERVAL: nat := MINUTE / 60

  datatype AuthError =
    | InvalidCredentials | InvalidChallenge | InvalidCode | RateLimited | AccountExists | UnknownUser | Forbidden
    | InvalidIdentity | InvalidName | InvalidAccess(access: AccessError) | RefusedOrganization(reason: CatalogError) | SaveFailed

  datatype UserUpdate = UserUpdate(access: Access, disabled: bool, resetExternalIdentity: bool)

  datatype ExternalIdentity = ExternalIdentity(tenantId: string, objectId: string, preferredUsername: string)

  function UserIndex(users: seq<User>, id: Id): (i: nat)
    ensures i <= |users| && (i < |users| ==> users[i].id == id) && (i == |users| ==> NoUser(users, id))
  {
    var i := IndexOf(users, (u: User) => u.id == id);
    assert i == |users| ==> forall u | u in users :: exists k :: 0 <= k < |users| && users[k] == u;
    i
  }

  /** The entries that have not expired, but for the tokens still to be looked at. */
  ghost function Unexpired(sessions: map<string, Session>, now: int, seen: set<string>): map<string, Session> {
    map t | t in sessions && (t in seen ==> sessions[t].expiresAt > now) :: sessions[t]
  }

  lemma OneTokenExpired(sessions: map<string, Session>, now: int, tokens: seq<string>, k: nat)
    requires k < |tokens| && Distinct(tokens) && Elements(tokens) == sessions.Keys
    ensures var left := Unexpired(sessions, now, Elements(tokens[..k]));
            && tokens[k] in left && left[tokens[k]] == sessions[tokens[k]]
            && Unexpired(sessions, now, Elements(tokens[..k + 1])) == if left[tokens[k]].expiresAt > now then left else left - {tokens[k]}
  {
    assert tokens[k] in Elements(tokens);
    assert Elements(tokens[..k + 1]) == Elements(tokens[..k]) + {tokens[k]} by { assert tokens[..k + 1] == tokens[..k] + [tokens[k]]; }
  }

  lemma NoneExpired(sessions: map<string, Session>, now: int, tokens: seq<string>)
    ensures Unexpired(sessions, now, Elements(tokens[..0])) == sessions
  {
  }

  lemma AllTokensExpired(sessions: map<string, Session>, now: int, tokens: seq<string>)
    requires Elements(tokens) == sessions.Keys
    ensures Unexpired(sessions, now, Elements(tokens[..|tokens|])) ==
            map t | t in sessions && sessions[t].expiresAt > now :: sessions[t]
  {
    assert tokens[..|tokens|] == tokens;
  }

  function Checked(p: Pending): Pending { p.(failedChecks := p.failedChecks + 1) }

  /** The account may log in with the password hash, and the challenge asks for
      what it has. */
  predicate LetIn(u: User, p: Pending, passwordHash: string) {
    && u.id == p.userId && !u.disabled && u.authSource.Local? && u.passwordHash == passwordHash
    && (p.setupSecret == "" <==> u.secret.Sealed?)
  }

  predicate HasFactor(u: User, secret: string, lastStep: nat) { u.secret == Sealed(u.id,
                      secret) && u.lastTotpStep == lastStep }

  predicate PrunedLately(lastPrune: Option<int>, now: int) { lastPrune.Some? && 0 <= now - lastPrune.value < PRUNE_INTERVAL }

  ghost function LiveSessions(sessions: map<string, Session>, now: int): map<string, Session> {
    map t | t in sessions && sessions[t].expiresAt > now :: sessions[t]
  }

  /** As many guests as there may be, even without those whose time is up, unless
      these were looked for less than a second ago. */
  ghost predicate Crowded(sessions: map<string, Session>, lastPrune: Option<int>, now: int, most: nat) {
    && |GuestTokens(sessions)| >= most
    && ((lastPrune.Some? && 0 <= now - lastPrune.value < GUEST_CAP_PRUNE_INTERVAL) || |GuestTokens(LiveSessions(sessions, now))| >= most)
  }

  ghost predicate NothingExpired(sessions: map<string, Session>, challenges: map<string, Pending>, factors: map<Id,
                                 Factor>, now: int) {
    && (forall t | t in sessions :: sessions[t].expiresAt > now)
    && (forall t | t in challenges :: challenges[t].expiresAt > now)
    && forall id | id in factors :: Sweep(factors[id], now) != NO_FAILURES
  }

  /** Opens a session or changes factors only while it lives, for an account that
      is there and enabled. */
  predicate Live(state: AuthState, challenges: map<string, Pending>, token: string, now: int, i: int) {
    && token in challenges && challenges[token].expiresAt > now
    && 0 <= i < |state.users| && state.users[i].id == challenges[token].userId && !state.users[i].disabled
  }

  ghost predicate Alive(state: AuthState, challenges: map<string, Pending>, token: string, now: int) {
    exists i :: Live(state, challenges, token, now, i)
  }

  /** The challenge has tries left and asks its account for what it has: for a code
      of the authenticator, or to set one up where there is none. */
  predicate Ready(state: AuthState, held: map<string, Pending>, token: string, now: int, setup: bool, i: int) {
    && Live(state, held, token, now, i) && held[token].failedChecks < MAX_CHALLENGE_TRIES
    && setup == (held[token].setupSecret != "") && setup == state.users[i].secret.NoSecret?
  }

  ghost predicate Open(state: AuthState, held: map<string, Pending>, token: string, now: int, setup: bool) {
    exists i :: Ready(state, held, token, now, setup, i)
  }

  /** The failures of the challenge's account keep it waiting. */
  predicate LockedOut(held: map<string, Pending>, factors: map<Id, Factor>, token: string, now: int) {
    token in held && SecondFactor.Locked(RecordOf(factors, held[token].userId), now)
  }

  /** A challenge that nobody can answer any more goes when it is refused. */
  ghost function AfterRefusal(state: AuthState, held: map<string, Pending>, token: string, now: int): map<string, Pending> {
    if Alive(state, held, token, now) && held[token].failedChecks < MAX_CHALLENGE_TRIES then held else held - {token}
  }

  /** The attempt counts, for its account, its challenge and the log. */
  ghost predicate AttemptCounted(held: map<string, Pending>, after: map<string, Pending>, factors: map<Id, Factor>,
                                 factorsAfter: map<Id, Factor>, token: string, now: int) {
    && token in held && CountedFor(factors, factorsAfter, held[token].userId, now)
    && after == held[token := held[token].(failedChecks := held[token].failedChecks + 1)]
  }

  /** One of the account's recovery codes is the code. */
  ghost predicate HoldsCode(u: User, code: string, matches: (string, string) -> bool) {
    var raw := RawCode(Trim(code));
    |raw| == 16 && exists hash :: hash in u.recoveryHashes && matches(hash, raw)
  }

  ghost predicate CodeKnown(state: AuthState, held: map<string, Pending>, token: string, code: string,
                            matches: (string, string) -> bool) {
    token in held && exists u :: u in state.users && u.id == held[token].userId && HoldsCode(u, code, matches)
  }

  /** The i-th account has become the user, and a session for it has opened. */
  ghost predicate OpenedFor(before: AuthState, after: AuthState, i: nat, user: User, now: int, s: Session) {
    && i < |before.users| && after == before.(users := before.users[i := user])
    && s == Session(PrincipalOf(user), now + SESSION_LIFETIME)
  }

  /** An account that has set up its authenticator. */
  function Equipped(u: User, secret: string, hashes: seq<string>, step: nat): User {
    u.(secret := Sealed(u.id, secret), recoveryHashes := hashes, lastTotpStep := step)
  }

  function WithoutCode(u: User, k: nat): User
    requires k < |u.recoveryHashes|
  {
    u.(recoveryHashes := RemoveAt(u.recoveryHashes, k))
  }

  /** The attempt was admitted and counted as a failure of the account. */
  ghost predicate CountedFor(before: map<Id, Factor>, after: map<Id, Factor>, id: Id, now: int) {
    var admitted := Admit(RecordOf(before, id), now);
    admitted.Some? && after == before[id := admitted.value]
  }

  /** The code of a live challenge, for a step not used before, opens a session of
      its account and uses up the step. */
  ghost predicate TotpOpens(before: AuthState, held: map<string, Pending>, token: string, now: int, step: nat,
                            after: AuthState, s: Session) {
    exists i | Live(before, held, token, now, i) ::
      before.users[i].lastTotpStep < step && OpenedFor(before, after, i, before.users[i].(lastTotpStep := step), now, s)
  }

  ghost predicate TotpFits(before: AuthState, held: map<string, Pending>, token: string, now: int, step: nat) {
    exists i | Live(before, held, token, now, i) :: held[token].setupSecret == "" && before.users[i].lastTotpStep < step
  }

  ghost predicate SetupOpens(before: AuthState, held: map<string, Pending>, token: string, now: int, secret: string,
                             hashes: seq<string>,
                             step: nat, after: AuthState, s: Session) {
    exists i | Live(before, held, token, now, i) ::
      before.users[i].secret.NoSecret? && OpenedFor(before, after, i, Equipped(before.users[i], secret, hashes, step), now, s)
  }

  ghost predicate SetupFits(before: AuthState, held: map<string, Pending>, token: string, now: int, secret: string) {
    exists i | Live(before, held, token, now, i) :: held[token].setupSecret == secret && before.users[i].secret.NoSecret?
  }

  /** A recovery code opens a session and is gone. */
  ghost predicate CodeOpens(before: AuthState, held: map<string, Pending>, token: string, now: int, hash: string,
                            after: AuthState, s: Session) {
    exists i | Live(before, held, token, now, i) :: UsesCode(before, i, hash, after, now, s)
  }

  ghost predicate UsesCode(before: AuthState, i: nat, hash: string, after: AuthState, now: int, s: Session)
    requires i < |before.users|
  {
    exists k | 0 <= k < |before.users[i].recoveryHashes| ::
      before.users[i].recoveryHashes[k] == hash && OpenedFor(before, after, i, WithoutCode(before.users[i], k), now, s)
  }

  lemma CountedForgotten(before: map<Id, Factor>, after: map<Id, Factor>, id: Id, now: int)
    requires CountedFor(before, after, id, now)
    ensures after - {id} == before - {id}
  {
    hide Admit;
  }

  /** The challenge is open exactly when its account was found and fits. */
  lemma OpenIff(state: AuthState, held: map<string, Pending>, token: string, now: int, setup: bool, found: Option<nat>)
    requires found.Some? ==> Live(state, held, token, now, found.value) && held[token].failedChecks < MAX_CHALLENGE_TRIES
    requires found.None? ==> Alive(state, held, token, now) ==> held[token].failedChecks >= MAX_CHALLENGE_TRIES
    requires found.Some? ==> forall i | Live(state, held, token, now, i) :: i == found.value
    ensures Open(state, held, token, now, setup) <==> found.Some? && Ready(state, held, token, now, setup, found.value)
  {
    hide Live;
  }

  lemma KnownCode(state: AuthState, held: map<string, Pending>, token: string, i: nat, code: string,
                  matches: (string, string) -> bool, known: set<Id>, formats: Formats)
    requires AccountsSound(state.users, known, formats) && token in held && i < |state.users| && state.users[i].id == held[token].userId
    ensures CodeKnown(state, held, token, code, matches) <==> HoldsCode(state.users[i], code, matches)
  {
    hide AccountsSound, HoldsCode;
    OneUser(state.users, i, known, formats);
    assert state.users[i] in state.users;
  }

  /** The account found is the only one a challenge can be of. */
  lemma NoFit(state: AuthState, held: map<string, Pending>, token: string, now: int, found: Option<nat>,
              known: set<Id>, formats: Formats)
    requires AccountsSound(state.users, known, formats)
    requires if found.None? then !Alive(state, held, token, now) else Live(state, held, token, now, found.value)
    ensures forall i | Live(state, held, token, now, i) :: found.Some? && found.value == i
  {
    hide AccountsDiffer, UserValid;
    if found.Some? { OthersDiffer(state.users, found.value); }
  }

  function NewLocal(id: Id, username: string, passwordHash: string, a: Access): User {
    User(id, Trim(username), NormalizeUsername(username), a.role, a.allOrganizations, a.organizationIds, passwordHash,
         NoSecret, [], 0, Local, "", "", "", 0, false, false)
  }

  function NewEntra(id: Id, username: string, externalLogin: string, a: Access): User {
    User(id, Trim(username), NormalizeUsername(username), a.role, a.allOrganizations, a.organizationIds, "",
         NoSecret, [], 0, Entra, Trim(externalLogin), "", "", 0, false, false)
  }

  function Updated(current: User, update: UserUpdate, a: Access): (user: User)
    ensures user.disabled == update.disabled && Access(user.role, user.allOrganizations, user.organizationIds) == a
    ensures user == current.(role := user.role, allOrganizations := user.allOrganizations, organizationIds := user.organizationIds,
                             disabled := user.disabled, externalTenantId := user.externalTenantId,
                             externalObjectId := user.externalObjectId, externalLinkedAt := user.externalLinkedAt)
    ensures if update.resetExternalIdentity then user.externalTenantId == user.externalObjectId == "" && user.externalLinkedAt == 0
            else user.externalTenantId == current.externalTenantId && user.externalObjectId == current.externalObjectId
                 && user.externalLinkedAt == current.externalLinkedAt
  {
    var user := WithAccess(current, a, update.disabled);
    if update.resetExternalIdentity then Unbound(user) else user
  }

  /** What becomes of an update of the account: the first reason against it, or
      the account updated; it is saved only when something changes. */
  ghost predicate UpdateAnswer(u: User, update: UserUpdate, known: set<Id>, writes: bool, r: Result<User, AuthError>) {
    if u.bootstrap || (update.resetExternalIdentity && u.authSource.Local?) then r == Err(Forbidden)
    else
      var granted := NormalAccess(update.access, StaysEmpty(u, update), known);
      if granted.Err? then r == Err(InvalidAccess(granted.error))
      else
        var user := Updated(u, update, granted.value);
        if user == u || writes then r == Ok(user) else r == Err(SaveFailed)
  }

  class Manager {
    var state: AuthState
    /** What was last written to the accounts file. */
    var saved: AuthState
    var organizations: OrganizationCatalog
    var guestOrganization: Id
    var sessions: map<string, Session>
    var challenges: map<string, Pending>
    var secondFactor: map<Id, Factor>
    var lastPrune: Option<int>
    var guestSessions: int
    ghost var log: seq<AuthEvents.Event>
    /** Per account, the second-factor attempts since its last success and the
        sweeps between them. */
    ghost var attempts: map<Id, seq<SecondFactor.Event>>
    /** How often the accounts file has been written, and whether it could be: what
        the disk does is an input. */
    var writes: nat
    const saves: nat -> bool
    const guestEnabled: bool
    const maxGuestSessions: nat
    const formats: Formats

    /** Memory is as the accounts file, and sessions, challenges and failure records
        are as the accounts and what happened. Every method keeps this. */
    ghost predicate Sound()
      reads this, organizations
    {
      && organizations.Valid() && !formats.validHash("")
      && AccountsSound(state.users, organizations.byId.Keys, formats) && saved == state
      && guestOrganization == state.guestOrganizationId
      && SessionsOk(sessions, state.users)
      && guestSessions == |GuestTokens(sessions)| && guestSessions <= maxGuestSessions
      && PendingOk(challenges, state.users, formats) && LogOk(log, challenges, state.users)
      && Replayed(secondFactor, attempts)
    }

    /** What loading demands of the accounts file. */
    ghost predicate Valid()
      reads this, organizations
    {
      StateValid(state, organizations.byId.Keys, formats)
    }

    /** Valid, with no bar in a bound tenant and no blank around the guest
        organization. */
    ghost predicate Orderly()
      reads this, organizations
    {
      OrderlyState(state, organizations.byId.Keys, formats)
    }

    /** newManager, on the state that New has loaded, migrated and validated. */
    constructor (state: AuthState, organizations: OrganizationCatalog, guestEnabled: bool, maxGuestSessions: nat, formats: Formats,
                 saves: nat -> bool)
      requires organizations.Valid() && !formats.validHash("") && StateValid(state, organizations.byId.Keys, formats)
      ensures Sound() && Valid() && (Orderly() <==> OrderlyState(state, organizations.byId.Keys, formats))
      ensures sessions == map[] && challenges == map[] && this.state == state && this.organizations == organizations
    {
      this.state, saved, this.organizations := state, state, organizations;
      guestOrganization := state.guestOrganizationId;
      sessions, challenges, secondFactor, lastPrune, guestSessions := map[], map[], map[], None, 0;
      this.guestEnabled, this.maxGuestSessions, this.formats := guestEnabled, maxGuestSessions, formats;
      writes, this.saves := 0, saves;
      log, attempts := GrantAll(state.users), map[];
      new;
      hide StateValid, AccountsSound, OrderlyState, Trim, Replayed;
      ValidSound(state, organizations.byId.Keys, formats);
      NothingHeld(state.users, organizations.byId.Keys, formats);
      NothingReplayed();
    }

    // ----- sessions

    /** deleteSessionLocked. */
    method DeleteSession(token: string)
      modifies this`sessions, this`guestSessions
      ensures sessions == old(sessions) - {token}
      ensures guestSessions - |GuestTokens(sessions)| == old(guestSessions - |GuestTokens(sessions)|)
    {
      GuestDropped(sessions, token);
      if token in sessions {
        if sessions[token].principal.IsGuest() { guestSessions := guestSessions - 1; }
        sessions := sessions - {token};
      }
      assert sessions == old(sessions) - {token};
    }

    /** storeSessionLocked. */
    method StoreSession(token: string, s: Session)
      modifies this`sessions, this`guestSessions
      ensures sessions == old(sessions)[token := s]
      ensures guestSessions - |GuestTokens(sessions)| == old(guestSessions - |GuestTokens(sessions)|)
    {
      GuestStored(sessions, token, s);
      if token in sessions && sessions[token].principal.IsGuest() { guestSessions := guestSessions - 1; }
      sessions := sessions[token := s];
      if s.principal.IsGuest() { guestSessions := guestSessions + 1; }
    }

    /** revokeUserSessionsLocked. */
    method RevokeUserSessions(id: Id)
      modifies this`sessions, this`guestSessions
      ensures sessions == Revoked(old(sessions), id)
      ensures guestSessions - |GuestTokens(sessions)| == old(guestSessions - |GuestTokens(sessions)|)
    {
      hide GuestTokens, RevokedAmong, Revoked;
      ghost var before := sessions;
      var tokens := Listing(sessions.Keys);
      NoneRevoked(before, id, tokens);
      for k := 0 to |tokens|
        invariant sessions == RevokedAmong(before, id, Elements(tokens[..k]))
        invariant guestSessions - |GuestTokens(sessions)| == old(guestSessions - |GuestTokens(sessions)|)
      {
        OneTokenRevoked(before, id, tokens, k);
        if tokens[k] in sessions && sessions[tokens[k]].principal.userId == id { DeleteSession(tokens[k]); }
      }
      AllTokensRevoked(before, id, tokens);
    }

    /** The loop of pruneLocked over the sessions. */
    method ExpireSessions(now: int)
      modifies this`sessions, this`guestSessions
      ensures sessions == map t | t in old(sessions) && old(sessions)[t].expiresAt > now :: old(sessions)[t]
      ensures guestSessions - |GuestTokens(sessions)| == old(guestSessions - |GuestTokens(sessions)|)
    {
      hide GuestTokens, Elements, Distinct, Unexpired;
      ghost var before := sessions;
      var tokens := Listing(sessions.Keys);
      NoneExpired(before, now, tokens);
      for k := 0 to |tokens|
        invariant sessions == Unexpired(before, now, Elements(tokens[..k]))
        invariant guestSessions - |GuestTokens(sessions)| == old(guestSessions - |GuestTokens(sessions)|)
      {
        OneTokenExpired(before, now, tokens, k);
        if !(sessions[tokens[k]].expiresAt > now) { DeleteSession(tokens[k]); }
      }
      AllTokensExpired(before, now, tokens);
    }

    /** And over the challenges. */
    method ExpireChallenges(now: int)
      requires PendingOk(challenges, state.users, formats) && LogOk(log, challenges, state.users)
      modifies this`challenges
      ensures PendingOk(challenges, state.users, formats) && LogOk(log, challenges, state.users)
      ensures challenges == map t | t in old(challenges) && old(challenges)[t].expiresAt > now :: old(challenges)[t]
    {
      hide PendingOk, LogOk;
      challenges := map t | t in challenges && challenges[t].expiresAt > now :: challenges[t];
      FewerPending(old(challenges), challenges, state.users, formats);
      LogFewer(log, old(challenges), challenges, state.users);
    }

    /** And over the failure records. */
    method ForgetFactors(now: int)
      requires Replayed(secondFactor, attempts)
      modifies this`secondFactor, this`attempts
      ensures Replayed(secondFactor, attempts) && attempts == WithSweep(old(attempts), now)
      ensures forall id | id in secondFactor ::
        id in old(secondFactor) && secondFactor[id] == old(secondFactor)[id] && Sweep(secondFactor[id], now) != NO_FAILURES
      ensures forall id | id in old(secondFactor) && Sweep(old(secondFactor)[id], now) != NO_FAILURES :: id in secondFactor
    {
      hide Replayed, Sweep;
      SweepReplayed(secondFactor, attempts, now);
      secondFactor := map id | id in secondFactor && Sweep(secondFactor[id], now) != NO_FAILURES :: secondFactor[id];
      attempts := WithSweep(attempts, now);
    }

    /** pruneLocked: what has expired goes, at most once a minute. */
    method Prune(now: int)
      requires Sound()
      modifies this`sessions, this`guestSessions, this`challenges, this`secondFactor, this`lastPrune, this`attempts
      ensures Sound() && guestSessions <= old(guestSessions)
      ensures attempts == if PrunedLately(old(lastPrune), now) then old(attempts) else WithSweep(old(attempts), now)
      ensures forall t | t in sessions :: t in old(sessions) && sessions[t] == old(sessions)[t]
      ensures forall t | t in old(sessions) && old(sessions)[t].expiresAt > now :: t in sessions
      ensures forall t | t in challenges :: t in old(challenges) && challenges[t] == old(challenges)[t]
      ensures forall t | t in old(challenges) && old(challenges)[t].expiresAt > now :: t in challenges
      ensures forall id | id in secondFactor :: id in old(secondFactor) && secondFactor[id] == old(secondFactor)[id]
      ensures forall id | id in old(secondFactor) && Sweep(old(secondFactor)[id], now) != NO_FAILURES :: id in secondFactor
      ensures if PrunedLately(old(lastPrune), now)
              then sessions == old(sessions) && challenges == old(challenges) && secondFactor == old(secondFactor)
                   && lastPrune == old(lastPrune) && guestSessions == old(guestSessions)
              else sessions == LiveSessions(old(sessions), now) && lastPrune == Some(now)
                   && NothingExpired(sessions, challenges, secondFactor, now)
    {
      hide StateValid, AccountsSound, OrderlyState, Replayed, SessionsOk, GuestTokens, PendingOk, LogOk, Trim, Sweep,
           Inverse;
      if PrunedLately(lastPrune, now) { return; }
      lastPrune := Some(now);
      ExpireSessions(now);
      FewerGuests(old(sessions), sessions);
      FewerSessions(old(sessions), sessions, state.users);
      ExpireChallenges(now);
      ForgetFactors(now);
    }

    /** Session: a stored session that has not expired. */
    method LookUpSession(token: string, now: int) returns (r: Option<Session>)
      requires Sound()
      modifies this`sessions, this`guestSessions, this`challenges, this`secondFactor, this`lastPrune, this`attempts
      ensures Sound()
      ensures r.Some? ==> r.value.expiresAt > now && token in old(sessions) && r.value == old(sessions)[token] && SessionOk(r.value, state.users)
      ensures r.None? ==> token !in old(sessions) || old(sessions)[token].expiresAt <= now
      ensures forall t | t in sessions :: t in old(sessions) && sessions[t] == old(sessions)[t]
      ensures forall t | t in old(sessions) && old(sessions)[t].expiresAt > now :: t in sessions
    {
      hide StateValid, AccountsSound, OrderlyState, Replayed, SessionOk, GuestTokens, PendingOk, LogOk, Trim,
           NothingExpired, Sweep, Inverse;
      Prune(now);
      if token !in sessions || !(sessions[token].expiresAt > now) {
        ghost var before := sessions;
        DeleteSession(token);
        FewerGuests(before, sessions);
        FewerSessions(before, sessions, state.users);
        return None;
      }
      return Some(sessions[token]);
    }

    /** Logout. */
    method Logout(token: string)
      requires Sound()
      modifies this`sessions, this`guestSessions
      ensures Sound() && sessions == old(sessions) - {token}
    {
      hide StateValid, AccountsSound, OrderlyState, Replayed, SessionsOk, SessionOk, GuestTokens, PendingOk, LogOk,
           Trim;
      DeleteSession(token);
      FewerGuests(old(sessions), sessions);
      FewerSessions(old(sessions), sessions, state.users);
    }

    /** newSessionLocked, for an account as it is persisted now. */
    method OpenSession(i: nat, now: int, token: string) returns (s: Session)
      requires Sound() && i < |state.users| && !state.users[i].disabled
      modifies this`sessions, this`guestSessions
      ensures Sound() && s == Session(PrincipalOf(state.users[i]), now + SESSION_LIFETIME)
      ensures sessions == old(sessions)[token := s]
    {
      hide StateValid, AccountsSound, OrderlyState, Replayed, SessionsOk, SessionOk, GuestTokens, PendingOk, LogOk,
           Trim;
      assert state.users[i] in state.users;
      s := Session(PrincipalOf(state.users[i]), now + SESSION_LIFETIME);
      AccountSession(state.users, state.users[i], s.expiresAt);
      SessionAdded(sessions, state.users, token, s);
      NotGuest(state.users, i, organizations.byId.Keys, formats, now + SESSION_LIFETIME);
      StoresAccount(sessions, token, s);
      StoreSession(token, s);
    }

    /** NewGuestSession; limited is the verdict of the per-client budget. */
    method NewGuestSession(now: int, limited: bool, token: string) returns (r: Result<Session, AuthError>)
      requires Sound()
      modifies this`sessions, this`guestSessions, this`challenges, this`secondFactor, this`lastPrune, this`attempts
      ensures Sound()
      ensures r.Ok? ==>
        && guestEnabled && !limited && guestOrganization != ""
        && r.value.principal == Principal(ROLE_GUEST, "Guest", ROLE_GUEST, false, [guestOrganization])
        && r.value.expiresAt == now + SESSION_LIFETIME && token in sessions && sessions[token] == r.value
      ensures forall t | t in sessions && (r.Ok? ==> t != token) :: t in old(sessions) && sessions[t] == old(sessions)[t]
      ensures forall t | t in old(sessions) && old(sessions)[t].expiresAt > now :: t in sessions
      ensures r == Err(Forbidden) <==> !guestEnabled || guestOrganization == ""
      ensures r == Err(RateLimited) <==>
        && guestEnabled && guestOrganization != "" && (limited || Crowded(old(sessions), old(lastPrune), now, maxGuestSessions))
      ensures r.Err? ==> r.error in {Forbidden, RateLimited}
    {
      hide StateValid, AccountsSound, OrderlyState, Replayed, SessionsOk, SessionOk, GuestTokens, PendingOk, LogOk,
           Trim, NothingExpired, Sweep, Inverse;
      if !guestEnabled || guestOrganization == "" { return Err(Forbidden); }
      Prune(now);
      if limited { return Err(RateLimited); }
      if guestSessions >= maxGuestSessions && (lastPrune.None? || now - lastPrune.value >= GUEST_CAP_PRUNE_INTERVAL) {
        lastPrune := None;
        Prune(now);
      }
      if guestSessions >= maxGuestSessions { return Err(RateLimited); }
      var s := Session(Principal(ROLE_GUEST, "Guest", ROLE_GUEST, false, [guestOrganization]), now + SESSION_LIFETIME);
      GuestSessionOk(s, state.users);
      SessionAdded(sessions, state.users, token, s);
      GuestStored(sessions, token, s);
      StoreSession(token, s);
      return Ok(s);
    }

    // ----- logins

    /** StartLogin, the first step: the account the password is compared with. */
    method LookUpLogin(username: string) returns (found: Option<User>)
      requires Sound()
      ensures found.Some? ==> found.value in state.users && found.value.usernameKey == NormalizeUsername(username)
      ensures found.None? ==> forall u | u in state.users :: u.usernameKey != NormalizeUsername(username)
    {
      hide StateValid, AccountsSound, OrderlyState, Replayed, SessionsOk, GuestTokens, PendingOk, LogOk,
           NormalizeUsername;
      var key := NormalizeUsername(username);
      var i := FindIndex(state.users, (u: User) => u.usernameKey == key);
      return if i < |state.users| then Some(state.users[i]) else None;
    }

    /** StartLogin, the second step. captured is the account as the first step saw
        it, matches whether the password fits its hash, which only holds of a
        proper one. The token is random, and so new; setupSecret a new secret. */
    method FinishLogin(captured: Option<User>, matches: bool, now: int, token: string, setupSecret: string)
      returns (r: Result<Pending, AuthError>)
      requires Sound() && AuthEvents.ChallengeAfter(log, token).None?
      requires matches ==> captured.Some? && formats.validHash(captured.value.passwordHash)
      requires setupSecret != "" && formats.validSecret(setupSecret)
      modifies this`challenges, this`log
      ensures Sound()
      ensures r.Ok? ==>
        && matches && challenges == old(challenges)[token := r.value]
        && r.value == Pending(captured.value.id, r.value.setupSecret, now + CHALLENGE_LIFETIME, 0)
        && (r.value.setupSecret == "" || r.value.setupSecret == setupSecret) && log == old(log) + [AuthEvents.Issued(token, r.value.userId)]
      ensures r.Ok? <==>
        && captured.Some? && captured.value.authSource.Local? && matches && !captured.value.disabled
        && exists u :: u in state.users && u.id == captured.value.id && !u.disabled && u.passwordHash == captured.value.passwordHash
      ensures r.Ok? ==> exists u :: u in state.users && LetIn(u, r.value, captured.value.passwordHash)
      ensures r.Err? ==> challenges == old(challenges) && log == old(log)
    {
      hide StateValid, AccountsSound, OrderlyState, Replayed, SessionsOk, GuestTokens, PendingOk, LogOk, Trim,
           AuthEvents.ChallengeAfter;
      if captured.None? || captured.value.authSource.Entra? || !matches || captured.value.disabled { return Err(InvalidCredentials); }
      var user := captured.value;
      var i := UserIndex(state.users, user.id);
      OnlyUser(state.users, i, user.id, organizations.byId.Keys, formats);
      if i == |state.users| || state.users[i].disabled || state.users[i].passwordHash != user.passwordHash {
        return Err(InvalidCredentials);
      }
      LocalByHash(state.users, i, organizations.byId.Keys, formats);
      var p := Pending(user.id, if state.users[i].secret.NoSecret? then setupSecret else "", now + CHALLENGE_LIFETIME, 0);
      OneUser(state.users, i, organizations.byId.Keys, formats);
      PendingAdded(challenges, state.users, formats, token, p);
      LogIssues(log, challenges, state.users, token, p);
      log := log + [AuthEvents.Issued(token, p.userId)];
      challenges := challenges[token := p];
      assert state.users[i] in state.users;
      return Ok(p);
    }

    /** reservedChallengeUserLocked: the account of a live challenge. */
    method ReservedChallengeUser(token: string, now: int) returns (r: Option<nat>)
      requires Sound()
      modifies this`challenges
      ensures Sound()
      ensures r.Some? ==> challenges == old(challenges) && Live(state, challenges, token, now, r.value)
      ensures r.None? ==> challenges == old(challenges) - {token} && !Alive(state, old(challenges), token, now)
      ensures forall i | Live(state, old(challenges), token, now, i) :: r == Some(i)
    {
      hide StateValid, AccountsSound, OrderlyState, Replayed, SessionsOk, GuestTokens, PendingOk, LogOk, Trim;
      FewerPending(challenges, challenges - {token}, state.users, formats);
      LogFewer(log, challenges, challenges - {token}, state.users);
      if token !in challenges || !(challenges[token].expiresAt > now) {
        challenges := challenges - {token};
        return None;
      }
      var i := UserIndex(state.users, challenges[token].userId);
      OnlyUser(state.users, i, challenges[token].userId, organizations.byId.Keys, formats);
      if i == |state.users| || state.users[i].disabled {
        challenges := challenges - {token};
        return None;
      }
      return Some(i);
    }

    /** challengeUserLocked: refused after five verifications. */
    method ChallengeUser(token: string, now: int) returns (r: Option<nat>)
      requires Sound()
      modifies this`challenges
      ensures Sound()
      ensures r.Some? ==>
        challenges == old(challenges) && Live(state, challenges, token, now, r.value) && challenges[token].failedChecks < MAX_CHALLENGE_TRIES
      ensures r.None? ==>
        && challenges == old(challenges) - {token}
        && (Alive(state, old(challenges), token, now) ==> old(challenges)[token].failedChecks >= MAX_CHALLENGE_TRIES)
      ensures forall i | Live(state, old(challenges), token, now, i) && r.Some? :: r == Some(i)
      ensures challenges == AfterRefusal(state, old(challenges), token, now)
    {
      hide StateValid, AccountsSound, OrderlyState, Replayed, SessionsOk, GuestTokens, PendingOk, LogOk, Trim;
      if token in challenges && challenges[token].failedChecks >= MAX_CHALLENGE_TRIES {
        FewerPending(challenges, challenges - {token}, state.users, formats);
        LogFewer(log, challenges, challenges - {token}, state.users);
        challenges := challenges - {token};
        return None;
      }
      r := ReservedChallengeUser(token, now);
    }

    /** reserveSecondFactorLocked: counted before the code is checked. */
    method ReserveSecondFactor(token: string, userId: Id, now: int) returns (admitted: bool)
      requires Sound() && token in challenges && challenges[token].failedChecks < MAX_CHALLENGE_TRIES
      modifies this`challenges, this`secondFactor, this`log, this`attempts
      ensures Sound() && attempts == WithEvent(old(attempts), userId, Attempt(now))
      ensures admitted <==> !SecondFactor.Locked(RecordOf(old(secondFactor), userId), now)
      ensures admitted ==> CountedFor(old(secondFactor), secondFactor, userId, now) && log == old(log) + [AuthEvents.Admitted(token)]
      ensures admitted ==> challenges == old(challenges)[token := Checked(old(challenges)[token])]
      ensures !admitted ==> secondFactor == old(secondFactor) && log == old(log) && challenges == old(challenges)
    {
      hide StateValid, AccountsSound, OrderlyState, Replayed, SessionsOk, GuestTokens, PendingOk, LogOk, Trim, Admit;
      var f := if userId in secondFactor then secondFactor[userId] else NO_FAILURES;
      var g := Admit(f, now);
      AdmittedUnlessLocked(f, now);
      AttemptReplayed(secondFactor, attempts, userId, now);
      attempts := WithEvent(attempts, userId, Attempt(now));
      if g.None? { return false; }
      LogAdmits(log, challenges, state.users, token);
      PendingCounted(challenges, state.users, formats, token);
      secondFactor := secondFactor[userId := g.value];
      log := log + [AuthEvents.Admitted(token)];
      challenges := challenges[token := challenges[token].(failedChecks := challenges[token].failedChecks + 1)];
      return true;
    }

    /** commitLocked: nothing changes in memory when the state cannot be saved. */
    method Commit(next: AuthState) returns (ok: bool)
      modifies this`state, this`saved, this`writes
      ensures ok == saves(old(writes)) && writes == old(writes) + 1
      ensures if ok then state == saved == next else state == old(state) && saved == old(saved)
    {
      ok := saves(writes);
      writes := writes + 1;
      if ok { saved, state := next, next; }
    }

    /** What all three second factors begin with: the challenge is checked, and the
        attempt counted. */
    method ReserveFactor(token: string, now: int, setup: bool) returns (r: Result<nat, AuthError>)
      requires Sound()
      modifies this`challenges, this`secondFactor, this`log, this`attempts
      ensures Sound()
      ensures attempts == if !Open(state, old(challenges), token, now, setup) then old(attempts)
                          else WithEvent(old(attempts), old(challenges)[token].userId, Attempt(now))
      ensures r == Err(InvalidChallenge) <==> !Open(state, old(challenges), token, now, setup)
      ensures r == Err(RateLimited) <==>
        Open(state, old(challenges), token, now, setup) && LockedOut(old(challenges), old(secondFactor), token, now)
      ensures r.Err? ==> r.error in {InvalidChallenge, RateLimited} && log == old(log) && secondFactor == old(secondFactor)
      ensures r.Err? ==> challenges == AfterRefusal(state, old(challenges), token, now)
      ensures r.Ok? ==> AttemptCounted(old(challenges), challenges, old(secondFactor), secondFactor, token, now)
      ensures r.Ok? ==> log == old(log) + [AuthEvents.Admitted(token)] && Ready(state, old(challenges), token, now, setup, r.value)
    {
      hide StateValid, AccountsSound, OrderlyState, Replayed, SessionsOk, GuestTokens, PendingOk, LogOk, Trim, Admit,
           Open, Alive, CountedFor, SecondFactor.Locked;
      var found := ChallengeUser(token, now);
      OpenIff(state, old(challenges), token, now, setup, found);
      if found.None? { return Err(InvalidChallenge); }
      var user := state.users[found.value];
      if setup != (challenges[token].setupSecret != "") || setup != user.secret.NoSecret? { return Err(InvalidChallenge); }
      var admitted := ReserveSecondFactor(token, user.id, now);
      if !admitted { return Err(RateLimited); }
      return Ok(found.value);
    }

    /** completeAuthenticator, the first step: the secret and the last step used. */
    method ReserveTotp(token: string, now: int) returns (r: Result<(string, nat), AuthError>)
      requires Sound()
      modifies this`challenges, this`secondFactor, this`log, this`attempts
      ensures Sound()
      ensures attempts == if !Open(state, old(challenges), token, now, false) then old(attempts)
                          else WithEvent(old(attempts), old(challenges)[token].userId, Attempt(now))
      ensures r == Err(InvalidChallenge) <==> !Open(state, old(challenges), token, now, false)
      ensures r == Err(RateLimited) <==>
        Open(state, old(challenges), token, now, false) && LockedOut(old(challenges), old(secondFactor), token, now)
      ensures r.Err? ==> r.error in {InvalidChallenge, RateLimited} && log == old(log) && secondFactor == old(secondFactor)
      ensures r.Err? ==> challenges == AfterRefusal(state, old(challenges), token, now)
      ensures r.Ok? ==> AttemptCounted(old(challenges), challenges, old(secondFactor), secondFactor, token, now)
      ensures r.Ok? ==> log == old(log) + [AuthEvents.Admitted(token)] && token in challenges
      ensures r.Ok? ==> exists u :: u in state.users && u.id == challenges[token].userId && HasFactor(u, r.value.0, r.value.1)
    {
      hide StateValid, AccountsSound, OrderlyState, Replayed, SessionsOk, GuestTokens, PendingOk, LogOk, Trim, Admit,
           Open, Alive, CountedFor, AfterRefusal, LockedOut;
      var reserved := ReserveFactor(token, now, false);
      if reserved.Err? { return Err(reserved.error); }
      var user := state.users[reserved.value];
      assert user in state.users;
      OpensOwn(state.users, reserved.value, organizations.byId.Keys, formats);
      return Ok((user.secret.secret, user.lastTotpStep));
    }

    /** What a verified second factor does: the account's new factors are saved,
        the challenge and the failure record go, and a session opens. */
    method Spend(token: string, now: int, i: nat, user: User, ghost events: seq<AuthEvents.Event>, sessionToken: string)
      returns (r: Result<Session, AuthError>)
      requires Sound() && token in challenges && i < |state.users| && !state.users[i].disabled
      requires user == state.users[i].(secret := user.secret, recoveryHashes := user.recoveryHashes, lastTotpStep := user.lastTotpStep)
      requires (state.users[i].secret.Sealed? ==> user.secret.Sealed?) && UserValid(user, organizations.byId.Keys, formats)
      requires LogOk(log + events, challenges - {token}, state.users[i := user])
      modifies this
      ensures Sound() && organizations == old(organizations)
      ensures (old(Valid()) ==> Valid()) && (old(Orderly()) ==> Orderly())
      ensures r.Ok? ==> state == old(state).(users := old(state).users[i := user]) && log == old(log) + events
      ensures r.Ok? ==>
        challenges == old(challenges) - {token} && secondFactor == old(secondFactor) - {user.id} && attempts == old(attempts) - {user.id}
      ensures r.Ok? ==> sessions == old(sessions)[sessionToken := r.value] && r.value == Session(PrincipalOf(user), now + SESSION_LIFETIME)
      ensures r.Ok? == saves(old(writes)) && (r.Err? ==> r == Err(SaveFailed))
      ensures r.Err? ==> state == old(state) && log == old(log) && sessions == old(sessions)
      ensures r.Err? ==> challenges == old(challenges) && secondFactor == old(secondFactor)
    {
      hide StateValid, AccountsSound, OrderlyState, Replayed, SessionsOk, GuestTokens, PendingOk, LogOk, Trim,
           PrincipalOf, Inverse, UserValid, Replaces;
      var next := state.(users := state.users[i := user]);
      SameAccess(state.users[i], user);
      FactorsChanged(sessions, challenges, state.users, i, user, token, formats);
      AccountKept(state, i, user, organizations.byId.Keys, formats);
      ForgetReplayed(secondFactor, attempts, user.id);
      var ok := Commit(next);
      if !ok {
        return Err(SaveFailed);
      }
      var s := Settle(token, now, i, events, sessionToken);
      return Ok(s);
    }

    /** What follows once the account's new factors are saved. */
    method Settle(token: string, now: int, i: nat, ghost events: seq<AuthEvents.Event>, sessionToken: string) returns (s: Session)
      requires organizations.Valid() && !formats.validHash("") && AccountsSound(state.users, organizations.byId.Keys, formats)
      requires saved == state && guestOrganization == state.guestOrganizationId && SessionsOk(sessions, state.users)
      requires guestSessions == |GuestTokens(sessions)| <= maxGuestSessions && i < |state.users| && !state.users[i].disabled
      requires PendingOk(challenges - {token}, state.users, formats) && LogOk(log + events, challenges - {token}, state.users)
      requires Replayed(secondFactor - {state.users[i].id}, attempts - {state.users[i].id})
      modifies this`challenges, this`secondFactor, this`attempts, this`log, this`sessions, this`guestSessions
      ensures Sound() && log == old(log) + events && challenges == old(challenges) - {token}
      ensures secondFactor == old(secondFactor) - {state.users[i].id} && attempts == old(attempts) - {state.users[i].id}
      ensures sessions == old(sessions)[sessionToken := s] && s == Session(PrincipalOf(state.users[i]), now + SESSION_LIFETIME)
    {
      hide AccountsSound, Replayed, SessionsOk, GuestTokens, PendingOk, LogOk, PrincipalOf, Inverse;
      log := log + events;
      challenges := challenges - {token};
      secondFactor, attempts := secondFactor - {state.users[i].id}, attempts - {state.users[i].id};
      s := OpenSession(i, now, sessionToken);
    }

    /** completeAuthenticator, the second step, once the code has been found to be
        that of the step. */
    method FinishTotp(token: string, now: int, step: nat, sessionToken: string) returns (r: Result<Session, AuthError>)
      requires Sound()
      modifies this
      ensures Sound() && organizations == old(organizations)
      ensures (old(Valid()) ==> Valid()) && (old(Orderly()) ==> Orderly())
      ensures r.Ok? ==>
        && token in old(challenges) && challenges == old(challenges) - {token} && sessions == old(sessions)[sessionToken := r.value]
        && log == old(log) + [AuthEvents.StepUsed(token, old(challenges)[token].userId, step)]
        && TotpOpens(old(state), old(challenges), token, now, step, state, r.value)
        && secondFactor == old(secondFactor) - {old(challenges)[token].userId}
      ensures r == Err(InvalidChallenge) <==> !TotpFits(old(state), old(challenges), token, now, step)
      ensures r.Ok? <==> TotpFits(old(state), old(challenges), token, now, step) && saves(old(writes))
      ensures r.Err? ==> r.error in {InvalidChallenge, SaveFailed}
      ensures r.Err? ==> state == old(state) && log == old(log) && sessions == old(sessions) && secondFactor == old(secondFactor)
      ensures r.Err? ==>
        challenges == if Alive(old(state), old(challenges), token, now) then old(challenges) else old(challenges) - {token}
    {
      hide StateValid, AccountsSound, OrderlyState, Replayed, SessionsOk, GuestTokens, PendingOk, LogOk, Trim,
           PrincipalOf, Inverse;
      var found := ReservedChallengeUser(token, now);
      if found.None? || challenges[token].setupSecret != "" || state.users[found.value].lastTotpStep >= step {
        NoFit(old(state), old(challenges), token, now, found, organizations.byId.Keys, formats);
        return Err(InvalidChallenge);
      }
      var i := found.value;
      var user := state.users[i].(lastTotpStep := step);
      PendingIs(challenges, state.users, formats, token, i);
      FactorsValid(state.users, i, user, organizations.byId.Keys, formats);
      UsersOf(state.users, organizations.byId.Keys, formats);
      LogStep(log, challenges, state.users, token, i, user);
      PrincipalNamed(user);
      r := Spend(token, now, i, user, [AuthEvents.StepUsed(token, user.id, step)], sessionToken);
      assert Live(old(state), old(challenges), token, now, i);
    }

    /** CompleteSetup, the first step: the secret that is to be confirmed. */
    method ReserveSetup(token: string, now: int) returns (r: Result<string, AuthError>)
      requires Sound()
      modifies this`challenges, this`secondFactor, this`log, this`attempts
      ensures Sound()
      ensures attempts == if !Open(state, old(challenges), token, now, true) then old(attempts)
                          else WithEvent(old(attempts), old(challenges)[token].userId, Attempt(now))
      ensures r == Err(InvalidChallenge) <==> !Open(state, old(challenges), token, now, true)
      ensures r == Err(RateLimited) <==>
        Open(state, old(challenges), token, now, true) && LockedOut(old(challenges), old(secondFactor), token, now)
      ensures r.Err? ==> r.error in {InvalidChallenge, RateLimited} && log == old(log) && secondFactor == old(secondFactor)
      ensures r.Err? ==> challenges == AfterRefusal(state, old(challenges), token, now)
      ensures r.Ok? ==> AttemptCounted(old(challenges), challenges, old(secondFactor), secondFactor, token, now)
      ensures r.Ok? ==> log == old(log) + [AuthEvents.Admitted(token)] && token in challenges && r.value == challenges[token].setupSecret != ""
    {
      hide StateValid, AccountsSound, OrderlyState, Replayed, SessionsOk, GuestTokens, PendingOk, LogOk, Trim, Admit,
           Open, Alive, CountedFor, AfterRefusal, LockedOut;
      var reserved := ReserveFactor(token, now, true);
      if reserved.Err? { return Err(reserved.error); }
      return Ok(challenges[token].setupSecret);
    }

    /** CompleteSetup, the second step, once the code has been found to be that of
        the step, which is past zero; hashes are of new recovery codes. */
    method FinishSetup(token: string, now: int, secret: string, step: nat, hashes: seq<string>, sessionToken: string)
      returns (r: Result<Session, AuthError>)
      requires Sound() && step > 0
      modifies this
      ensures Sound() && organizations == old(organizations)
      ensures (old(Valid()) ==> Valid()) && (old(Orderly()) ==> Orderly())
      ensures r.Ok? ==>
        && token in old(challenges) && challenges == old(challenges) - {token} && sessions == old(sessions)[sessionToken := r.value]
        && log == old(log) + ([AuthEvents.StepUsed(token, old(challenges)[token].userId, step)]
                              + [AuthEvents.CodesGranted(old(challenges)[token].userId, hashes)])
        && SetupOpens(old(state), old(challenges), token, now, secret, hashes, step, state, r.value)
        && secondFactor == old(secondFactor) - {old(challenges)[token].userId}
      ensures r == Err(InvalidChallenge) <==> !SetupFits(old(state), old(challenges), token, now, secret)
      ensures r.Ok? <==> SetupFits(old(state), old(challenges), token, now, secret) && saves(old(writes))
      ensures r.Err? ==> r.error in {InvalidChallenge, SaveFailed}
      ensures r.Err? ==> state == old(state) && log == old(log) && sessions == old(sessions) && secondFactor == old(secondFactor)
      ensures r.Err? ==>
        challenges == if Alive(old(state), old(challenges), token, now) then old(challenges) else old(challenges) - {token}
    {
      hide StateValid, AccountsSound, OrderlyState, Replayed, SessionsOk, GuestTokens, PendingOk, LogOk, Trim,
           PrincipalOf;
      var found := ReservedChallengeUser(token, now);
      if found.None? || challenges[token].setupSecret != secret || state.users[found.value].secret.Sealed? {
        NoFit(old(state), old(challenges), token, now, found, organizations.byId.Keys, formats);
        return Err(InvalidChallenge);
      }
      var i := found.value;
      var user := Equipped(state.users[i], secret, hashes, step);
      PendingIs(challenges, state.users, formats, token, i);
      FactorsValid(state.users, i, user, organizations.byId.Keys, formats);
      UsersOf(state.users, organizations.byId.Keys, formats);
      SetupLogged(log, challenges, state.users, token, i, user);
      PrincipalNamed(user);
      r := Spend(token, now, i, user, [AuthEvents.StepUsed(token, user.id, step)] + [AuthEvents.CodesGranted(user.id, hashes)], sessionToken);
      assert Live(old(state), old(challenges), token, now, i);
    }

    /** CompleteRecovery: one step, since comparing digests is quick. The attempt is
        counted before the code is looked at, and so whatever the code is. */
    method CompleteRecovery(token: string, now: int, code: string, matches: (string, string) -> bool, sessionToken: string)
      returns (r: Result<Session, AuthError>)
      requires Sound()
      modifies this
      ensures Sound() && organizations == old(organizations)
      ensures (old(Valid()) ==> Valid()) && (old(Orderly()) ==> Orderly())
      ensures r == Err(InvalidChallenge) <==> !Open(old(state), old(challenges), token, now, false)
      ensures r == Err(RateLimited) <==>
        Open(old(state), old(challenges), token, now, false) && LockedOut(old(challenges), old(secondFactor), token, now)
      ensures r == Err(InvalidCode) <==>
        && Open(old(state), old(challenges), token, now, false) && !LockedOut(old(challenges), old(secondFactor), token, now)
        && !CodeKnown(old(state), old(challenges), token, code, matches)
      ensures r == Err(SaveFailed) <==>
        && Open(old(state), old(challenges), token, now, false) && !LockedOut(old(challenges), old(secondFactor), token, now)
        && CodeKnown(old(state), old(challenges), token, code, matches) && !saves(old(writes))
      ensures r.Err? ==> r.error in {InvalidChallenge, RateLimited, InvalidCode, SaveFailed}
      ensures r.Err? ==> state == old(state) && sessions == old(sessions)
      ensures r.Err? && r.error in {InvalidChallenge, RateLimited} ==>
        challenges == AfterRefusal(old(state), old(challenges), token, now) && secondFactor == old(secondFactor) && log == old(log)
      ensures r.Err? && r.error in {InvalidCode, SaveFailed} ==>
        && AttemptCounted(old(challenges), challenges, old(secondFactor), secondFactor, token, now)
        && log == old(log) + [AuthEvents.Admitted(token)]
      ensures r.Ok? ==>
        && token in old(challenges) && challenges == old(challenges) - {token} && sessions == old(sessions)[sessionToken := r.value]
        && secondFactor == old(secondFactor) - {old(challenges)[token].userId}
        && exists hash ::
             && matches(hash, RawCode(Trim(code))) && CodeOpens(old(state), old(challenges), token, now, hash, state, r.value)
             && log == old(log) + [AuthEvents.Admitted(token)] + [AuthEvents.CodeUsed(token, old(challenges)[token].userId, hash)]
    {
      hide StateValid, AccountsSound, OrderlyState, Replayed, SessionsOk, GuestTokens, PendingOk, LogOk, Trim,
           PrincipalOf, RawCode, Open, Alive, CodeKnown, CountedFor, AfterRefusal, LockedOut, UsesCode, HoldsCode;
      var reserved := ReserveFactor(token, now, false);
      if reserved.Err? { return Err(reserved.error); }
      assert Live(state, old(challenges), token, now, reserved.value);
      KnownCode(state, old(challenges), token, reserved.value, code, matches, organizations.byId.Keys, formats);
      ghost var hash: string;
      CountedForgotten(old(secondFactor), secondFactor, old(challenges)[token].userId, now);
      r, hash := TryCode(token, now, reserved.value, code, matches, sessionToken);
    }

    /** A code of the challenge's account opens a session; another does nothing. */
    method TryCode(token: string, now: int, i: nat, code: string, matches: (string, string) -> bool, sessionToken: string)
      returns (r: Result<Session, AuthError>, ghost hash: string)
      requires Sound() && token in challenges && i < |state.users|
      requires state.users[i].id == challenges[token].userId && !state.users[i].disabled
      modifies this
      ensures Sound() && organizations == old(organizations)
      ensures (old(Valid()) ==> Valid()) && (old(Orderly()) ==> Orderly())
      ensures r == Err(InvalidCode) <==> !HoldsCode(old(state).users[i], code, matches)
      ensures r == Err(SaveFailed) <==> HoldsCode(old(state).users[i], code, matches) && !saves(old(writes))
      ensures r.Err? ==> r.error in {InvalidCode, SaveFailed} && state == old(state) && sessions == old(sessions)
      ensures r.Err? ==> challenges == old(challenges) && secondFactor == old(secondFactor) && log == old(log)
      ensures r.Ok? ==>
        && challenges == old(challenges) - {token} && sessions == old(sessions)[sessionToken := r.value]
        && matches(hash, RawCode(Trim(code))) && UsesCode(old(state), i, hash, state, now, r.value)
        && secondFactor == old(secondFactor) - {old(challenges)[token].userId}
        && log == old(log) + [AuthEvents.CodeUsed(token, old(challenges)[token].userId, hash)]
    {
      hide StateValid, AccountsSound, OrderlyState, Replayed, SessionsOk, GuestTokens, PendingOk, LogOk, Trim,
           PrincipalOf, RawCode, RemoveAt, OpenedFor;
      var index := RecoveryCodeIndex(state.users[i].recoveryHashes, code, matches);
      if index.None? { return Err(InvalidCode), ""; }
      hash := state.users[i].recoveryHashes[index.value];
      assert HoldsCode(state.users[i], code, matches);
      r := SpendCode(token, now, i, index.value, sessionToken);
    }

    /** The k-th recovery code of the challenge's account is used up. */
    method SpendCode(token: string, now: int, i: nat, k: nat, sessionToken: string) returns (r: Result<Session, AuthError>)
      requires Sound() && token in challenges && i < |state.users| && k < |state.users[i].recoveryHashes|
      requires state.users[i].id == challenges[token].userId && !state.users[i].disabled
      modifies this
      ensures Sound() && organizations == old(organizations)
      ensures (old(Valid()) ==> Valid()) && (old(Orderly()) ==> Orderly())
      ensures r.Ok? ==>
        && challenges == old(challenges) - {token} && sessions == old(sessions)[sessionToken := r.value]
        && OpenedFor(old(state), state, i, WithoutCode(old(state).users[i], k), now, r.value)
        && log == old(log) + [AuthEvents.CodeUsed(token, old(challenges)[token].userId, old(state).users[i].recoveryHashes[k])]
        && secondFactor == old(secondFactor) - {old(challenges)[token].userId}
      ensures r.Ok? == saves(old(writes)) && (r.Err? ==> r == Err(SaveFailed))
      ensures r.Err? ==> state == old(state) && sessions == old(sessions) && log == old(log)
      ensures r.Err? ==> challenges == old(challenges) && secondFactor == old(secondFactor)
    {
      hide StateValid, AccountsSound, OrderlyState, Replayed, SessionsOk, GuestTokens, PendingOk, LogOk, Trim,
           PrincipalOf, RemoveAt, Inverse;
      var user := WithoutCode(state.users[i], k);
      PendingIs(challenges, state.users, formats, token, i);
      FactorsValid(state.users, i, user, organizations.byId.Keys, formats);
      UsersOf(state.users, organizations.byId.Keys, formats);
      LogCode(log, challenges, state.users, token, i, user, k);
      PrincipalNamed(user);
      r := Spend(token, now, i, user, [AuthEvents.CodeUsed(token, user.id, state.users[i].recoveryHashes[k])], sessionToken);
    }

    // ----- accounts

    /** CreateUser; id is random, and so new. */
    method CreateUser(id: Id, username: string, passwordHash: string, access: Access) returns (r: Result<User, AuthError>)
      requires Sound() && id != "" && NoUser(state.users, id) && formats.validHash(passwordHash)
      modifies this`state, this`saved, this`writes
      ensures Sound()
      ensures (old(Valid()) ==> Valid()) && (old(Orderly()) ==> Orderly())
      ensures r.Ok? ==> state == old(state).(users := old(state).users + [r.value])
      ensures var granted := NormalAccess(access, false, organizations.byId.Keys);
              && (r.Ok? ==> granted.Ok? && r.value == NewLocal(id, username, passwordHash, granted.value))
              && (r.Ok? || r.error == SaveFailed <==>
                    && formats.validUsername(Trim(username)) && NormalizeUsername(username) != "" && granted.Ok?
                    && forall u | u in old(state).users :: u.usernameKey != NormalizeUsername(username))
      ensures (r.Ok? ==> saves(old(writes))) && (r == Err(SaveFailed) ==> !saves(old(writes)))
      ensures r == Err(InvalidName) <==> !formats.validUsername(Trim(username)) || NormalizeUsername(username) == ""
      ensures r == Err(AccountExists) ==> exists u :: u in state.users && u.usernameKey == NormalizeUsername(username)
      ensures r.Err? && r.error.InvalidAccess? ==> NormalAccess(access, false, organizations.byId.Keys) == Err(r.error.access)
      ensures r.Err? ==> r.error in {InvalidName, AccountExists, SaveFailed} || r.error.InvalidAccess?
      ensures r.Err? ==> state == old(state)
    {
      hide StateValid, AccountsSound, OrderlyState, Replayed, SessionsOk, GuestTokens, PendingOk, LogOk, Trim, Lower,
           NormalAccess, Inverse, UserValid, NamesFree;
      var name := Trim(username);
      TrimTwice(username);
      if !formats.validUsername(name) || NormalizeUsername(name) == "" { return Err(InvalidName); }
      var granted := NormalizeAccess(access, false, organizations.byId.Keys);
      if granted.Err? { return Err(InvalidAccess(granted.error)); }
      var taken := UsernameTaken(name);
      if taken { return Err(AccountExists); }
      var a := granted.value;
      var user := NewLocal(id, username, passwordHash, a);
      NormalAccessValid(access, false, organizations.byId.Keys);
      NewLocalUser(state.users, user, a, organizations.byId.Keys, formats);
      r := AddUser(user);
    }

    /** CreateEntraUser. */
    method CreateEntraUser(id: Id, username: string, externalLogin: string, access: Access) returns (r: Result<User,
                           AuthError>)
      requires Sound() && id != "" && NoUser(state.users, id)
      modifies this`state, this`saved, this`writes
      ensures Sound()
      ensures (old(Valid()) ==> Valid()) && (old(Orderly()) ==> Orderly())
      ensures r.Ok? ==> state == old(state).(users := old(state).users + [r.value])
      ensures var granted := NormalAccess(access, false, organizations.byId.Keys);
              && (r.Ok? ==> granted.Ok? && r.value == NewEntra(id, username, externalLogin, granted.value))
              && (r.Ok? || r.error == SaveFailed <==>
                    && formats.validUsername(Trim(username)) && NormalizeUsername(username) != "" && formats.validLogin(Trim(externalLogin))
                    && granted.Ok? && (forall u | u in old(state).users :: u.usernameKey != NormalizeUsername(username))
                    && forall u | u in old(state).users && u.authSource.Entra? :: LoginKey(u) != NormalizeUsername(externalLogin))
      ensures (r.Ok? ==> saves(old(writes))) && (r == Err(SaveFailed) ==> !saves(old(writes)))
      ensures r == Err(InvalidName) <==> !formats.validUsername(Trim(username)) || NormalizeUsername(username) == ""
      ensures r == Err(InvalidIdentity) <==> r != Err(InvalidName) && !formats.validLogin(Trim(externalLogin))
      ensures r == Err(AccountExists) ==>
        || (exists u :: u in state.users && u.usernameKey == NormalizeUsername(username))
        || exists u :: u in state.users && u.authSource.Entra? && LoginKey(u) == NormalizeUsername(externalLogin)
      ensures r.Err? && r.error.InvalidAccess? ==> NormalAccess(access, false, organizations.byId.Keys) == Err(r.error.access)
      ensures r.Err? ==> r.error in {InvalidName, InvalidIdentity, AccountExists, SaveFailed} || r.error.InvalidAccess?
      ensures r.Err? ==> state == old(state)
    {
      hide StateValid, AccountsSound, OrderlyState, Replayed, SessionsOk, GuestTokens, PendingOk, LogOk, Trim, Lower,
           NormalAccess, Inverse, UserValid, NamesFree;
      var name, login := Trim(username), Trim(externalLogin);
      TrimTwice(username);
      TrimTwice(externalLogin);
      if !formats.validUsername(name) || NormalizeUsername(name) == "" { return Err(InvalidName); }
      if !formats.validLogin(login) { return Err(InvalidIdentity); }
      var granted := NormalizeAccess(access, false, organizations.byId.Keys);
      if granted.Err? { return Err(InvalidAccess(granted.error)); }
      var taken := UsernameTaken(name);
      if taken { return Err(AccountExists); }
      var loginTaken := ExternalLoginExists(login);
      if loginTaken { return Err(AccountExists); }
      var a := granted.value;
      var user := NewEntra(id, username, externalLogin, a);
      NormalAccessValid(access, false, organizations.byId.Keys);
      NewEntraUser(state.users, user, a, organizations.byId.Keys, formats);
      r := AddUser(user);
    }

    method UsernameTaken(name: string) returns (taken: bool)
      ensures taken <==> exists u :: u in state.users && u.usernameKey == NormalizeUsername(name)
    {
      hide NormalizeUsername;
      var key := NormalizeUsername(name);
      var i := FindIndex(state.users, (u: User) => u.usernameKey == key);
      if i < |state.users| { assert state.users[i] in state.users; }
      return i < |state.users|;
    }

    /** externalLoginExistsLocked. */
    method ExternalLoginExists(login: string) returns (taken: bool)
      ensures taken <==> exists u :: u in state.users && u.authSource.Entra? && LoginKey(u) == NormalizeUsername(login)
    {
      hide NormalizeUsername;
      var key := NormalizeUsername(login);
      var i := FindIndex(state.users, (u: User) => u.authSource.Entra? && LoginKey(u) == key);
      if i < |state.users| { assert state.users[i] in state.users; }
      return i < |state.users|;
    }

    method AddUser(user: User) returns (r: Result<User, AuthError>)
      requires Sound() && UserValid(user, organizations.byId.Keys, formats) && NamesFree(state.users, user) && !Bound(user)
      requires NoUser(state.users, user.id) && user.recoveryHashes == [] && user.lastTotpStep == 0 && user.secret.NoSecret?
      modifies this`state, this`saved, this`writes
      ensures Sound()
      ensures (old(Valid()) ==> Valid()) && (old(Orderly()) ==> Orderly())
      ensures r.Ok? ==> r.value == user && state == old(state).(users := old(state).users + [user])
      ensures r.Ok? == saves(old(writes))
      ensures r.Err? ==> r == Err(SaveFailed) && state == old(state)
    {
      hide StateValid, AccountsSound, OrderlyState, Replayed, SessionsOk, GuestTokens, PendingOk, LogOk, Trim,
           UserValid, NamesFree;
      var next := state.(users := state.users + [user]);
      AddedSound(state, user, organizations.byId.Keys, formats);
      SessionsMoreUsers(sessions, state.users, user);
      PendingNewUser(challenges, state.users, formats, user);
      LogNewUser(log, challenges, state.users, user);
      var ok := Commit(next);
      if !ok { return Err(SaveFailed); }
      return Ok(user);
    }

    /** Putting a changed account in place and revoking its sessions. */
    method ReplaceUser(i: nat, user: User) returns (ok: bool)
      requires Sound() && i < |state.users| && SameFactors(state.users[i], user) && Replaces(state.users[i], user)
      requires UserValid(user, organizations.byId.Keys, formats)
      modifies this`state, this`saved, this`writes, this`sessions, this`guestSessions
      ensures Sound()
      ensures (old(Valid()) ==> Valid()) && (old(Orderly()) ==> Orderly())
      ensures ok == saves(old(writes))
      ensures ok ==> state == old(state).(users := old(state).users[i := user]) && sessions == Revoked(old(sessions), user.id)
      ensures !ok ==> state == old(state) && sessions == old(sessions)
    {
      hide StateValid, AccountsSound, OrderlyState, Replayed, SessionsOk, GuestTokens, PendingOk, LogOk, Trim,
           Inverse, UserValid, Replaces, SameFactors;
      var next := state.(users := state.users[i := user]);
      SameSource(state.users[i], user);
      FewerSessions(sessions, Revoked(sessions, user.id), state.users);
      SessionsAfterUpdate(Revoked(sessions, user.id), state.users, i, user);
      PendingAfterUpdate(challenges, state.users, i, user, formats);
      LogReplaced(log, challenges, state.users, i, user);
      AccountKept(state, i, user, organizations.byId.Keys, formats);
      ok := Commit(next);
      if !ok { return false; }
      RevokeUserSessions(user.id);
      FewerGuests(old(sessions), sessions);
    }

    /** ResetEntraBinding. */
    method ResetEntraBinding(id: Id) returns (r: Result<User, AuthError>)
      requires Sound()
      modifies this`state, this`saved, this`writes, this`sessions, this`guestSessions
      ensures Sound()
      ensures (old(Valid()) ==> Valid()) && (old(Orderly()) ==> Orderly())
      ensures r.Ok? ==> exists i | 0 <= i < |old(state).users| && old(state).users[i].id == id ::
        r.value == Unbound(old(state).users[i]) && state == old(state).(users := old(state).users[i := r.value])
      ensures r.Ok? ==> sessions == Revoked(old(sessions), id)
      ensures r.Err? ==> state == old(state) && sessions == old(sessions)
      ensures r == Err(UnknownUser) <==> NoUser(old(state).users, id)
      ensures r == Err(Forbidden) <==> exists u :: u in old(state).users && u.id == id && u.authSource.Local?
      ensures r.Ok? <==> (exists u :: u in old(state).users && u.id == id && u.authSource.Entra?) && saves(old(writes))
      ensures r.Err? ==> r.error in {UnknownUser, Forbidden, SaveFailed}
    {
      hide StateValid, AccountsSound, OrderlyState, Replayed, SessionsOk, GuestTokens, PendingOk, LogOk, Trim,
           UserValid, SameNames;
      var i := UserIndex(state.users, id);
      if i == |state.users| { return Err(UnknownUser); }
      OneUser(state.users, i, organizations.byId.Keys, formats);
      if state.users[i].authSource.Local? { return Err(Forbidden); }
      var user := Unbound(state.users[i]);
      UserIs(state.users, i, organizations.byId.Keys, formats);
      BindingReset(state.users[i], organizations.byId.Keys, formats);
      var ok := ReplaceUser(i, user);
      if !ok { return Err(SaveFailed); }
      assert state.users[i] == user;
      return Ok(user);
    }

    /** UpdateUser: any change of access revokes the account's sessions. */
    method UpdateUser(id: Id, update: UserUpdate) returns (r: Result<User, AuthError>)
      requires Sound()
      modifies this`state, this`saved, this`writes, this`sessions, this`guestSessions
      ensures Sound()
      ensures (old(Valid()) ==> Valid()) && (old(Orderly()) ==> Orderly())
      ensures r == Err(UnknownUser) <==> NoUser(old(state).users, id)
      ensures forall u | u in old(state).users && u.id == id :: UpdateAnswer(u, update, organizations.byId.Keys, saves(old(writes)), r)
      ensures r.Ok? ==> exists i | 0 <= i < |old(state).users| && old(state).users[i].id == id ::
        && state == old(state).(users := old(state).users[i := r.value])
        && sessions == if r.value == old(state).users[i] then old(sessions) else Revoked(old(sessions), id)
      ensures r.Err? ==> state == old(state) && sessions == old(sessions)
    {
      hide StateValid, AccountsSound, OrderlyState, Replayed, SessionsOk, GuestTokens, PendingOk, LogOk, Trim,
           UserValid, NormalAccess, AccessValid, StaysEmpty, Inverse, AccountsDiffer, Replaces;
      var i := UserIndex(state.users, id);
      if i == |state.users| { return Err(UnknownUser); }
      var current := state.users[i];
      OneUser(state.users, i, organizations.byId.Keys, formats);
      if current.bootstrap { return Err(Forbidden); }
      if update.resetExternalIdentity && current.authSource.Local? { return Err(Forbidden); }
      var allowEmpty := StaysEmpty(current, update);
      var granted := NormalizeAccess(update.access, allowEmpty, organizations.byId.Keys);
      if granted.Err? { return Err(InvalidAccess(granted.error)); }
      var user := WithAccess(current, granted.value, update.disabled);
      var resets := update.resetExternalIdentity && current.externalObjectId != "";
      UserIs(state.users, i, organizations.byId.Keys, formats);
      UnboundAlready(current, organizations.byId.Keys, formats);
      if user == current && !resets {
        assert state.users[i := current] == state.users;
        return Ok(current);
      }
      NormalAccessValid(update.access, allowEmpty, organizations.byId.Keys);
      AccessUpdated(current, granted.value, update.disabled, update.resetExternalIdentity, organizations.byId.Keys, formats);
      if update.resetExternalIdentity { user := Unbound(user); }
      var ok := ReplaceUser(i, user);
      if !ok { return Err(SaveFailed); }
      assert state.users[i] == user;
      return Ok(user);
    }

    /** The account is bound to the identity, which no account is bound to. */
    method BindIdentity(i: nat, tenant: string, object': string, now: int) returns (ok: bool)
      requires Sound() && i < |state.users| && state.users[i].authSource.Entra? && tenant != "" && object' != "" && now != 0
      requires forall u | u in state.users :: !BoundAs(u, tenant, object')
      modifies this`state, this`saved, this`writes
      ensures Sound()
      ensures ok == saves(old(writes))
      ensures ok ==> state == old(state).(users := old(state).users[i := BoundTo(old(state).users[i], tenant, object', now)])
      ensures ok ==> BoundAs(state.users[i], tenant, object')
      ensures ok && old(Valid()) ==> (Valid() <==> KeyFree(old(state).users, i, ObjectKeyOf(tenant, object')))
      ensures !ok ==> state == old(state)
      ensures old(Orderly()) && NoBar(tenant) ==> Orderly()
    {
      hide StateValid, AccountsSound, OrderlyState, Replayed, SessionsOk, GuestTokens, PendingOk, LogOk, Trim, Lower,
           KeyFree, UserValid, SameNames, Inverse, BoundAs, NoBar;
      var user := BoundTo(state.users[i], tenant, object', now);
      var next := state.(users := state.users[i := user]);
      ghost var known := organizations.byId.Keys;
      BoundSound(state.users, i, tenant, object', now, known, formats);
      if Valid() { BindValidIff(state, i, tenant, object', now, known, formats); }
      if Orderly() && NoBar(tenant) { BoundOrderly(state, i, tenant, object', now, known, formats); }
      SameBinding(state.users[i], tenant, object', now);
      SessionsSameAccess(sessions, state.users, i, user);
      PendingAfterUpdate(challenges, state.users, i, user, formats);
      LogSameFactors(log, challenges, state.users, next.users);
      ok := Commit(next);
    }

    /** The enabled account an identity is bound to, or the pre-approved one, which
        is bound to it now. */
    method AccountOf(identity: ExternalIdentity, now: int) returns (r: Result<nat, AuthError>)
      requires Sound() && now != 0
      modifies this`state, this`saved, this`writes
      ensures Sound()
      ensures state != old(state) ==> exists i | 0 <= i < |old(state).users| && BindsAt(old(state), state, identity, now, i) ::
        old(Valid()) ==> (Valid() <==> KeyFree(old(state).users, i, ObjectKeyOf(Trim(identity.tenantId), Trim(identity.objectId))))
      ensures old(Orderly()) && NoBar(Trim(identity.tenantId)) ==> Orderly()
      ensures r.Ok? ==>
        && r.value < |state.users| && !state.users[r.value].disabled
        && BoundAs(state.users[r.value], Trim(identity.tenantId), Trim(identity.objectId))
      ensures r.Err? ==> state == old(state)
      ensures r == Err(InvalidIdentity) <==> !ProperIdentity(identity, formats)
      ensures r == Err(InvalidCredentials) <==> ProperIdentity(identity, formats) && !Welcome(old(state).users, identity)
      ensures r == Err(SaveFailed) <==>
        && ProperIdentity(identity, formats) && Welcome(old(state).users, identity) && !Known(old(state).users, identity)
        && !saves(old(writes))
      ensures r.Err? ==> r.error in {InvalidIdentity, InvalidCredentials, SaveFailed}
      ensures Known(old(state).users, identity) ==> state == old(state)
    {
      hide StateValid, AccountsSound, OrderlyState, Replayed, SessionsOk, GuestTokens, PendingOk, LogOk, Trim, Lower,
           PrincipalOf, KeyFree, UserValid, SameNames, SameIdentity, Inverse, NoBar, BoundAs, Known, Welcome,
           NormalizeUsername;
      var tenant, object', login := Trim(identity.tenantId), Trim(identity.objectId), Trim(identity.preferredUsername);
      if tenant == "" || object' == "" || !formats.validLogin(login) { return Err(InvalidIdentity); }
      var i := FindIndex(state.users, (u: User) => BoundAs(u, tenant, object'));
      if i < |state.users| {
        WelcomeBound(state.users, i, identity, organizations.byId.Keys, formats);
        if state.users[i].disabled { return Err(InvalidCredentials); }
        return Ok(i);
      }
      assert forall u | u in state.users :: !BoundAs(u, tenant, object');
      i := FindIndex(state.users, (u: User) => u.authSource.Entra? && u.externalObjectId == "" && LoginKey(u) == NormalizeUsername(login));
      SameLogin(identity.preferredUsername);
      WelcomeApproved(state.users, i, identity, organizations.byId.Keys, formats);
      if i == |state.users| || state.users[i].disabled { return Err(InvalidCredentials); }
      var ok := BindIdentity(i, tenant, object', now);
      if !ok { return Err(SaveFailed); }
      assert BindsAt(old(state), state, identity, now, i);
      return Ok(i);
    }

    /** CompleteEntraLogin: a new binding leaves valid accounts valid exactly when its
        key is free, and in any case when no tenant has a bar in it, as where one
        tenant is configured (entra.go:195). */
    method CompleteEntraLogin(identity: ExternalIdentity, now: int, sessionToken: string) returns (r: Result<Session,
                              AuthError>)
      requires Sound() && now != 0
      modifies this
      ensures Sound() && organizations == old(organizations)
      ensures state != old(state) ==> exists i | 0 <= i < |old(state).users| && BindsAt(old(state), state, identity, now, i) ::
        old(Valid()) ==> (Valid() <==> KeyFree(old(state).users, i, ObjectKeyOf(Trim(identity.tenantId), Trim(identity.objectId))))
      ensures old(Orderly()) && NoBar(Trim(identity.tenantId)) ==> Orderly()
      ensures r.Ok? ==>
        && sessions == old(sessions)[sessionToken := r.value]
        && exists u :: u in state.users && !u.disabled && BoundAs(u, Trim(identity.tenantId), Trim(identity.objectId))
             && r.value == Session(PrincipalOf(u), now + SESSION_LIFETIME)
      ensures r.Err? ==> state == old(state) && sessions == old(sessions)
      ensures r == Err(InvalidIdentity) <==> !ProperIdentity(identity, formats)
      ensures r == Err(InvalidCredentials) <==> ProperIdentity(identity, formats) && !Welcome(old(state).users, identity)
      ensures r == Err(SaveFailed) <==>
        && ProperIdentity(identity, formats) && Welcome(old(state).users, identity) && !Known(old(state).users, identity)
        && !saves(old(writes))
      ensures r.Err? ==> r.error in {InvalidIdentity, InvalidCredentials, SaveFailed}
      ensures Known(old(state).users, identity) ==> state == old(state)
    {
      hide StateValid, AccountsSound, OrderlyState, Replayed, SessionsOk, GuestTokens, PendingOk, LogOk, Trim,
           PrincipalOf, KeyFree, ObjectKeyOf, BoundAs, BindsAt, Inverse, NoBar, ProperIdentity, Welcome, Known;
      var found := AccountOf(identity, now);
      if found.Err? { return Err(found.error); }
      var s := OpenSession(found.value, now, sessionToken);
      assert state.users[found.value] in state.users;
      return Ok(s);
    }

    // ----- organizations

    /** RegisterOrganization: the catalog is changed on a copy. */
    method RegisterOrganization(ref: OrganizationRef) returns (failure: Option<AuthError>)
      requires Sound()
      modifies this`organizations
      ensures Sound()
      ensures (old(Valid()) ==> Valid()) && (old(Orderly()) ==> Orderly())
      ensures failure.None? <==> RefFits(ref) && forall id | id in old(organizations.byId)
        && NameKey(old(organizations.byId)[id].name) == NameKey(ref.name) :: id == Trim(ref.id)
      ensures failure.None? ==> fresh(organizations) && organizations.byId == old(organizations.byId)[Trim(ref.id) := Trimmed(ref)]
      ensures failure.Some? ==> organizations == old(organizations)
    {
      hide StateValid, AccountsSound, OrderlyState, Replayed, SessionsOk, GuestTokens, PendingOk, LogOk, Trim,
           Inverse, NameKey;
      var next := new OrganizationCatalog.Clone(organizations);
      var refused := next.Register(ref);
      if refused.Some? { return Some(RefusedOrganization(refused.value)); }
      KnownGrows(state, organizations.byId.Keys, next.byId.Keys, formats);
      organizations := next;
      return None;
    }

    /** RemoveOrganizationAssignments: the grants go, then the organization, then
        the sessions of those who had one. */
    method RemoveOrganizationAssignments(organization: Id) returns (failure: Option<AuthError>)
      requires Sound()
      modifies this, organizations
      ensures Sound() && organizations == old(organizations)
      ensures old(Valid()) ==> (Valid() <==> failure.Some? || !BlankGuest(old(state), Trim(organization)))
      ensures old(Orderly()) ==> Orderly()
      ensures failure == Some(InvalidIdentity) <==> Trim(organization) == ""
      ensures failure == Some(SaveFailed) <==>
        && Trim(organization) != "" && WithoutOrganization(old(state), Trim(organization)) != old(state) && !saves(old(writes))
      ensures failure.Some? ==> failure.value in {InvalidIdentity, SaveFailed}
      ensures failure.None? ==> state == WithoutOrganization(old(state), Trim(organization))
      ensures failure.None? ==> organizations.byId == old(organizations.byId) - {Trim(organization)}
      ensures failure.None? ==> sessions == RevokedAll(old(sessions), GrantedIds(old(state).users, Trim(organization)))
      ensures failure.Some? ==> state == old(state) && sessions == old(sessions) && organizations.byId == old(organizations.byId)
    {
      hide StateValid, AccountsSound, OrderlyState, Replayed, SessionsOk, GuestTokens, PendingOk, LogOk, Trim,
           Inverse, NameKey, GrantedIds, RevokedAll, WithoutGrant, SameFactors, BlankGuest;
      var key := Trim(organization);
      if key == "" { return Some(InvalidIdentity); }
      TrimTwice(organization);
      ghost var known := organizations.byId.Keys;
      var users, affected := DropGrants(state.users, key);
      var next := AuthState(if state.guestOrganizationId == key then "" else state.guestOrganizationId, users);
      WithoutOrganizationSound(state.users, key, known, formats);
      if Valid() { RemovalValidIff(state, key, known, formats); }
      if Orderly() { RemovalOrderly(state, key, known, formats); }
      GrantsDropped(sessions, challenges, log, state.users, key, affected, formats);
      if next != state {
        var ok := Commit(next);
        if !ok { return Some(SaveFailed); }
      }
      ForgetOrganization(key, affected);
      return None;
    }

    /** The organization leaves the catalog, and the sessions of the accounts go. */
    method ForgetOrganization(key: Id, affected: set<Id>)
      requires organizations.Valid() && Trim(key) == key && guestSessions == |GuestTokens(sessions)| <= maxGuestSessions
      modifies this`guestOrganization, this`sessions, this`guestSessions, organizations
      ensures organizations.Valid() && organizations.byId == old(organizations.byId) - {key}
      ensures guestOrganization == if old(guestOrganization) == key then "" else old(guestOrganization)
      ensures sessions == RevokedAll(old(sessions), affected) && guestSessions == |GuestTokens(sessions)| <= maxGuestSessions
    {
      hide GuestTokens, RevokedAll, Trim, Inverse, NameKey;
      organizations.Remove(key);
      if guestOrganization == key { guestOrganization := ""; }
      RevokeAll(affected);
      RevokedKept(old(sessions), affected);
      FewerGuests(old(sessions), sessions);
    }

    /** The sessions of all these accounts go. */
    method RevokeAll(affected: set<Id>)
      modifies this`sessions, this`guestSessions
      ensures sessions == RevokedAll(old(sessions), affected)
      ensures guestSessions - |GuestTokens(sessions)| == old(guestSessions - |GuestTokens(sessions)|)
    {
      hide GuestTokens, RevokedAll, Revoked;
      ghost var held := sessions;
      var ids := Listing(affected);
      NothingRevoked(held);
      assert Elements(ids[..0]) == {};
      for k := 0 to |ids|
        invariant sessions == RevokedAll(held, Elements(ids[..k]))
        invariant guestSessions - |GuestTokens(sessions)| == old(guestSessions - |GuestTokens(sessions)|)
      {
        OneMoreRevoked(held, ids, k);
        RevokeUserSessions(ids[k]);
      }
      assert ids[..|ids|] == ids;
    }

    /** CanAccessTopology. */
    predicate CanAccessTopology(principal: Principal, organization: Id)
      reads this, organizations
    {
      var key := Trim(organization);
      if principal.IsGuest() then
        guestEnabled && key != "" && key == guestOrganization
      else
        key != "" && organizations.Contains(key)
        && (principal.role == ROLE_ADMIN || principal.allOrganizations || key in principal.organizationIds)
    }

    /** Every stored session that is not a guest's belongs to an enabled account
        and carries the access of its persisted record. */
    lemma SessionMatchesAccount(token: string)
      requires Sound() && token in sessions && !sessions[token].principal.IsGuest()
      ensures exists u :: u in saved.users && !u.disabled && SameAccessAs(u, sessions[token].principal)
    {
      hide AccountsDiffer, GuestTokens, PendingOk, LogOk, Replayed, Trim, UserValid;
      assert SessionOk(sessions[token], state.users);
      var u :| u in state.users && !u.disabled && sessions[token].principal == PrincipalOf(u);
      assert UserValid(u, organizations.byId.Keys, formats);
      AccessIs(u, organizations.byId.Keys, formats);
    }

    /** A stored session sees an organization's topologies exactly when it is a
        guest's and that is the guest organization, or when the organization exists
        and the enabled account with the session's name is an administrator, has
        global access, or was granted it. */
    lemma SessionSees(token: string, organization: Id)
      requires Sound() && token in sessions
      ensures var key := Trim(organization);
              CanAccessTopology(sessions[token].principal, organization) <==>
                if sessions[token].principal.IsGuest() then guestEnabled && key == guestOrganization != ""
                else key in organizations.byId && exists u :: u in saved.users && Grants(u, sessions[token].principal.userId, key)
    {
      hide StateValid, AccountsSound, OrderlyState, Replayed, GuestTokens, PendingOk, LogOk, Trim, PrincipalOf, Grants;
      TrimTwice(organization);
      assert SessionOk(sessions[token], state.users);
      var p := sessions[token].principal;
      if !p.IsGuest() {
        var i :| 0 <= i < |state.users| && !state.users[i].disabled && p == PrincipalOf(state.users[i]);
        PrincipalNamed(state.users[i]);
        OneUser(state.users, i, organizations.byId.Keys, formats);
        GrantsIff(state.users, i, Trim(organization), organizations.byId.Keys, formats);
        assert state.users[i] in state.users;
        GrantsOwn(state.users, p.userId, Trim(organization));
      }
    }
  }

  predicate SameAccessAs(u: User, p: Principal) {
    p.userId == u.id && p.username == u.username && p.role == u.role && p.allOrganizations == u.allOrganizations
    && p.organizationIds == u.organizationIds
  }

  lemma AccessIs(u: User, known: set<Id>, formats: Formats)
    requires UserValid(u, known, formats)
    ensures SameAccessAs(u, PrincipalOf(u))
  {
    hide NormalIds, Trim, NormalizeUsername, LocalValid, EntraValid;
  }

  lemma GrantsIff(users: seq<User>, i: nat, organization: Id, known: set<Id>, formats: Formats)
    requires AccountsSound(users, known, formats) && i < |users| && !users[i].disabled
    ensures var p := PrincipalOf(users[i]);
            Grants(users[i], p.userId, organization) <==> p.role == ROLE_ADMIN || p.allOrganizations || organization in p.organizationIds
  {
    hide AccountsDiffer, UserValid;
    assert UserValid(users[i], known, formats);
    AccessIs(users[i], known, formats);
  }

  lemma GrantsOwn(users: seq<User>, id: Id, organization: Id)
    ensures forall u | u in users && Grants(u, id, organization) :: u.id == id
  {
  }

  predicate ProperIdentity(identity: ExternalIdentity, formats: Formats) {
    Trim(identity.tenantId) != "" && Trim(identity.objectId) != "" && formats.validLogin(Trim(identity.preferredUsername))
  }

  /** An account is bound to the identity. */
  ghost predicate Known(users: seq<User>, identity: ExternalIdentity) {
    exists u :: u in users && BoundAs(u, Trim(identity.tenantId), Trim(identity.objectId))
  }

  /** An account that is bound to no object was created for the login. */
  predicate Approved(u: User, login: string) {
    u.authSource.Entra? && u.externalObjectId == "" && LoginKey(u) == NormalizeUsername(login)
  }

  /** The account bound to the identity is enabled; or there is none, and the one
      created for its login is. */
  ghost predicate Welcome(users: seq<User>, identity: ExternalIdentity) {
    if Known(users, identity) then exists u :: u in users && !u.disabled && BoundAs(u, Trim(identity.tenantId), Trim(identity.objectId))
    else exists u :: u in users && !u.disabled && Approved(u, identity.preferredUsername)
  }

  /** The first account that was created for a login is the only one. */
  lemma OnlyApproved(users: seq<User>, i: nat, login: string, known: set<Id>, formats: Formats)
    requires AccountsSound(users, known, formats) && i <= |users| && (i < |users| ==> Approved(users[i], login))
    requires i == |users| ==> forall u | u in users :: !Approved(u, login)
    ensures forall u | u in users && Approved(u, login) :: i < |users| && u == users[i]
  {
    hide AccountsSound, UserValid, NormalizeUsername, SameIdentity;
    UsersOf(users, known, formats);
    forall u | u in users && Approved(u, login) ensures i < |users| && u == users[i] {
      var k :| 0 <= k < |users| && users[k] == u;
      if k != i { LoginsDiffer(users, k, i); }
    }
  }

  lemma SameLogin(login: string)
    ensures NormalizeUsername(Trim(login)) == NormalizeUsername(login)
  {
    TrimTwice(login);
  }

  lemma LoginsDiffer(users: seq<User>, k: nat, i: nat)
    requires Pairwise(users, AccountsDiffer) && k < |users| && i < |users| && k != i
    requires users[k].authSource.Entra? && users[i].authSource.Entra?
    ensures LoginKey(users[k]) != LoginKey(users[i])
  {
    hide NormalizeUsername, SameIdentity;
    if k < i { assert AccountsDiffer(users[k], users[i]); } else { assert AccountsDiffer(users[i], users[k]); }
  }

  lemma WelcomeBound(users: seq<User>, i: nat, identity: ExternalIdentity, known: set<Id>, formats: Formats)
    requires AccountsSound(users, known, formats) && i < |users| && Trim(identity.objectId) != ""
    requires BoundAs(users[i], Trim(identity.tenantId), Trim(identity.objectId))
    ensures Known(users, identity) && (Welcome(users, identity) <==> !users[i].disabled)
  {
    hide AccountsSound, BoundAs, Trim, Approved;
    OnlyBound(users, i, Trim(identity.tenantId), Trim(identity.objectId), known, formats);
    assert users[i] in users;
  }

  lemma WelcomeApproved(users: seq<User>, i: nat, identity: ExternalIdentity, known: set<Id>, formats: Formats)
    requires AccountsSound(users, known, formats) && i <= |users|
    requires forall u | u in users :: !BoundAs(u, Trim(identity.tenantId), Trim(identity.objectId))
    requires i < |users| ==> Approved(users[i], identity.preferredUsername)
    requires i == |users| ==> forall u | u in users :: !Approved(u, identity.preferredUsername)
    ensures !Known(users, identity) && (Welcome(users, identity) <==> i < |users| && !users[i].disabled)
  {
    hide AccountsSound, BoundAs, Trim, Approved;
    OnlyApproved(users, i, identity.preferredUsername, known, formats);
    if i < |users| { assert users[i] in users; }
  }

  /** The enabled account may see the organization. */
  predicate Grants(u: User, id: Id, organization: Id) {
    u.id == id && !u.disabled && (u.role == ROLE_ADMIN || u.allOrganizations || organization in u.organizationIds)
  }

  predicate BindsAt(before: AuthState, after: AuthState, identity: ExternalIdentity, now: int, i: int) {
    && 0 <= i < |before.users| && before.users[i].authSource.Entra? && before.users[i].externalObjectId == ""
    && LoginKey(before.users[i]) == NormalizeUsername(identity.preferredUsername)
    && after == before.(users := before.users[i := BoundTo(before.users[i], Trim(identity.tenantId), Trim(identity.objectId), now)])
  }

  // ----- facts the steps use

  ghost function GrantAll(users: seq<User>): seq<AuthEvents.Event> {
    if users == [] then [] else
      var u := users[|users| - 1];
      GrantAll(users[..|users| - 1]) + [AuthEvents.CodesGranted(u.id, u.recoveryHashes)]
  }

  ghost function Revoked(sessions: map<string, Session>, id: Id): map<string, Session> {
    map t | t in sessions && sessions[t].principal.userId != id :: sessions[t]
  }

  ghost function RevokedAmong(sessions: map<string, Session>, id: Id, tokens: set<string>): map<string, Session> {
    map t | t in sessions && (t in tokens ==> sessions[t].principal.userId != id) :: sessions[t]
  }

  lemma NoneRevoked(sessions: map<string, Session>, id: Id, tokens: seq<string>)
    ensures RevokedAmong(sessions, id, Elements(tokens[..0])) == sessions
  {
  }

  lemma OneTokenRevoked(sessions: map<string, Session>, id: Id, tokens: seq<string>, k: nat)
    requires k < |tokens|
    ensures var now := RevokedAmong(sessions, id, Elements(tokens[..k]));
            RevokedAmong(sessions, id, Elements(tokens[..k + 1])) ==
              if tokens[k] in now && now[tokens[k]].principal.userId == id then now - {tokens[k]} else now
  {
    assert tokens[..k + 1] == tokens[..k] + [tokens[k]];
    assert Elements(tokens[..k + 1]) == Elements(tokens[..k]) + {tokens[k]};
  }

  lemma AllTokensRevoked(sessions: map<string, Session>, id: Id, tokens: seq<string>)
    requires Elements(tokens) == sessions.Keys
    ensures RevokedAmong(sessions, id, Elements(tokens[..|tokens|])) == Revoked(sessions, id)
  {
    assert tokens[..|tokens|] == tokens;
  }

  lemma FewerGuests(sessions: map<string, Session>, fewer: map<string, Session>)
    requires forall t | t in fewer :: t in sessions && fewer[t] == sessions[t]
    ensures |GuestTokens(fewer)| <= |GuestTokens(sessions)|
  {
    assert GuestTokens(sessions) == GuestTokens(fewer) + (GuestTokens(sessions) - GuestTokens(fewer));
  }

  lemma GuestSessionOk(s: Session, users: seq<User>)
    requires s.principal.IsGuest()
    ensures SessionOk(s, users)
  {
  }

  /** No account is a guest. */
  lemma NotGuest(users: seq<User>, i: nat, known: set<Id>, formats: Formats, expiresAt: int)
    requires AccountsSound(users, known, formats) && i < |users|
    ensures !Session(PrincipalOf(users[i]), expiresAt).principal.IsGuest()
  {
    hide NormalIds, Trim, NormalizeUsername;
    assert UserValid(users[i], known, formats);
    assert ROLE_GUEST[0] != ROLE_ADMIN[0] && ROLE_GUEST[0] != ROLE_USER[0];
  }

  lemma StoresAccount(sessions: map<string, Session>, token: string, s: Session)
    requires !s.principal.IsGuest()
    ensures |GuestTokens(sessions[token := s])| <= |GuestTokens(sessions)|
  {
    GuestStored(sessions, token, s);
  }

  lemma NothingHeld(users: seq<User>, known: set<Id>, formats: Formats)
    requires AccountsSound(users, known, formats)
    ensures SessionsOk(map[], users) && GuestTokens(map[]) == {} && PendingOk(map[], users, formats)
    ensures LogOk(GrantAll(users), map[], users)
  {
    hide AccountsDiffer, UserValid, LogOk;
    AllGranted(users);
  }

  lemma NothingReplayed()
    ensures Replayed(map[], map[])
  {
  }

  lemma {:induction false} AllGranted(users: seq<User>)
    requires Pairwise(users, AccountsDiffer)
    ensures LogOk(GrantAll(users), map[], users)
  {
    hide NormalizeUsername, SameIdentity, AuthEvents.Consistent, AuthEvents.CodesLeft, AuthEvents.LastStep, NoUser;
    if users == [] {
      NothingGranted();
    } else {
      var front, u := users[..|users| - 1], users[|users| - 1];
      AllGranted(front);
      var e := AuthEvents.CodesGranted(u.id, u.recoveryHashes);
      AuthEvents.ConsistentStep(GrantAll(front), e);
      forall v | v in front ensures v.id != u.id {
        var k :| 0 <= k < |front| && front[k] == v;
        assert AccountsDiffer(users[k], users[|users| - 1]);
      }
      FirstGrant(front, u);
      assert users == front + [u];
    }
  }

  lemma NothingGranted()
    ensures LogOk([], map[], [])
  {
  }

  lemma FirstGrant(front: seq<User>, u: User)
    requires LogOk(GrantAll(front), map[], front) && (forall v | v in front :: v.id != u.id)
    ensures LogOk(GrantAll(front) + [AuthEvents.CodesGranted(u.id, u.recoveryHashes)], map[], front + [u])
  {
    hide AuthEvents.Consistent, AuthEvents.CodesLeft, AuthEvents.LastStep, Tells;
    var log, e := GrantAll(front), AuthEvents.CodesGranted(u.id, u.recoveryHashes);
    AuthEvents.ConsistentStep(log, e);
    AuthEvents.After(log, e);
    assert Unknown(log, u.id);
    forall v | v in front + [u] ensures Accounted(log + [e], v) {
      if v in front { assert Accounted(log, v); }
    }
    forall id | NoUser(front + [u], id) ensures Unknown(log + [e], id) {
      assert forall v | v in front :: v in front + [u];
      assert u in front + [u];
      assert NoUser(front, id) && id != u.id;
    }
  }

  /** An account with a proper password hash is a local one. */
  lemma LocalByHash(users: seq<User>, i: nat, known: set<Id>, formats: Formats)
    requires AccountsSound(users, known, formats) && i < |users| && !formats.validHash("") && formats.validHash(users[i].passwordHash)
    ensures users[i].authSource.Local?
  {
    hide AccountsDiffer, NormalIds, Trim, NormalizeUsername;
    assert UserValid(users[i], known, formats);
  }

  lemma UsersOf(users: seq<User>, known: set<Id>, formats: Formats)
    requires AccountsSound(users, known, formats)
    ensures Pairwise(users, AccountsDiffer)
  {
    hide AccountsDiffer, UserValid;
  }

  lemma OneUser(users: seq<User>, i: nat, known: set<Id>, formats: Formats)
    requires AccountsSound(users, known, formats) && i < |users|
    ensures !NoUser(users, users[i].id)
    ensures forall u | u in users && u.id == users[i].id :: u == users[i]
  {
    hide AccountsDiffer, UserValid;
    OthersDiffer(users, i);
    assert users[i] in users;
  }

  lemma OnlyUser(users: seq<User>, i: nat, id: Id, known: set<Id>, formats: Formats)
    requires AccountsSound(users, known, formats)
    requires i <= |users| && (i < |users| ==> users[i].id == id) && (i == |users| ==> NoUser(users, id))
    ensures forall k | 0 <= k < |users| && users[k].id == id :: k == i
  {
    hide AccountsDiffer, UserValid;
    if i < |users| { OthersDiffer(users, i); } else { assert forall k | 0 <= k < |users| :: users[k] in users; }
  }

  lemma OpensOwn(users: seq<User>, i: nat, known: set<Id>, formats: Formats)
    requires AccountsSound(users, known, formats) && i < |users| && users[i].secret.Sealed?
    ensures users[i].secret.owner == users[i].id
  {
    hide AccountsDiffer, NormalIds, Trim, NormalizeUsername, LocalValid, EntraValid;
    assert UserValid(users[i], known, formats);
  }

  lemma PendingIs(challenges: map<string, Pending>, users: seq<User>, formats: Formats, t: string, i: nat)
    requires PendingOk(challenges, users, formats) && t in challenges && i < |users| && users[i].id == challenges[t].userId
    ensures users[i].authSource.Local? && (challenges[t].setupSecret == "" ==> users[i].secret.Sealed?)
    ensures challenges[t].setupSecret != "" ==> formats.validSecret(challenges[t].setupSecret)
  {
    assert users[i] in users;
  }

  /** A local account's second factor may be set to anything proper. */
  lemma FactorsValid(users: seq<User>, i: nat, v: User, known: set<Id>, formats: Formats)
    requires AccountsSound(users, known, formats) && i < |users| && users[i].authSource.Local?
    requires v == users[i].(secret := v.secret, recoveryHashes := v.recoveryHashes, lastTotpStep := v.lastTotpStep)
    requires v.secret == users[i].secret || (v.secret.Sealed? && v.secret.owner == v.id && formats.validSecret(v.secret.secret))
    ensures UserValid(v, known, formats)
  {
    hide AccountsDiffer, NormalIds, Trim, NormalizeUsername;
    assert UserValid(users[i], known, formats);
  }

  lemma SetupLogged(log: seq<AuthEvents.Event>, challenges: map<string, Pending>, users: seq<User>, token: string, i: nat,
                    user: User)
    requires LogOk(log, challenges, users) && Pairwise(users, AccountsDiffer) && i < |users|
    requires users[i].authSource.Local? && users[i].secret.NoSecret?
    requires token in challenges && challenges[token].userId == users[i].id
    requires user == users[i].(secret := user.secret, recoveryHashes := user.recoveryHashes, lastTotpStep := user.lastTotpStep)
    requires user.secret.Sealed? && user.lastTotpStep > 0
    ensures LogOk(log + ([AuthEvents.StepUsed(token, user.id, user.lastTotpStep)] + [AuthEvents.CodesGranted(user.id, user.recoveryHashes)]),
                  challenges - {token}, users[i := user])
  {
    hide LogOk, AccountsDiffer;
    var stepped := user.(recoveryHashes := users[i].recoveryHashes);
    LogStep(log, challenges, users, token, i, stepped);
    KeptSound(users, i, stepped);
    LogGrants(log + [AuthEvents.StepUsed(token, user.id, user.lastTotpStep)], challenges - {token}, users[i := stepped], i, user);
    assert users[i := stepped][i := user] == users[i := user];
    assert log + [AuthEvents.StepUsed(token, user.id, user.lastTotpStep)] + [AuthEvents.CodesGranted(user.id, user.recoveryHashes)] ==
      log + ([AuthEvents.StepUsed(token, user.id, user.lastTotpStep)] + [AuthEvents.CodesGranted(user.id, user.recoveryHashes)]);
  }

  lemma UserIs(users: seq<User>, i: nat, known: set<Id>, formats: Formats)
    requires AccountsSound(users, known, formats) && i < |users|
    ensures UserValid(users[i], known, formats)
  {
    hide AccountsDiffer, UserValid;
  }

  lemma SameAccess(u: User, v: User)
    requires v == u.(secret := v.secret, recoveryHashes := v.recoveryHashes, lastTotpStep := v.lastTotpStep)
    ensures PrincipalOf(u) == PrincipalOf(v) && u.disabled == v.disabled && Replaces(u, v)
  {
  }

  /** Sessions and challenges fit the account whose second factor changed. */
  lemma FactorsChanged(sessions: map<string, Session>, challenges: map<string, Pending>, users: seq<User>, i: nat, u: User,
                       token: string, formats: Formats)
    requires SessionsOk(sessions, users) && PendingOk(challenges, users, formats) && i < |users|
    requires PrincipalOf(u) == PrincipalOf(users[i]) && u.disabled == users[i].disabled && u.id == users[i].id
    requires u.authSource == users[i].authSource && (users[i].secret.Sealed? ==> u.secret.Sealed?)
    ensures SessionsOk(sessions, users[i := u]) && PendingOk(challenges - {token}, users[i := u], formats)
  {
    hide SessionsOk, PendingOk, PrincipalOf;
    SessionsSameAccess(sessions, users, i, u);
    PendingAfterUpdate(challenges, users, i, u, formats);
    FewerPending(challenges, challenges - {token}, users[i := u], formats);
  }

  lemma SameSource(u: User, v: User)
    requires SameFactors(u, v) && Replaces(u, v)
    ensures v.id == u.id && v.authSource == u.authSource && v.secret == u.secret
  {
  }

  lemma LogReplaced(log: seq<AuthEvents.Event>, challenges: map<string, Pending>, users: seq<User>, i: nat, u: User)
    requires LogOk(log, challenges, users) && i < |users| && SameFactors(users[i], u)
    ensures LogOk(log, challenges, users[i := u])
  {
    hide LogOk;
    LogSameFactors(log, challenges, users, users[i := u]);
  }

  lemma PrincipalNamed(u: User)
    ensures PrincipalOf(u).userId == u.id
  {
  }

  // ----- accounts that are added or changed

  /** An account without any grant may stay so when it is only enabled, disabled or
      unbound. */
  predicate StaysEmpty(current: User, update: UserUpdate) {
    && current.role == ROLE_USER && !current.allOrganizations && current.organizationIds == []
    && (Trim(update.access.role) == "" || Trim(update.access.role) == ROLE_USER)
    && !update.access.allOrganizations && update.access.organizationIds == []
    && (current.disabled != update.disabled || update.resetExternalIdentity)
  }

  lemma AccessUpdated(u: User, a: Access, disabled: bool, resets: bool, known: set<Id>, formats: Formats)
    requires UserValid(u, known, formats) && AccessValid(a, known) && !u.bootstrap && (resets ==> u.authSource.Entra?)
    ensures var user := if resets then Unbound(WithAccess(u, a, disabled)) else WithAccess(u, a, disabled);
            UserValid(user, known, formats) && Replaces(u, user) && SameFactors(u, user)
  {
    hide AccessValid, UserValid, NormalizeUsername;
    AccessChanged(u, a, disabled, known, formats);
    if resets { BindingReset(WithAccess(u, a, disabled), known, formats); }
  }

  /** Only an account with an external object has anything to unbind. */
  lemma UnboundAlready(u: User, known: set<Id>, formats: Formats)
    requires UserValid(u, known, formats)
    ensures Unbound(u) == u <==> u.externalObjectId == ""
  {
    hide AccessValid, NormalizeUsername;
  }

  lemma NewLocalUser(users: seq<User>, user: User, a: Access, known: set<Id>, formats: Formats)
    requires AccessValid(a, known) && formats.validHash(user.passwordHash) && user.id != "" && NoUser(users, user.id)
    requires user.usernameKey == NormalizeUsername(user.username) != "" && forall u | u in users :: u.usernameKey != user.usernameKey
    requires user == User(user.id, user.username, user.usernameKey, a.role, a.allOrganizations, a.organizationIds, user.passwordHash,
                          NoSecret, [], 0, Local, "", "", "", 0, false, false)
    ensures UserValid(user, known, formats) && NamesFree(users, user) && !Bound(user)
  {
    hide AccessValid, NormalizeUsername;
  }

  lemma NewEntraUser(users: seq<User>, user: User, a: Access, known: set<Id>, formats: Formats)
    requires AccessValid(a, known) && formats.validLogin(user.externalLogin) && user.id != "" && NoUser(users, user.id)
    requires user.usernameKey == NormalizeUsername(user.username) != "" && forall u | u in users :: u.usernameKey != user.usernameKey
    requires forall u | u in users && u.authSource.Entra? :: LoginKey(u) != LoginKey(user)
    requires user == User(user.id, user.username, user.usernameKey, a.role, a.allOrganizations, a.organizationIds, "",
                          NoSecret, [], 0, Entra, user.externalLogin, "", "", 0, false, false)
    ensures UserValid(user, known, formats) && NamesFree(users, user) && !Bound(user)
  {
    hide AccessValid, NormalizeUsername;
  }

  /** Only one account is bound to an identity. */
  lemma OnlyBound(users: seq<User>, i: nat, tenant: string, object': string, known: set<Id>, formats: Formats)
    requires AccountsSound(users, known, formats) && i < |users| && BoundAs(users[i], tenant, object') && object' != ""
    ensures forall u | u in users && BoundAs(u, tenant, object') :: u == users[i]
  {
    hide AccountsSound, Lower, NormalizeUsername;
    UsersOf(users, known, formats);
    forall k: nat | k < |users| && BoundAs(users[k], tenant, object') ensures k == i {
      BoundIs(users[k], tenant, object');
      BoundIs(users[i], tenant, object');
      if k != i { IdentitiesDiffer(users, k, i); }
    }
  }

  lemma IdentitiesDiffer(users: seq<User>, k: nat, i: nat)
    requires Pairwise(users, AccountsDiffer) && k < |users| && i < |users| && k != i && Bound(users[k]) && Bound(users[i])
    ensures !SameIdentity(users[k].externalTenantId, users[k].externalObjectId, users[i])
  {
    hide Lower, NormalizeUsername;
    if k < i { assert AccountsDiffer(users[k], users[i]); } else { assert AccountsDiffer(users[i], users[k]); }
  }

  lemma BoundIs(u: User, tenant: string, object': string)
    requires BoundAs(u, tenant, object') && object' != ""
    ensures Bound(u)
  {
    assert |u.externalObjectId| == |Lower(u.externalObjectId)| == |object'|;
  }

  lemma SameBinding(u: User, tenant: string, object': string, now: int)
    requires u.authSource.Entra?
    ensures PrincipalOf(BoundTo(u, tenant, object', now)) == PrincipalOf(u)
    ensures BoundAs(BoundTo(u, tenant, object', now), tenant, object')
  {
  }

  // ----- accounts that lose a grant

  /** The accounts that have the organization among their grants. */
  ghost function GrantedIds(users: seq<User>, organization: Id): set<Id> {
    set u | u in users && organization in u.organizationIds :: u.id
  }

  ghost function RevokedAll(sessions: map<string, Session>, ids: set<Id>): map<string, Session> {
    map t | t in sessions && sessions[t].principal.userId !in ids :: sessions[t]
  }

  lemma NothingRevoked(sessions: map<string, Session>)
    ensures RevokedAll(sessions, {}) == sessions
  {
  }

  lemma RevokedKept(sessions: map<string, Session>, ids: set<Id>)
    ensures forall t | t in RevokedAll(sessions, ids) :: t in sessions && RevokedAll(sessions, ids)[t] == sessions[t]
  {
  }

  lemma OneMoreRevoked(sessions: map<string, Session>, ids: seq<Id>, k: nat)
    requires k < |ids|
    ensures Revoked(RevokedAll(sessions, Elements(ids[..k])), ids[k]) == RevokedAll(sessions, Elements(ids[..k + 1]))
  {
    assert ids[..k + 1] == ids[..k] + [ids[k]];
    assert Elements(ids[..k + 1]) == Elements(ids[..k]) + {ids[k]};
  }

  /** The loop over the accounts. */
  method DropGrants(users: seq<User>, organization: Id) returns (changed: seq<User>, affected: set<Id>)
    ensures changed == Map(users, u => WithoutGrant(u, organization))
    ensures affected == GrantedIds(users, organization)
  {
    changed, affected := users, {};
    for i := 0 to |users|
      invariant |changed| == |users| && affected == GrantedIds(users[..i], organization)
      invariant forall k | 0 <= k < |users| :: changed[k] == if k < i then WithoutGrant(users[k], organization) else users[k]
    {
      assert users[..i + 1] == users[..i] + [users[i]];
      var u := changed[i];
      var k := FindIndex(u.organizationIds, (id: Id) => id == organization);
      GrantFound(u, organization);
      if k == |u.organizationIds| { continue; }
      changed := changed[i := u.(organizationIds := RemoveAt(u.organizationIds, k))];
      affected := affected + {u.id};
    }
    assert users[..|users|] == users;
  }

  lemma GrantFound(u: User, organization: Id)
    ensures GrantIndex(u, organization) < |u.organizationIds| <==> organization in u.organizationIds
  {
    var k := GrantIndex(u, organization);
    if organization in u.organizationIds {
      var j :| 0 <= j < |u.organizationIds| && u.organizationIds[j] == organization;
    }
  }

  lemma GrantKeeps(users: seq<User>, organization: Id)
    ensures var changed := Map(users, u => WithoutGrant(u, organization));
            forall k | 0 <= k < |users| :: SameFactors(users[k], changed[k]) && changed[k].authSource == users[k].authSource
              && changed[k].id == users[k].id && changed[k].secret == users[k].secret
  {
  }

  /** Those who had no such grant keep good sessions. */
  lemma SessionsWithoutGrant(sessions: map<string, Session>, users: seq<User>, organization: Id, affected: set<Id>)
    requires SessionsOk(sessions, users) && affected == GrantedIds(users, organization)
    ensures SessionsOk(RevokedAll(sessions, affected), Map(users, u => WithoutGrant(u, organization)))
  {
    hide WithoutGrant;
    var kept, changed := RevokedAll(sessions, affected), Map(users, u => WithoutGrant(u, organization));
    forall t | t in kept ensures SessionOk(kept[t], changed) {
      assert SessionOk(sessions[t], users);
      if !kept[t].principal.IsGuest() {
        var u :| u in users && !u.disabled && kept[t].principal == PrincipalOf(u);
        var k :| 0 <= k < |users| && users[k] == u;
        PrincipalNamed(u);
        NoGrant(u, organization);
        assert changed[k] in changed;
      }
    }
  }

  /** What the manager holds besides the accounts, once they have lost the grant. */
  lemma GrantsDropped(sessions: map<string, Session>, challenges: map<string, Pending>, log: seq<AuthEvents.Event>, users: seq<User>,
                      organization: Id, affected: set<Id>, formats: Formats)
    requires SessionsOk(sessions, users) && PendingOk(challenges, users, formats) && LogOk(log, challenges, users)
    requires affected == GrantedIds(users, organization)
    ensures var changed := Map(users, u => WithoutGrant(u, organization));
            && SessionsOk(RevokedAll(sessions, affected), changed) && PendingOk(challenges, changed, formats)
            && LogOk(log, challenges, changed)
  {
    hide SessionsOk, PendingOk, LogOk, GrantedIds, RevokedAll, WithoutGrant, SameFactors;
    var changed := Map(users, u => WithoutGrant(u, organization));
    SessionsWithoutGrant(sessions, users, organization, affected);
    GrantKeeps(users, organization);
    PendingMapped(challenges, users, changed, formats);
    LogSameFactors(log, challenges, users, changed);
  }

  lemma NoGrant(u: User, organization: Id)
    requires organization !in u.organizationIds
    ensures WithoutGrant(u, organization) == u
  {
    GrantFound(u, organization);
  }
}
