/** What the authentication manager keeps about sessions, challenges and
    accounts, on values: each lemma is what one kind of step does to it. */
module AuthInvariants {
  import opened Outcomes
  import opened Text
  import opened Sorting
  import opened Lists
  import opened Accounts
  import AuthEvents

  datatype Principal = Principal(
    userId: Id, username: string, role: string, allOrganizations: bool, organizationIds: seq<Id>)
  {
    predicate IsGuest() { role == ROLE_GUEST }
  }

  datatype Session = Session(principal: Principal, expiresAt: int)

  /** A login that still needs its second factor; setupSecret is empty once the
      account has an authenticator. */
  datatype Pending = Pending(userId: Id, setupSecret: string, expiresAt: int, failedChecks: nat)

  /** newSessionLocked. */
  function PrincipalOf(u: User): Principal {
    Principal(u.id, u.username, u.role, u.role == ROLE_ADMIN || u.allOrganizations, u.organizationIds)
  }

  // ----- sessions

  /** A session is a guest's, or that of an enabled account, with the access the
      account has. */
  ghost predicate SessionOk(s: Session, users: seq<User>) {
    s.principal.IsGuest() || exists u :: u in users && !u.disabled && s.principal == PrincipalOf(u)
  }

  ghost predicate SessionsOk(sessions: map<string, Session>, users: seq<User>) {
    forall t | t in sessions :: SessionOk(sessions[t], users)
  }

  function GuestTokens(sessions: map<string, Session>): set<string> {
    set t | t in sessions && sessions[t].principal.IsGuest()
  }

  lemma SessionAdded(sessions: map<string, Session>, users: seq<User>, t: string, s: Session)
    requires SessionsOk(sessions, users) && SessionOk(s, users)
    ensures SessionsOk(sessions[t := s], users)
  {
    hide SessionOk;
  }

  lemma FewerSessions(sessions: map<string, Session>, fewer: map<string, Session>, users: seq<User>)
    requires SessionsOk(sessions, users) && forall t | t in fewer :: t in sessions && fewer[t] == sessions[t]
    ensures SessionsOk(fewer, users)
  {
    hide SessionOk;
  }

  lemma AccountSession(users: seq<User>, u: User, expiresAt: int)
    requires u in users && !u.disabled
    ensures SessionOk(Session(PrincipalOf(u), expiresAt), users)
  {
  }

  /** With an account changed, the sessions of the others are as good as before. */
  lemma SessionsAfterUpdate(sessions: map<string, Session>, users: seq<User>, i: nat, u: User)
    requires SessionsOk(sessions, users) && i < |users|
    requires forall t | t in sessions :: sessions[t].principal.userId != users[i].id
    ensures SessionsOk(sessions, users[i := u])
  {
    var changed := users[i := u];
    forall t | t in sessions ensures SessionOk(sessions[t], changed) {
      var s := sessions[t];
      assert SessionOk(s, users);
      if !s.principal.IsGuest() {
        var v :| v in users && !v.disabled && s.principal == PrincipalOf(v);
        var k :| 0 <= k < |users| && users[k] == v;
        assert changed[k] == v;
      }
    }
  }

  /** A change that does not touch an account's access leaves its sessions good. */
  lemma SessionsSameAccess(sessions: map<string, Session>, users: seq<User>, i: nat, u: User)
    requires SessionsOk(sessions, users) && i < |users|
    requires PrincipalOf(u) == PrincipalOf(users[i]) && (u.disabled ==> users[i].disabled)
    ensures SessionsOk(sessions, users[i := u])
  {
    var changed := users[i := u];
    forall t | t in sessions ensures SessionOk(sessions[t], changed) {
      var s := sessions[t];
      assert SessionOk(s, users);
      if !s.principal.IsGuest() {
        var v :| v in users && !v.disabled && s.principal == PrincipalOf(v);
        var k :| 0 <= k < |users| && users[k] == v;
        assert changed[k] in changed;
      }
    }
  }

  lemma SessionsMoreUsers(sessions: map<string, Session>, users: seq<User>, u: User)
    requires SessionsOk(sessions, users)
    ensures SessionsOk(sessions, users + [u])
  {
    forall t | t in sessions ensures SessionOk(sessions[t], users + [u]) {
      assert SessionOk(sessions[t], users);
    }
  }

  lemma GuestStored(sessions: map<string, Session>, t: string, s: Session)
    ensures |GuestTokens(sessions[t := s])| ==
      |GuestTokens(sessions)| - (if t in sessions && sessions[t].principal.IsGuest() then 1 else 0)
        + if s.principal.IsGuest() then 1 else 0
  {
    var before, after := GuestTokens(sessions), GuestTokens(sessions[t := s]);
    var rest := before - {t};
    assert after == if s.principal.IsGuest() then rest + {t} else rest;
    assert before == if t in before then rest + {t} else rest;
  }

  lemma GuestDropped(sessions: map<string, Session>, t: string)
    ensures |GuestTokens(sessions - {t})| ==
      |GuestTokens(sessions)| - if t in sessions && sessions[t].principal.IsGuest() then 1 else 0
  {
    var before, after := GuestTokens(sessions), GuestTokens(sessions - {t});
    assert after == before - {t};
  }

  // ----- challenges

  /** Challenges are of local accounts, which have an authenticator unless the
      challenge sets one up; what is set up is a proper secret. */
  ghost predicate PendingOk(challenges: map<string, Pending>, users: seq<User>, formats: Formats) {
    forall t | t in challenges ::
      && !NoUser(users, challenges[t].userId)
      && (forall u | u in users && u.id == challenges[t].userId ::
            u.authSource.Local? && (challenges[t].setupSecret == "" ==> u.secret.Sealed?))
      && (challenges[t].setupSecret != "" ==> formats.validSecret(challenges[t].setupSecret))
  }

  lemma PendingAfterUpdate(challenges: map<string, Pending>, users: seq<User>, i: nat, u: User, formats: Formats)
    requires PendingOk(challenges, users, formats) && i < |users| && u.id == users[i].id && u.authSource == users[i].authSource
    requires users[i].secret.Sealed? ==> u.secret.Sealed?
    ensures PendingOk(challenges, users[i := u], formats)
  {
    var changed := users[i := u];
    assert users[i] in users;
    assert forall v | v in changed :: v in users || v == u;
    forall v | v in users ensures exists w :: w in changed && w.id == v.id {
      var k :| 0 <= k < |users| && users[k] == v;
      assert changed[k] in changed;
    }
  }

  lemma FewerPending(challenges: map<string, Pending>, fewer: map<string, Pending>, users: seq<User>, formats: Formats)
    requires PendingOk(challenges, users, formats) && forall t | t in fewer :: t in challenges && fewer[t] == challenges[t]
    ensures PendingOk(fewer, users, formats)
  {
  }

  lemma PendingAdded(challenges: map<string, Pending>, users: seq<User>, formats: Formats, t: string, p: Pending)
    requires PendingOk(challenges, users, formats) && !NoUser(users, p.userId)
    requires forall u | u in users && u.id == p.userId :: u.authSource.Local? && (p.setupSecret == "" ==> u.secret.Sealed?)
    requires p.setupSecret != "" ==> formats.validSecret(p.setupSecret)
    ensures PendingOk(challenges[t := p], users, formats)
  {
  }

  lemma PendingNewUser(challenges: map<string, Pending>, users: seq<User>, formats: Formats, u: User)
    requires PendingOk(challenges, users, formats) && NoUser(users, u.id)
    ensures PendingOk(challenges, users + [u], formats)
  {
    assert forall v | v in users :: v in users + [u];
  }

  lemma PendingMapped(challenges: map<string, Pending>, users: seq<User>, changed: seq<User>, formats: Formats)
    requires PendingOk(challenges, users, formats) && |changed| == |users|
    requires forall k | 0 <= k < |users| ::
      changed[k].id == users[k].id && changed[k].authSource == users[k].authSource && changed[k].secret == users[k].secret
    ensures PendingOk(challenges, changed, formats)
  {
    hide NoUser;
    forall t | t in challenges
      ensures !NoUser(changed, challenges[t].userId)
      ensures forall v | v in changed && v.id == challenges[t].userId ::
        v.authSource.Local? && (challenges[t].setupSecret == "" ==> v.secret.Sealed?)
    {
      SomeUserMapped(users, changed, challenges[t].userId);
      forall v | v in changed && v.id == challenges[t].userId
        ensures v.authSource.Local? && (challenges[t].setupSecret == "" ==> v.secret.Sealed?)
      {
        var k :| 0 <= k < |changed| && changed[k] == v;
        assert users[k] in users;
      }
    }
  }

  lemma SomeUserMapped(users: seq<User>, changed: seq<User>, id: Id)
    requires |changed| == |users| && (forall k | 0 <= k < |users| :: changed[k].id == users[k].id) && !NoUser(users, id)
    ensures !NoUser(changed, id)
  {
    var u :| u in users && u.id == id;
    var k :| 0 <= k < |users| && users[k] == u;
    assert changed[k] in changed;
  }

  lemma PendingCounted(challenges: map<string, Pending>, users: seq<User>, formats: Formats, t: string)
    requires PendingOk(challenges, users, formats) && t in challenges
    ensures PendingOk(challenges[t := challenges[t].(failedChecks := challenges[t].failedChecks + 1)], users, formats)
  {
  }

  // ----- the log

  predicate NoUser(users: seq<User>, id: Id) { forall u | u in users :: u.id != id }

  /** The log tells how often each challenge was verified, and what is left of
      every account's steps and recovery codes. */
  ghost predicate LogOk(log: seq<AuthEvents.Event>, challenges: map<string, Pending>, users: seq<User>) {
    && AuthEvents.Consistent(log)
    && (forall t | t in challenges :: Tells(log, t, challenges[t]))
    && (forall u | u in users :: Accounted(log, u))
    && forall id | NoUser(users, id) :: Unknown(log, id)
  }

  predicate Tells(log: seq<AuthEvents.Event>, t: string, p: Pending) {
    AuthEvents.ChallengeAfter(log, t) == Some(AuthEvents.Challenge(p.userId, p.failedChecks, false))
  }

  predicate Accounted(log: seq<AuthEvents.Event>, u: User) {
    && AuthEvents.CodesLeft(log, u.id) == multiset(u.recoveryHashes)
    && AuthEvents.LastStep(log, u.id) <= u.lastTotpStep
    && (AuthEvents.LastStep(log, u.id) > 0 ==> u.secret.Sealed?)
  }

  predicate Unknown(log: seq<AuthEvents.Event>, id: Id) {
    AuthEvents.CodesLeft(log, id) == multiset{} && AuthEvents.LastStep(log, id) == 0
  }

  predicate OfToken(e: AuthEvents.Event, t: string) { !e.CodesGranted? && e.token == t }

  predicate OfUser(e: AuthEvents.Event, id: Id) { (e.StepUsed? || e.CodeUsed? || e.CodesGranted?) && e.user == id }

  /** An event leaves alone what is known of other challenges and accounts. */
  lemma Elsewhere(log: seq<AuthEvents.Event>, e: AuthEvents.Event)
    ensures forall t, p :: Tells(log, t, p) && !OfToken(e, t) ==> Tells(log + [e], t, p)
    ensures forall u :: Accounted(log, u) && !OfUser(e, u.id) ==> Accounted(log + [e], u)
    ensures forall id :: Unknown(log, id) && !OfUser(e, id) ==> Unknown(log + [e], id)
  {
    hide AuthEvents.ChallengeAfter, AuthEvents.CodesLeft, AuthEvents.LastStep;
    AuthEvents.After(log, e);
  }

  lemma LogFewer(log: seq<AuthEvents.Event>, challenges: map<string, Pending>, fewer: map<string, Pending>, users: seq<User>)
    requires LogOk(log, challenges, users) && forall t | t in fewer :: t in challenges && fewer[t] == challenges[t]
    ensures LogOk(log, fewer, users)
  {
    hide AuthEvents.Consistent, Tells, Accounted, Unknown, NoUser;
  }

  lemma LogIssues(log: seq<AuthEvents.Event>, challenges: map<string, Pending>, users: seq<User>, t: string, p: Pending)
    requires LogOk(log, challenges, users) && AuthEvents.ChallengeAfter(log, t).None? && p.failedChecks == 0
    ensures LogOk(log + [AuthEvents.Issued(t, p.userId)], challenges[t := p], users)
  {
    hide AuthEvents.Consistent, Tells, Accounted, Unknown, NoUser;
    var e := AuthEvents.Issued(t, p.userId);
    AuthEvents.ConsistentStep(log, e);
    Elsewhere(log, e);
    IssueTells(log, t, p);
  }

  lemma IssueTells(log: seq<AuthEvents.Event>, t: string, p: Pending)
    requires p.failedChecks == 0
    ensures Tells(log + [AuthEvents.Issued(t, p.userId)], t, p)
  {
    hide AuthEvents.CodesLeft, AuthEvents.LastStep;
    AuthEvents.After(log, AuthEvents.Issued(t, p.userId));
  }

  lemma LogAdmits(log: seq<AuthEvents.Event>, challenges: map<string, Pending>, users: seq<User>, t: string)
    requires LogOk(log, challenges, users) && t in challenges && challenges[t].failedChecks < 5
    ensures LogOk(log + [AuthEvents.Admitted(t)], challenges[t := challenges[t].(failedChecks := challenges[t].failedChecks + 1)], users)
  {
    hide AuthEvents.Consistent, Tells, Accounted, Unknown, NoUser;
    var e := AuthEvents.Admitted(t);
    AdmitTells(log, t, challenges[t]);
    AuthEvents.ConsistentStep(log, e);
    Elsewhere(log, e);
  }

  lemma AdmitTells(log: seq<AuthEvents.Event>, t: string, p: Pending)
    requires Tells(log, t, p) && p.failedChecks < 5
    ensures AuthEvents.Possible(log, AuthEvents.Admitted(t))
    ensures Tells(log + [AuthEvents.Admitted(t)], t, p.(failedChecks := p.failedChecks + 1))
  {
    hide AuthEvents.CodesLeft, AuthEvents.LastStep, AuthEvents.ChallengeAfter;
    AuthEvents.After(log, AuthEvents.Admitted(t));
  }

  lemma OthersDiffer(users: seq<User>, i: nat)
    requires Pairwise(users, AccountsDiffer) && i < |users|
    ensures forall k | 0 <= k < |users| && k != i :: users[k].id != users[i].id
  {
    hide NormalizeUsername, SameIdentity;
    forall k | 0 <= k < |users| && k != i ensures users[k].id != users[i].id {
      assert if k < i then AccountsDiffer(users[k], users[i]) else AccountsDiffer(users[i], users[k]);
    }
  }

  lemma UpdatedUsers(users: seq<User>, i: nat, u: User)
    requires i < |users| && u.id == users[i].id && Pairwise(users, AccountsDiffer)
    ensures forall v | v in users[i := u] :: v == u || (v in users && v.id != u.id)
    ensures forall id :: NoUser(users[i := u], id) ==> NoUser(users, id) && id != u.id
  {
    hide AccountsDiffer;
    OthersDiffer(users, i);
    var changed := users[i := u];
    forall v | v in changed ensures v == u || (v in users && v.id != u.id) {
      var k :| 0 <= k < |changed| && changed[k] == v;
    }
    assert changed[i] in changed;
    forall v | v in users ensures exists w :: w in changed && w.id == v.id {
      var k :| 0 <= k < |users| && users[k] == v;
      assert changed[k] in changed;
    }
  }

  /** One event about an account and perhaps its challenge. */
  lemma LogUpdates(log: seq<AuthEvents.Event>, challenges: map<string, Pending>, left: map<string, Pending>,
                   users: seq<User>,
                   e: AuthEvents.Event, i: nat, u: User)
    requires LogOk(log, challenges, users) && i < |users| && Pairwise(users, AccountsDiffer) && u.id == users[i].id
    requires forall t | t in left :: t in challenges && left[t] == challenges[t] && !OfToken(e, t)
    requires forall id | id != u.id :: !OfUser(e, id)
    requires AuthEvents.Possible(log, e) && Accounted(log + [e], u)
    ensures LogOk(log + [e], left, users[i := u])
  {
    hide AuthEvents.Consistent, Tells, Accounted, Unknown, NoUser, AccountsDiffer, AuthEvents.Possible, OfToken, OfUser;
    AuthEvents.ConsistentStep(log, e);
    Elsewhere(log, e);
    UpdatedUsers(users, i, u);
  }

  /** A session opened by an authenticator step spends the challenge. */
  lemma LogStep(log: seq<AuthEvents.Event>, challenges: map<string, Pending>, users: seq<User>, t: string, i: nat, u: User)
    requires LogOk(log, challenges, users) && t in challenges && i < |users| && Pairwise(users, AccountsDiffer)
    requires challenges[t].userId == users[i].id == u.id && u.secret.Sealed? && u.recoveryHashes == users[i].recoveryHashes
    requires u.lastTotpStep > 0 && (u.lastTotpStep > users[i].lastTotpStep || users[i].secret.NoSecret?)
    ensures LogOk(log + [AuthEvents.StepUsed(t, u.id, u.lastTotpStep)], challenges - {t}, users[i := u])
  {
    hide AuthEvents.Consistent, Tells, Accounted, Unknown, NoUser, AccountsDiffer, AuthEvents.Possible;
    assert users[i] in users;
    StepAccounts(log, t, challenges[t], users[i], u);
    LogUpdates(log, challenges, challenges - {t}, users, AuthEvents.StepUsed(t, u.id, u.lastTotpStep), i, u);
  }

  lemma StepAccounts(log: seq<AuthEvents.Event>, t: string, p: Pending, u: User, u': User)
    requires Tells(log, t, p) && Accounted(log, u) && p.userId == u.id == u'.id
    requires u'.secret.Sealed? && u'.recoveryHashes == u.recoveryHashes
    requires u'.lastTotpStep > 0 && (u'.lastTotpStep > u.lastTotpStep || u.secret.NoSecret?)
    ensures AuthEvents.Possible(log, AuthEvents.StepUsed(t, u.id, u'.lastTotpStep))
    ensures Accounted(log + [AuthEvents.StepUsed(t, u.id, u'.lastTotpStep)], u')
  {
    hide AuthEvents.ChallengeAfter, AuthEvents.CodesLeft, AuthEvents.LastStep;
    AuthEvents.After(log, AuthEvents.StepUsed(t, u.id, u'.lastTotpStep));
  }

  lemma LogCode(log: seq<AuthEvents.Event>, challenges: map<string, Pending>, users: seq<User>, t: string, i: nat,
                u: User, k: nat)
    requires LogOk(log, challenges, users) && t in challenges && i < |users| && Pairwise(users, AccountsDiffer)
    requires challenges[t].userId == users[i].id && k < |users[i].recoveryHashes|
    requires u == users[i].(recoveryHashes := RemoveAt(users[i].recoveryHashes, k))
    ensures LogOk(log + [AuthEvents.CodeUsed(t, u.id, users[i].recoveryHashes[k])], challenges - {t}, users[i := u])
  {
    hide AuthEvents.Consistent, Tells, Accounted, Unknown, NoUser, AccountsDiffer, AuthEvents.Possible, RemoveAt;
    assert users[i] in users;
    CodeAccounts(log, t, challenges[t], users[i], k);
    LogUpdates(log, challenges, challenges - {t}, users, AuthEvents.CodeUsed(t, u.id, users[i].recoveryHashes[k]), i, u);
  }

  lemma CodeAccounts(log: seq<AuthEvents.Event>, t: string, p: Pending, u: User, k: nat)
    requires Tells(log, t, p) && Accounted(log, u) && p.userId == u.id && k < |u.recoveryHashes|
    ensures AuthEvents.Possible(log, AuthEvents.CodeUsed(t, u.id, u.recoveryHashes[k]))
    ensures Accounted(log + [AuthEvents.CodeUsed(t, u.id, u.recoveryHashes[k])],
                      u.(recoveryHashes := RemoveAt(u.recoveryHashes, k)))
  {
    hide AuthEvents.ChallengeAfter, AuthEvents.CodesLeft, AuthEvents.LastStep;
    OneLess(u.recoveryHashes, k);
    AuthEvents.After(log, AuthEvents.CodeUsed(t, u.id, u.recoveryHashes[k]));
  }

  lemma OneLess(hashes: seq<string>, k: nat)
    requires k < |hashes|
    ensures hashes[k] in multiset(hashes) && multiset(RemoveAt(hashes, k)) == multiset(hashes) - multiset{hashes[k]}
  {
    assert hashes == hashes[..k] + [hashes[k]] + hashes[k + 1..];
  }

  lemma LogGrants(log: seq<AuthEvents.Event>, challenges: map<string, Pending>, users: seq<User>, i: nat, u: User)
    requires LogOk(log, challenges, users) && i < |users| && Pairwise(users, AccountsDiffer)
    requires u == users[i].(recoveryHashes := u.recoveryHashes)
    ensures LogOk(log + [AuthEvents.CodesGranted(u.id, u.recoveryHashes)], challenges, users[i := u])
  {
    hide AuthEvents.Consistent, Tells, Accounted, Unknown, NoUser, AccountsDiffer;
    assert users[i] in users;
    GrantAccounts(log, users[i], u.recoveryHashes);
    LogUpdates(log, challenges, challenges, users, AuthEvents.CodesGranted(u.id, u.recoveryHashes), i, u);
  }

  lemma GrantAccounts(log: seq<AuthEvents.Event>, u: User, hashes: seq<string>)
    requires Accounted(log, u)
    ensures Accounted(log + [AuthEvents.CodesGranted(u.id, hashes)], u.(recoveryHashes := hashes))
  {
    hide AuthEvents.ChallengeAfter, AuthEvents.CodesLeft, AuthEvents.LastStep;
    AuthEvents.After(log, AuthEvents.CodesGranted(u.id, hashes));
  }

  /** The account keeps what the log is about. */
  predicate SameFactors(u: User, v: User) {
    u.id == v.id && u.secret == v.secret && u.recoveryHashes == v.recoveryHashes && u.lastTotpStep == v.lastTotpStep
  }

  lemma LogSameFactors(log: seq<AuthEvents.Event>, challenges: map<string, Pending>, users: seq<User>, changed: seq<User>)
    requires LogOk(log, challenges, users) && |changed| == |users|
    requires forall k | 0 <= k < |users| :: SameFactors(users[k], changed[k])
    ensures LogOk(log, challenges, changed)
  {
    hide AuthEvents.Consistent, AuthEvents.CodesLeft, AuthEvents.LastStep, Tells, Unknown;
    forall v | v in changed ensures Accounted(log, v) {
      var k :| 0 <= k < |changed| && changed[k] == v;
      assert users[k] in users && Accounted(log, users[k]);
    }
    forall id | NoUser(changed, id) ensures NoUser(users, id) {
      forall u | u in users ensures u.id != id {
        var k :| 0 <= k < |users| && users[k] == u;
        assert changed[k] in changed;
      }
    }
  }

  lemma LogNewUser(log: seq<AuthEvents.Event>, challenges: map<string, Pending>, users: seq<User>, u: User)
    requires LogOk(log, challenges, users) && NoUser(users, u.id)
    requires u.recoveryHashes == [] && u.lastTotpStep == 0 && u.secret.NoSecret?
    ensures LogOk(log, challenges, users + [u])
  {
    hide AuthEvents.Consistent, AuthEvents.CodesLeft, AuthEvents.LastStep, Tells;
    assert Unknown(log, u.id);
    forall id | NoUser(users + [u], id) ensures NoUser(users, id) {
      assert forall v | v in users :: v in users + [u];
    }
  }
}
