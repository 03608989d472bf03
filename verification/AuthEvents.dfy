/** What happens to challenges, authenticator steps and recovery codes over a
    run, whatever the order in which concurrent requests take the lock. */
module AuthEvents {
  import opened Outcomes
  import opened Text

  datatype Event =
    | Issued(token: string, user: Id)
    | Admitted(token: string)
    | StepUsed(token: string, user: Id, step: nat)
    | CodeUsed(token: string, user: Id, hash: string)
    | CodesGranted(user: Id, hashes: seq<string>)

  /** The challenge with the token: who it was issued to, how many verifications
      of it were admitted, and whether it has opened a session. */
  datatype Challenge = Challenge(user: Id, checks: nat, spent: bool)

  function NextChallenge(before: Option<Challenge>, e: Event, token: string): Option<Challenge> {
    match e
    case Issued(t, user) => if t == token then Some(Challenge(user, 0, false)) else before
    case Admitted(t) => if t == token && before.Some? then Some(before.value.(checks := before.value.checks + 1)) else before
    case StepUsed(t, _, _) => if t == token && before.Some? then Some(before.value.(spent := true)) else before
    case CodeUsed(t, _, _) => if t == token && before.Some? then Some(before.value.(spent := true)) else before
    case CodesGranted(_, _) => before
  }

  function ChallengeAfter(log: seq<Event>, token: string): Option<Challenge> {
    if log == [] then None else NextChallenge(ChallengeAfter(log[..|log| - 1], token), log[|log| - 1], token)
  }

  /** The last authenticator step that opened a session of the account. */
  function LastStep(log: seq<Event>, user: Id): nat {
    if log == [] then 0 else
      var last := log[|log| - 1];
      if last.StepUsed? && last.user == user then last.step else LastStep(log[..|log| - 1], user)
  }

  function NextCodes(before: multiset<string>, e: Event, user: Id): multiset<string> {
    if e.CodesGranted? && e.user == user then multiset(e.hashes)
    else if e.CodeUsed? && e.user == user then before - multiset{e.hash}
    else before
  }

  /** The recovery codes of the account that are left. */
  function CodesLeft(log: seq<Event>, user: Id): multiset<string> {
    if log == [] then multiset{} else NextCodes(CodesLeft(log[..|log| - 1], user), log[|log| - 1], user)
  }

  /** The challenge can still open a session. */
  predicate Open(log: seq<Event>, token: string, user: Id) {
    var c := ChallengeAfter(log, token);
    c.Some? && !c.value.spent && c.value.user == user
  }

  predicate Possible(log: seq<Event>, e: Event) {
    match e
    case Issued(token, _) => ChallengeAfter(log, token).None?
    case Admitted(token) => ChallengeAfter(log, token).Some? && !ChallengeAfter(log, token).value.spent
                            && ChallengeAfter(log, token).value.checks < 5
    case StepUsed(token, user, step) => Open(log, token, user) && step > LastStep(log, user)
    case CodeUsed(token, user, hash) => Open(log, token, user) && hash in CodesLeft(log, user)
    case CodesGranted(_, _) => true
  }

  ghost predicate Consistent(log: seq<Event>) { forall k | 0 <= k < |log| :: Possible(log[..k], log[k]) }

  lemma ConsistentStep(log: seq<Event>, e: Event)
    requires Consistent(log) && Possible(log, e)
    ensures Consistent(log + [e])
  {
    hide Possible;
    var more := log + [e];
    forall k | 0 <= k < |more| ensures Possible(more[..k], more[k]) {
      if k < |log| { assert more[..k] == log[..k]; } else { assert more[..k] == log; }
    }
  }

  /** One more event, read off the end of the log. */
  lemma After(log: seq<Event>, e: Event)
    ensures forall token :: ChallengeAfter(log + [e], token) == NextChallenge(ChallengeAfter(log, token), e, token)
    ensures forall user :: LastStep(log + [e], user) == if e.StepUsed? && e.user == user then e.step else LastStep(log, user)
    ensures forall user :: CodesLeft(log + [e], user) == NextCodes(CodesLeft(log, user), e, user)
  {
    assert (log + [e])[..|log|] == log;
  }

  // ----- challenges

  predicate Opens(e: Event, token: string) { (e.StepUsed? || e.CodeUsed?) && e.token == token }

  function Checks(log: seq<Event>, token: string): nat {
    if log == [] then 0 else
      Checks(log[..|log| - 1], token) + if log[|log| - 1] == Admitted(token) then 1 else 0
  }

  function Openings(log: seq<Event>, token: string): nat {
    if log == [] then 0 else
      Openings(log[..|log| - 1], token) + if Opens(log[|log| - 1], token) then 1 else 0
  }

  lemma ConsistentFront(log: seq<Event>)
    requires Consistent(log) && log != []
    ensures Consistent(log[..|log| - 1]) && Possible(log[..|log| - 1], log[|log| - 1])
  {
    hide Possible;
    var front := log[..|log| - 1];
    assert forall k | 0 <= k < |front| :: front[..k] == log[..k] && front[k] == log[k];
  }

  lemma {:induction false} ChallengeCounts(log: seq<Event>, token: string)
    requires Consistent(log)
    ensures match ChallengeAfter(log, token)
            case None => Checks(log, token) == 0 && Openings(log, token) == 0
            case Some(c) => Checks(log, token) == c.checks <= 5 && Openings(log, token) == if c.spent then 1 else 0
  {
    if log != [] {
      ConsistentFront(log);
      ChallengeCounts(log[..|log| - 1], token);
    }
  }

  /** Over any run a challenge admits at most five verifications and opens at most
      one session. */
  lemma ChallengeLimits(log: seq<Event>, token: string)
    requires Consistent(log)
    ensures Checks(log, token) <= 5 && Openings(log, token) <= 1
  {
    ChallengeCounts(log, token);
  }

  // ----- authenticator steps

  lemma {:induction false} StepsBelow(log: seq<Event>, user: Id, i: nat)
    requires Consistent(log) && i < |log| && log[i].StepUsed? && log[i].user == user
    ensures log[i].step <= LastStep(log, user)
  {
    if i < |log| - 1 {
      ConsistentFront(log);
      StepsBelow(log[..|log| - 1], user, i);
    }
  }

  /** The authenticator steps that open sessions of one account strictly increase:
      none is used twice. */
  lemma StepsIncrease(log: seq<Event>, i: nat, j: nat)
    requires Consistent(log) && i < j < |log| && log[i].StepUsed? && log[j].StepUsed? && log[i].user == log[j].user
    ensures log[i].step < log[j].step
  {
    hide LastStep;
    var front := log[..j];
    assert Consistent(front) by { assert forall k | 0 <= k < |front| :: front[..k] == log[..k] && front[k] == log[k]; }
    StepsBelow(front, log[i].user, i);
    assert Possible(log[..j], log[j]);
  }

  // ----- recovery codes

  /** How often a code was used since codes were last granted to the account. */
  function CodesUsed(log: seq<Event>, user: Id): multiset<string> {
    if log == [] then multiset{} else
      var last := log[|log| - 1];
      if last.CodesGranted? && last.user == user then multiset{}
      else CodesUsed(log[..|log| - 1], user) + if last.CodeUsed? && last.user == user then multiset{last.hash} else multiset{}
  }

  function CodesIssued(log: seq<Event>, user: Id): multiset<string> {
    if log == [] then multiset{} else
      var last := log[|log| - 1];
      if last.CodesGranted? && last.user == user then multiset(last.hashes) else CodesIssued(log[..|log| - 1], user)
  }

  /** Used and remaining codes are the issued ones: each is used at most as often
      as it was issued. */
  lemma {:induction false} CodesConserved(log: seq<Event>, user: Id)
    requires Consistent(log)
    ensures CodesUsed(log, user) + CodesLeft(log, user) == CodesIssued(log, user)
  {
    if log != [] {
      ConsistentFront(log);
      CodesConserved(log[..|log| - 1], user);
    }
  }
}
