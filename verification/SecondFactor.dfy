/** The second-factor failure record of one account: every fifth failure locks
    the account's second factor for a growing period. */
module SecondFactor {
  import opened Outcomes
  import opened Text

  // Durations in nanoseconds.
  const MINUTE: nat := 60_000_000_000
  const HOUR: nat := 60 * MINUTE
  const DAY: nat := 24 * HOUR
  const MAX_TRIES := 5

  /** None where the source has the zero time. */
  datatype Factor = Factor(failures: nat, lastFailure: Option<int>, lockedUntil: Option<int>)

  const NO_FAILURES := Factor(0, None, None)

  function Doubled(n: nat): (r: nat)
    ensures r >= 1
  {
    if n == 0 then 1 else 2 * Doubled(n - 1)
  }

  /** The k-th lockout: a minute, doubled each time up to six times, and an hour
      at most. */
  function Lockout(k: nat): (d: nat)
    requires k >= 1
    ensures 0 < d <= HOUR
  {
    var shifted := MINUTE * Doubled(if k - 1 < 6 then k - 1 else 6);
    if shifted < HOUR then shifted else HOUR
  }

  predicate Locked(f: Factor, now: int) { f.lockedUntil.Some? && now < f.lockedUntil.value }

  predicate Stale(f: Factor, now: int) { f.lastFailure.Some? && now - f.lastFailure.value >= DAY }

  /** reserveSecondFactorLocked: an admitted attempt counts as a failure before
      the code is checked. */
  function Admit(f: Factor, now: int): Option<Factor> {
    if Locked(f, now) then None else
      var failures := (if Stale(f, now) then 0 else f.failures) + 1;
      var until := if failures % MAX_TRIES == 0 then Some(now + Lockout(failures / MAX_TRIES))
                   else if Stale(f, now) then None else f.lockedUntil;
      Some(Factor(failures, Some(now), until))
  }

  lemma AdmittedUnlessLocked(f: Factor, now: int)
    ensures Admit(f, now).Some? <==> !Locked(f, now)
  {
  }

  /** pruneLocked forgets records that are neither locked nor recent. */
  function Sweep(f: Factor, now: int): Factor {
    if !Locked(f, now) && (f.lastFailure.None? || Stale(f, now)) then NO_FAILURES else f
  }

  // ----- a run without success

  /** Clock readings are taken before the lock, so later events may carry earlier
      times. */
  datatype Event = Attempt(now: int) | Swept(now: int)

  /** The record after the events, and the times of the attempts admitted. */
  function Replay(events: seq<Event>): (Factor, seq<int>) {
    if events == [] then (NO_FAILURES, []) else
      var (f, admitted) := Replay(events[..|events| - 1]);
      match events[|events| - 1]
      case Attempt(now) => (match Admit(f, now) case None => (f, admitted) case Some(g) => (g, admitted + [now]))
      case Swept(now) => (Sweep(f, now), admitted)
  }

  /** The record after one more event; a refused attempt changes nothing. */
  function NextRecord(f: Factor, e: Event): Factor {
    if e.Swept? then Sweep(f, e.now) else if Admit(f, e.now).Some? then Admit(f, e.now).value else f
  }

  lemma ReplayStep(events: seq<Event>, e: Event)
    ensures Replay(events + [e]).0 == NextRecord(Replay(events).0, e)
    ensures Replay(events + [e]).1 == Replay(events).1 +
              if e.Attempt? && Admit(Replay(events).0, e.now).Some? then [e.now] else []
  {
    hide Admit, Sweep;
    assert (events + [e])[..|events|] == events;
  }

  /** No event comes a day or more after the last failure before it. */
  ghost predicate NoGap(events: seq<Event>) {
    forall k | 0 <= k < |events| :: !Stale(Replay(events[..k]).0, events[k].now)
  }

  /** L1 + ... + Lk. */
  function LockoutSum(k: nat): nat { if k == 0 then 0 else LockoutSum(k - 1) + Lockout(k) }

  /** The record counts the admitted attempts and is locked from the last fifth
      one on; every attempt came after the lockouts before it. */
  ghost predicate Counted(f: Factor, admitted: seq<int>) {
    && f.failures == |admitted|
    && (admitted == [] ==> f == NO_FAILURES)
    && (admitted != [] ==> f.lastFailure.Some?)
    && (|admitted| >= 5 ==> f.lockedUntil.Some? && f.lockedUntil.value >= admitted[4] + LockoutSum(|admitted| / 5))
    && (|admitted| < 5 ==> f.lockedUntil.None?)
    && (admitted != [] ==>
          var last := admitted[|admitted| - 1];
          && f.lastFailure == Some(last)
          && if |admitted| % 5 == 0 then f.lockedUntil == Some(last + Lockout(|admitted| / 5)) else !Locked(f, last))
    && forall i | 5 <= i < |admitted| :: admitted[i] >= admitted[4] + LockoutSum(i / 5)
  }

  lemma AdmitCounts(f: Factor, admitted: seq<int>, now: int)
    requires Counted(f, admitted) && !Stale(f, now) && Admit(f, now).Some?
    ensures Counted(Admit(f, now).value, admitted + [now])
  {
    hide Lockout;
    var g, more := Admit(f, now).value, admitted + [now];
    var n := |more|;
    assert g.failures == n;
    forall i | 5 <= i < n ensures more[i] >= more[4] + LockoutSum(i / 5) {
      if i == n - 1 { assert |admitted| == i; }
    }
    if n % 5 == 0 {
      assert n / 5 == (n - 1) / 5 + 1;
      assert LockoutSum(n / 5) == LockoutSum((n - 1) / 5) + Lockout(n / 5);
    } else if n >= 5 {
      assert n / 5 == (n - 1) / 5;
    }
  }

  lemma {:induction false} ReplayCounts(events: seq<Event>)
    requires NoGap(events)
    ensures Counted(Replay(events).0, Replay(events).1)
  {
    hide Counted, Admit;
    if events == [] {
      NothingCounted();
    } else {
      var front, last := events[..|events| - 1], events[|events| - 1];
      assert forall k | 0 <= k < |front| :: front[..k] == events[..k] && front[k] == events[k];
      ReplayCounts(front);
      var (f, admitted) := Replay(front);
      assert !Stale(Replay(events[..|events| - 1]).0, last.now);
      if last.Attempt? && Admit(f, last.now).Some? { AdmitCounts(f, admitted, last.now); }
      if last.Swept? { SweepKeeps(f, admitted, last.now); }
    }
  }

  lemma NothingCounted()
    ensures Counted(NO_FAILURES, [])
  {
  }

  lemma SweepKeeps(f: Factor, admitted: seq<int>, now: int)
    requires Counted(f, admitted) && !Stale(f, now)
    ensures Sweep(f, now) == f
  {
  }

  /** With attempts on one account, no success and no day without a failure, the
      attempt after 5k admitted ones comes at least L1 + ... + Lk after the
      fifth. */
  lemma LockoutsAddUp(events: seq<Event>, k: nat)
    requires NoGap(events) && k >= 1 && |Replay(events).1| > 5 * k
    ensures Replay(events).1[5 * k] - Replay(events).1[4] >= LockoutSum(k)
  {
    ReplayCounts(events);
    assert (5 * k) / 5 == k;
  }

  /** And no longer: with n attempts admitted, a later one is refused exactly when n
      is a multiple of five and the lockout that began with the n-th is not over. */
  lemma RefusedIff(events: seq<Event>, now: int)
    requires NoGap(events) && Replay(events).1 != [] && now >= Replay(events).1[|Replay(events).1| - 1]
    ensures var admitted := Replay(events).1;
            Admit(Replay(events).0, now).None? <==>
              |admitted| % 5 == 0 && now < admitted[|admitted| - 1] + Lockout(|admitted| / 5)
  {
    ReplayCounts(events);
  }

  /** A day after the last failure the account starts afresh. */
  lemma DayForgives(f: Factor, now: int)
    requires Stale(f, now) && !Locked(f, now)
    ensures Admit(f, now) == Some(Factor(1, Some(now), None)) && Sweep(f, now) == NO_FAILURES
  {
  }

  /** Lockouts last 1, 2, 4, 8, 16 and 32 minutes, and an hour from the seventh on. */
  lemma LockoutTable(k: nat)
    requires k >= 1
    ensures Lockout(k) == MINUTE * if k >= 7 then 60 else [1, 2, 4, 8, 16, 32][k - 1]
  {
    assert Doubled(3) == 8;
    assert Doubled(6) == 64;
  }

  // ----- the records of all accounts

  function RecordOf(records: map<Id, Factor>, id: Id): Factor { if id in records then records[id] else NO_FAILURES }

  function EventsOf(events: map<Id, seq<Event>>, id: Id): seq<Event> { if id in events then events[id] else [] }

  /** Each account's record is what its events since its last success come to. */
  ghost predicate Replayed(records: map<Id, Factor>, events: map<Id, seq<Event>>) {
    forall id: Id :: RecordOf(records, id) == Replay(EventsOf(events, id)).0
  }

  /** The record after an attempt, admitted or refused. */
  function Attempted(records: map<Id, Factor>, id: Id, now: int): map<Id, Factor> {
    var admitted := Admit(RecordOf(records, id), now);
    if admitted.None? then records else records[id := admitted.value]
  }

  function WithEvent(events: map<Id, seq<Event>>, id: Id, e: Event): map<Id, seq<Event>> {
    events[id := EventsOf(events, id) + [e]]
  }

  lemma AttemptReplayed(records: map<Id, Factor>, events: map<Id, seq<Event>>, id: Id, now: int)
    requires Replayed(records, events)
    ensures Replayed(Attempted(records, id, now), WithEvent(events, id, Attempt(now)))
  {
    hide Replay, Admit;
    var more := WithEvent(events, id, Attempt(now));
    ReplayStep(EventsOf(events, id), Attempt(now));
    assert RecordOf(records, id) == Replay(EventsOf(events, id)).0;
    forall other: Id ensures RecordOf(Attempted(records, id, now), other) == Replay(EventsOf(more, other)).0 {
      assert RecordOf(records, other) == Replay(EventsOf(events, other)).0;
    }
  }

  /** What pruning leaves of the records, and how every account's events go on. */
  function SweptRecords(records: map<Id, Factor>, now: int): map<Id, Factor> {
    map id | id in records && Sweep(records[id], now) != NO_FAILURES :: records[id]
  }

  function WithSweep(events: map<Id, seq<Event>>, now: int): map<Id, seq<Event>> {
    map id | id in events :: events[id] + [Swept(now)]
  }

  lemma SweepReplayed(records: map<Id, Factor>, events: map<Id, seq<Event>>, now: int)
    requires Replayed(records, events)
    ensures Replayed(SweptRecords(records, now), WithSweep(events, now))
  {
    hide Replay;
    forall id: Id ensures RecordOf(SweptRecords(records, now), id) == Replay(EventsOf(WithSweep(events, now), id)).0 {
      assert RecordOf(records, id) == Replay(EventsOf(events, id)).0;
      if id in events { ReplayStep(events[id], Swept(now)); } else { NothingSwept(now); }
    }
  }

  lemma NothingSwept(now: int)
    ensures Replay([]).0 == NO_FAILURES == Sweep(NO_FAILURES, now)
  {
  }

  lemma ForgetReplayed(records: map<Id, Factor>, events: map<Id, seq<Event>>, id: Id)
    requires Replayed(records, events)
    ensures Replayed(records - {id}, events - {id})
  {
    forall other: Id ensures RecordOf(records - {id}, other) == Replay(EventsOf(events - {id}, other)).0 {
      assert RecordOf(records, other) == Replay(EventsOf(events, other)).0;
    }
  }

  /** A sixth, eleventh, ... attempt since the last success is admitted only once
      the lockouts so far are over. */
  lemma AttemptWaits(records: map<Id, Factor>, events: map<Id, seq<Event>>, id: Id, now: int, k: nat)
    requires Replayed(records, events) && NoGap(WithEvent(events, id, Attempt(now))[id])
    requires k >= 1 && |Replay(EventsOf(events, id)).1| == 5 * k && Admit(RecordOf(records, id), now).Some?
    ensures now >= Replay(EventsOf(events, id)).1[4] + LockoutSum(k)
  {
    hide Replay, Admit, NoGap;
    var before := EventsOf(events, id);
    assert RecordOf(records, id) == Replay(before).0;
    ReplayStep(before, Attempt(now));
    LockoutsAddUp(before + [Attempt(now)], k);
  }
}
