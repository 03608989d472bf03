/** The revisions of topologies over a run of the store: what was created,
    committed and deleted, in order. */
module Revisions {
  import opened Outcomes
  import opened Text

  /** Revisions are 64-bit and count from one. */
  const MAX_REVISION: nat := 0xFFFF_FFFF_FFFF_FFFF

  /** The next revision: adding one wraps to zero, which normalizing makes one. */
  function NextRevision(r: nat): (n: nat)
    requires r <= MAX_REVISION
    ensures 1 <= n <= MAX_REVISION
    ensures n == r + 1 <==> r < MAX_REVISION
  {
    var wrapped := (r + 1) % (MAX_REVISION + 1);
    if wrapped == 0 then 1 else wrapped
  }

  /** An expected revision of zero expects nothing. */
  datatype Event =
    | Created(id: Id, revision: nat)
    | Committed(id: Id, expected: nat, before: nat)
    | Deleted(id: Id)

  /** The revision a topology has after the events, if there is one. */
  function RevisionAfter(log: seq<Event>, id: Id): Option<nat> {
    if log == [] then None
    else
      var last := log[|log| - 1];
      if last.id != id then RevisionAfter(log[..|log| - 1], id)
      else match last
        case Created(_, r) => Some(r)
        case Committed(_, _, before) => if before <= MAX_REVISION then Some(NextRevision(before)) else None
        case Deleted(_) => None
  }

  /** The event can happen after the log. */
  predicate Possible(log: seq<Event>, e: Event) {
    match e
    case Created(id, r) => RevisionAfter(log, id).None? && 1 <= r <= MAX_REVISION
    case Committed(id, expected, before) =>
      RevisionAfter(log, id) == Some(before) && before <= MAX_REVISION && (expected == 0 || expected == before)
    case Deleted(id) => RevisionAfter(log, id).Some?
  }

  ghost predicate Consistent(log: seq<Event>) { forall k | 0 <= k < |log| :: Possible(log[..k], log[k]) }

  lemma ConsistentStep(log: seq<Event>, e: Event)
    requires Consistent(log) && Possible(log, e)
    ensures Consistent(log + [e])
  {
    var more := log + [e];
    forall k | 0 <= k < |more| ensures Possible(more[..k], more[k]) {
      if k < |log| { assert more[..k] == log[..k]; } else { assert more[..k] == log; }
    }
  }

  lemma RevisionStep(log: seq<Event>, e: Event, id: Id)
    ensures RevisionAfter(log + [e], id) ==
      if e.id != id then RevisionAfter(log, id)
      else match e
        case Created(_, r) => Some(r)
        case Committed(_, _, before) => if before <= MAX_REVISION then Some(NextRevision(before)) else None
        case Deleted(_) => None
  {
    assert (log + [e])[..|log|] == log;
  }

  /** From position i on, up to j, the topology is not deleted and no commit
      finds the last revision there is. */
  ghost predicate Undisturbed(log: seq<Event>, id: Id, i: nat, j: nat) {
    forall k | i <= k < j && k < |log| && log[k].id == id ::
      !log[k].Deleted? && (log[k].Committed? ==> log[k].before < MAX_REVISION)
  }

  /** Until then its revision only grows. */
  lemma {:induction false} RevisionGrows(log: seq<Event>, id: Id, i: nat, j: nat, r: nat)
    requires Consistent(log) && i <= j <= |log| && Undisturbed(log, id, i, j)
    requires RevisionAfter(log[..i], id) == Some(r)
    ensures RevisionAfter(log[..j], id).Some? && RevisionAfter(log[..j], id).value >= r
  {
    if i < j {
      RevisionGrows(log, id, i, j - 1, r);
      assert log[..j] == log[..j - 1] + [log[j - 1]];
      RevisionStep(log[..j - 1], log[j - 1], id);
      assert Possible(log[..j - 1], log[j - 1]);
    }
  }

  // ----- how often an expected revision can commit

  /** From position i on, up to j, the topology is not deleted. */
  ghost predicate Kept(log: seq<Event>, id: Id, i: nat, j: nat) {
    forall k | i <= k < j && k < |log| && log[k].id == id :: !log[k].Deleted?
  }

  predicate Commits(e: Event, id: Id) { e.Committed? && e.id == id }

  /** The number of its commits from position i on, up to j. */
  function CommitCount(log: seq<Event>, id: Id, i: nat, j: nat): nat
    requires i <= j <= |log|
  {
    if i == j then 0 else CommitCount(log, id, i, j - 1) + if Commits(log[j - 1], id) then 1 else 0
  }

  /** The revision n commits after revision r. */
  function Advanced(r: nat, n: nat): (s: nat)
    requires 1 <= r
    ensures 1 <= s <= MAX_REVISION
  {
    1 + (r - 1 + n) % MAX_REVISION
  }

  lemma AdvancedOnce(r: nat, n: nat)
    requires 1 <= r
    ensures NextRevision(Advanced(r, n)) == Advanced(r, n + 1)
  {
  }

  lemma AdvancedBack(r: nat, n: nat)
    requires 1 <= r <= MAX_REVISION
    ensures Advanced(r, n) == r <==> n % MAX_REVISION == 0
  {
  }

  lemma {:induction false} RevisionInRange(log: seq<Event>, id: Id)
    requires Consistent(log) && RevisionAfter(log, id).Some?
    ensures 1 <= RevisionAfter(log, id).value <= MAX_REVISION
  {
    var front, last := log[..|log| - 1], log[|log| - 1];
    assert Possible(log[..|log| - 1], last);
    if last.id != id {
      ConsistentUpTo(log, |log| - 1);
      RevisionInRange(front, id);
    }
  }

  lemma ConsistentUpTo(log: seq<Event>, j: nat)
    requires Consistent(log) && j <= |log|
    ensures Consistent(log[..j])
  {
    hide Possible;
    assert forall k | 0 <= k < j :: log[..j][..k] == log[..k];
  }

  /** The revision of a topology that is not deleted counts its commits, around
      the largest one. */
  lemma {:induction false} RevisionCounts(log: seq<Event>, id: Id, i: nat, j: nat, r: nat)
    requires Consistent(log) && i <= j <= |log| && Kept(log, id, i, j)
    requires RevisionAfter(log[..i], id) == Some(r)
    ensures r >= 1 && RevisionAfter(log[..j], id) == Some(Advanced(r, CommitCount(log, id, i, j)))
  {
    hide Possible, RevisionAfter, Advanced, Commits;
    ConsistentUpTo(log, i);
    RevisionInRange(log[..i], id);
    if i == j {
      AdvancedBack(r, 0);
    } else {
      RevisionCounts(log, id, i, j - 1, r);
      assert log[..j] == log[..j - 1] + [log[j - 1]];
      CountsOneMore(log[..j - 1], log[j - 1], id, r, CommitCount(log, id, i, j - 1));
    }
  }

  lemma CountsOneMore(log: seq<Event>, e: Event, id: Id, r: nat, n: nat)
    requires Possible(log, e) && r >= 1 && RevisionAfter(log, id) == Some(Advanced(r, n)) && (e.id == id ==> !e.Deleted?)
    ensures RevisionAfter(log + [e], id) == Some(Advanced(r, n + if Commits(e, id) then 1 else 0))
  {
    hide RevisionAfter, Advanced, NextRevision;
    RevisionStep(log, e, id);
    AdvancedOnce(r, n);
  }

  /** After a commit that expected a revision, and before a deletion, another can
      commit with the same expectation exactly when the number of commits from the
      first one on is a multiple of the number of revisions there are. */
  lemma SecondCommitIff(log: seq<Event>, id: Id, e: nat, i: nat, j: nat)
    requires Consistent(log) && i < j <= |log| && Commits(log[i], id) && log[i].expected == e != 0 && Kept(log, id, i, j)
    ensures forall before: nat ::
      Possible(log[..j], Committed(id, e, before)) <==> before == e && CommitCount(log, id, i, j) % MAX_REVISION == 0
  {
    hide Advanced;
    assert Possible(log[..i], log[i]);
    RevisionCounts(log, id, i, j, e);
    AdvancedBack(e, CommitCount(log, id, i, j));
  }

  lemma {:induction false} SomeCommit(log: seq<Event>, id: Id, i: nat, j: nat)
    requires i < j <= |log| && Commits(log[i], id)
    ensures CommitCount(log, id, i, j) >= 1
  {
    if i < j - 1 { SomeCommit(log, id, i, j - 1); }
  }

  /** Two requests that expect the same revision do not both commit, unless the
      topology was deleted in between, or so often committed to that its revision
      wrapped around. */
  lemma OneCommitPerRevision(log: seq<Event>, i: nat, j: nat)
    requires Consistent(log) && i < j < |log|
    requires log[i].Committed? && log[j].Committed? && log[i].id == log[j].id
    requires log[i].expected == log[j].expected != 0
    ensures !Undisturbed(log, log[i].id, i, j)
    ensures Kept(log, log[i].id, i, j) ==>
      CommitCount(log, log[i].id, i, j) >= MAX_REVISION && CommitCount(log, log[i].id, i, j) % MAX_REVISION == 0
  {
    hide RevisionAfter, Kept, CommitCount;
    LaterRevision(log, i, j);
    if Kept(log, log[i].id, i, j) {
      SomeCommit(log, log[i].id, i, j);
      SecondCommitIff(log, log[i].id, log[i].expected, i, j);
      assert Possible(log[..j], Committed(log[i].id, log[i].expected, log[j].before));
    }
  }

  lemma LaterRevision(log: seq<Event>, i: nat, j: nat)
    requires Consistent(log) && i < j < |log|
    requires log[i].Committed? && log[j].Committed? && log[i].id == log[j].id
    requires log[i].expected == log[j].expected != 0
    ensures !Undisturbed(log, log[i].id, i, j)
  {
    hide RevisionAfter;
    var id := log[i].id;
    assert Possible(log[..i], log[i]) && Possible(log[..j], log[j]);
    assert log[..i + 1] == log[..i] + [log[i]];
    RevisionStep(log[..i], log[i], id);
    if Undisturbed(log, id, i, j) {
      RevisionGrows(log, id, i + 1, j, NextRevision(log[i].before));
      assert false;
    }
  }

  // ----- both ways around the theorem can happen after any run

  /** The run goes on with n commits to the topology, which has revision r, each
      expecting the revision it finds. */
  ghost function More(log: seq<Event>, id: Id, r: nat, n: nat): (more: seq<Event>)
    requires 1 <= r
    ensures |more| == |log| + n && more[..|log|] == log
    ensures forall k | |log| <= k < |more| :: more[k] == CommitAt(id, r, k - |log|)
  {
    if n == 0 then log else More(log, id, r, n - 1) + [CommitAt(id, r, n - 1)]
  }

  function CommitAt(id: Id, r: nat, n: nat): Event
    requires 1 <= r
  {
    Committed(id, Advanced(r, n), Advanced(r, n))
  }

  lemma {:induction false} MoreCommits(log: seq<Event>, id: Id, r: nat, n: nat)
    requires Consistent(log) && RevisionAfter(log, id) == Some(r) && 1 <= r <= MAX_REVISION
    ensures Consistent(More(log, id, r, n)) && RevisionAfter(More(log, id, r, n), id) == Some(Advanced(r, n))
  {
    hide Consistent, RevisionAfter, Advanced, NextRevision;
    if n == 0 {
      AdvancedBack(r, 0);
    } else {
      MoreCommits(log, id, r, n - 1);
      ConsistentStep(More(log, id, r, n - 1), CommitAt(id, r, n - 1));
      RevisionStep(More(log, id, r, n - 1), CommitAt(id, r, n - 1), id);
      AdvancedOnce(r, n - 1);
    }
  }

  /** Whatever happened so far, a revision that can commit now can commit again,
      without a deletion in between, once as many commits as there are revisions
      have followed. */
  lemma WrapCommitsAgain(log: seq<Event>, id: Id, r: nat, n: nat)
    requires Consistent(log) && RevisionAfter(log, id) == Some(r) && n == MAX_REVISION
    ensures 1 <= r <= MAX_REVISION
    ensures var run := More(log, id, r, n + 1);
            && Consistent(run) && run[..|log|] == log && Kept(run, id, |log|, |run|)
            && run[|log|] == run[|log| + n] == Committed(id, r, r)
  {
    hide Consistent;
    RevisionInRange(log, id);
    MoreCommits(log, id, r, n + 1);
    AdvancedBack(r, 0);
    AdvancedBack(r, n);
  }

  /** Whatever happened so far, a revision that was expected once can commit again
      when the topology is deleted, if it still is there, and created with it. */
  lemma DeletionCommitsAgain(log: seq<Event>, i: nat)
    requires Consistent(log) && i < |log| && log[i].Committed? && log[i].expected != 0
    ensures var (id, e) := (log[i].id, log[i].expected);
            var gone := if RevisionAfter(log, id).Some? then log + [Deleted(id)] else log;
            Consistent(gone + [Created(id, e)] + [Committed(id, e, e)])
  {
    hide Consistent;
    var id, e := log[i].id, log[i].expected;
    ExpectedInRange(log, i);
    var gone := log;
    if RevisionAfter(log, id).Some? {
      gone := log + [Deleted(id)];
      ConsistentStep(log, Deleted(id));
      RevisionStep(log, Deleted(id), id);
    }
    ConsistentStep(gone, Created(id, e));
    RevisionStep(gone, Created(id, e), id);
    ConsistentStep(gone + [Created(id, e)], Committed(id, e, e));
  }

  lemma ExpectedInRange(log: seq<Event>, i: nat)
    requires Consistent(log) && i < |log| && log[i].Committed? && log[i].expected != 0
    ensures 1 <= log[i].expected <= MAX_REVISION
  {
    assert Possible(log[..i], log[i]);
  }
}
