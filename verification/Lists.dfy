/** Lists that a mutation shrinks: removing by position, filtering, and the
    relations between any two of their elements. */
module Lists {

  /** Any two elements, earlier and later, are related by ok. */
  ghost predicate Pairwise<T>(s: seq<T>, ok: (T, T) -> bool) {
    forall i, j | 0 <= i < j < |s| :: ok(s[i], s[j])
  }

  function RemoveAt<T>(s: seq<T>, i: nat): (r: seq<T>)
    requires i < |s|
    ensures |r| == |s| - 1
    ensures forall k | 0 <= k < |r| :: r[k] == s[if k < i then k else k + 1]
    ensures forall x | x in r :: x in s
  {
    s[..i] + s[i + 1..]
  }

  lemma RemovePairwise<T>(s: seq<T>, i: nat, ok: (T, T) -> bool)
    requires i < |s| && Pairwise(s, ok)
    ensures Pairwise(RemoveAt(s, i), ok)
  {
  }

  lemma RemovedOne<T>(s: seq<T>, i: nat, x: T)
    requires i < |s|
    ensures x in s <==> x in RemoveAt(s, i) || x == s[i]
  {
    if x in s && x != s[i] {
      var k :| 0 <= k < |s| && s[k] == x;
      assert RemoveAt(s, i)[if k < i then k else k - 1] == x;
    }
  }

  function Filter<T>(s: seq<T>, keep: T -> bool): (r: seq<T>)
    ensures |r| <= |s|
    ensures forall x | x in r :: x in s && keep(x)
    ensures forall x | x in s && keep(x) :: x in r
  {
    if s == [] then [] else
      assert s == s[..|s| - 1] + [s[|s| - 1]];
      Filter(s[..|s| - 1], keep) + if keep(s[|s| - 1]) then [s[|s| - 1]] else []
  }

  lemma {:induction false} FilterPairwise<T>(s: seq<T>, keep: T -> bool, ok: (T, T) -> bool)
    requires Pairwise(s, ok)
    ensures Pairwise(Filter(s, keep), ok)
  {
    if s != [] {
      var front, last := s[..|s| - 1], s[|s| - 1];
      FilterPairwise(front, keep, ok);
      forall x | x in Filter(front, keep) ensures ok(x, last) {
        var k :| 0 <= k < |front| && front[k] == x;
        assert s[k] == x && s[|s| - 1] == last;
      }
    }
  }

  lemma {:induction false} FilterAll<T>(s: seq<T>, keep: T -> bool)
    requires forall x | x in s :: keep(x)
    ensures Filter(s, keep) == s
  {
    if s != [] {
      FilterAll(s[..|s| - 1], keep);
      assert s == s[..|s| - 1] + [s[|s| - 1]];
    }
  }

  lemma {:induction false} FilterNone<T>(s: seq<T>, keep: T -> bool)
    requires forall x | x in s :: !keep(x)
    ensures Filter(s, keep) == []
  {
    if s != [] { FilterNone(s[..|s| - 1], keep); }
  }

  lemma {:induction false} FilterSame<T>(s: seq<T>, f: T -> bool, g: T -> bool)
    requires forall x | x in s :: f(x) <==> g(x)
    ensures Filter(s, f) == Filter(s, g)
  {
    if s != [] {
      assert s == s[..|s| - 1] + [s[|s| - 1]];
      FilterSame(s[..|s| - 1], f, g);
    }
  }

  lemma FilterStep<T>(s: seq<T>, k: nat, keep: T -> bool)
    requires k < |s|
    ensures Filter(s[..k + 1], keep) == Filter(s[..k], keep) + if keep(s[k]) then [s[k]] else []
  {
    assert s[..k + 1][..k] == s[..k];
  }

  function Map<T, U>(s: seq<T>, f: T -> U): (r: seq<U>)
    ensures |r| == |s| && forall i | 0 <= i < |s| :: r[i] == f(s[i])
  {
    seq(|s|, i requires 0 <= i < |s| => f(s[i]))
  }

  lemma MapPairwise<T, U>(s: seq<T>, f: T -> U, before: (T, T) -> bool, after: (U, U) -> bool)
    requires Pairwise(s, before)
    requires forall x, y | x in s && y in s && before(x, y) :: after(f(x), f(y))
    ensures Pairwise(Map(s, f), after)
  {
  }

  lemma MapMember<T, U>(s: seq<T>, f: T -> U, y: U) returns (x: T)
    requires y in Map(s, f)
    ensures x in s && y == f(x)
  {
    var i :| 0 <= i < |s| && Map(s, f)[i] == y;
    x := s[i];
  }

  /** Replacing one element. */
  lemma UpdatePairwise<T>(s: seq<T>, i: nat, x: T, ok: (T, T) -> bool)
    requires i < |s| && Pairwise(s, ok)
    requires forall k | 0 <= k < i :: ok(s[k], x)
    requires forall k | i < k < |s| :: ok(x, s[k])
    ensures Pairwise(s[i := x], ok)
  {
  }

  /** The first position where test holds, or |s| when there is none. */
  function IndexOf<T>(s: seq<T>, test: T -> bool): (i: nat)
    ensures i <= |s| && (forall k | 0 <= k < i :: !test(s[k])) && (i < |s| ==> test(s[i]))
  {
    if s == [] then 0 else
      var i := IndexOf(s[..|s| - 1], test);
      if i < |s| - 1 then assert s[..|s| - 1][i] == s[i]; i else if test(s[|s| - 1]) then |s| - 1 else |s|
  }

  /** slicesIndex: the loop. */
  method FindIndex<T>(s: seq<T>, test: T -> bool) returns (i: nat)
    ensures i == IndexOf(s, test)
  {
    i := 0;
    while i < |s| && !test(s[i])
      invariant i <= |s| && forall k | 0 <= k < i :: !test(s[k])
    {
      i := i + 1;
    }
  }
}
