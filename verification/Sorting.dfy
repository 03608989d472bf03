/** The library sorts the repository calls: slices.Sort and slices.SortFunc.
    Every sort of the repository that matters here is by a key no two elements
    share, so that its result depends only on the elements. */
module Sorting {
  import opened Text

  ghost function Elements<T>(s: seq<T>): set<T> { set x | x in s }

  ghost predicate Distinct<T>(s: seq<T>) {
    forall i, j | 0 <= i < j < |s| :: s[i] != s[j]
  }

  ghost predicate StrictOrder<T(!new)>(lt: (T, T) -> bool) {
    && (forall x :: !lt(x, x))
    && (forall x, y, z :: lt(x, y) && lt(y, z) ==> lt(x, z))
  }

  /** Any two elements of s are ordered one way or the other, or equal. */
  ghost predicate Comparable<T>(lt: (T, T) -> bool, s: set<T>) {
    forall x, y | x in s && y in s :: lt(x, y) || x == y || lt(y, x)
  }

  ghost predicate Ascending<T>(lt: (T, T) -> bool, s: seq<T>) {
    forall i, j | 0 <= i < j < |s| :: lt(s[i], s[j])
  }

  lemma AscendingDistinct<T(!new)>(lt: (T, T) -> bool, s: seq<T>)
    requires StrictOrder(lt) && Ascending(lt, s)
    ensures Distinct(s)
  {
  }

  /** An ascending sequence is determined by its elements. */
  lemma {:induction false} AscendingUnique<T(!new)>(lt: (T, T) -> bool, a: seq<T>, b: seq<T>)
    requires StrictOrder(lt) && Ascending(lt, a) && Ascending(lt, b)
    requires Elements(a) == Elements(b)
    ensures a == b
  {
    if a == [] {
      assert forall i | 0 <= i < |b| :: b[i] in Elements(b);
    } else {
      assert a[0] in Elements(b) by { assert a[0] in Elements(a); }
      var j :| 0 <= j < |b| && b[j] == a[0];
      assert b[0] in Elements(a) by { assert b[0] in Elements(b); }
      var i :| 0 <= i < |a| && a[i] == b[0];
      assert a[0] == b[0];
      AscendingDistinct(lt, a);
      AscendingDistinct(lt, b);
      TailElements(a);
      TailElements(b);
      AscendingUnique(lt, a[1..], b[1..]);
      assert a == [a[0]] + a[1..] && b == [b[0]] + b[1..];
    }
  }

  lemma TailElements<T>(s: seq<T>)
    requires |s| > 0 && Distinct(s)
    ensures Elements(s[1..]) == Elements(s) - {s[0]}
  {
    forall x ensures x in Elements(s[1..]) <==> x in Elements(s) - {s[0]} {
      if x in Elements(s) - {s[0]} {
        var i :| 0 <= i < |s| && s[i] == x;
        assert s[1..][i - 1] == x;
      }
    }
  }

  lemma {:induction false} OneOccurrence<T>(s: seq<T>, x: T)
    requires Distinct(s)
    ensures multiset(s)[x] <= 1
  {
    if s != [] {
      var front, last := s[..|s| - 1], s[|s| - 1];
      OneOccurrence(front, x);
      assert s == front + [last];
      assert last !in front;
      assert multiset(s) == multiset(front) + multiset{last};
    }
  }

  lemma TwoOccurrences<T>(s: seq<T>, i: nat, j: nat)
    requires i < j < |s| && s[i] == s[j]
    ensures multiset(s)[s[i]] >= 2
  {
    assert s == s[..i] + [s[i]] + s[i + 1..j] + [s[j]] + s[j + 1..];
    assert multiset(s) == multiset(s[..i]) + multiset{s[i]} + multiset(s[i + 1..j]) + multiset{s[j]} + multiset(s[j + 1..]);
  }

  lemma SubsetSize<T>(a: set<T>, b: set<T>)
    requires a <= b
    ensures |a| <= |b| && (|a| == |b| ==> a == b)
  {
    assert b == a + (b - a);
  }

  /** A non-empty finite set has a least element. */
  lemma {:induction false} LeastExists<T(!new)>(lt: (T, T) -> bool, s: set<T>)
    requires StrictOrder(lt) && Comparable(lt, s) && s != {}
    ensures exists m :: IsLeast(lt, s, m)
  {
    var k :| k in s;
    if s == {k} {
      assert IsLeast(lt, s, k);
    } else {
      LeastExists(lt, s - {k});
      var m :| IsLeast(lt, s - {k}, m);
      assert IsLeast(lt, s, if lt(m, k) then m else k);
    }
  }

  ghost predicate IsLeast<T>(lt: (T, T) -> bool, s: set<T>, m: T) {
    m in s && forall x | x in s :: x == m || lt(m, x)
  }

  /** The ascending sequence of a finite set's elements. */
  ghost function SortedSet<T(!new)>(lt: (T, T) -> bool, s: set<T>): (r: seq<T>)
    requires StrictOrder(lt) && Comparable(lt, s)
    ensures Ascending(lt, r) && Elements(r) == s && |r| == |s|
  {
    if s == {} then [] else
      var m := LeastOf(lt, s);
      var rest := SortedSet(lt, s - {m});
      LeastFirst(lt, s, m, rest);
      [m] + rest
  }

  lemma LeastFirst<T>(lt: (T, T) -> bool, s: set<T>, m: T, rest: seq<T>)
    requires IsLeast(lt, s, m) && Ascending(lt, rest) && Elements(rest) == s - {m}
    ensures Ascending(lt, [m] + rest) && Elements([m] + rest) == s
  {
    var r := [m] + rest;
    assert forall i | 1 <= i < |r| :: r[i] == rest[i - 1] && r[i] in Elements(rest);
    forall x | x in s ensures x in r {
      if x != m { assert x in Elements(rest); }
    }
  }

  ghost function LeastOf<T(!new)>(lt: (T, T) -> bool, s: set<T>): (m: T)
    requires StrictOrder(lt) && Comparable(lt, s) && s != {}
    ensures IsLeast(lt, s, m)
  {
    LeastExists(lt, s);
    var m :| IsLeast(lt, s, m);
    m
  }

  /** A sort by insertion, standing for the library's: whatever the order of
      the input, its elements come back ascending. */
  method Sort<T(==,!new)>(s: seq<T>, lt: (T, T) -> bool) returns (r: seq<T>)
    requires StrictOrder(lt) && Comparable(lt, Elements(s)) && Distinct(s)
    ensures Ascending(lt, r) && Elements(r) == Elements(s) && |r| == |s|
  {
    r := [];
    for i := 0 to |s|
      invariant Ascending(lt, r) && |r| == i
      invariant Elements(r) == Elements(s[..i])
    {
      assert s[..i + 1] == s[..i] + [s[i]];
      forall y | y in r ensures y in Elements(s) && y != s[i] {
        assert y in Elements(r);
      }
      r := Insert(r, s[i], lt);
      assert Elements(s[..i + 1]) == Elements(s[..i]) + {s[i]};
    }
    assert s[..|s|] == s;
  }

  /** slices.Sort and slices.Compact: each element once, ascending. */
  method SortAndCompact<T(==,!new)>(s: seq<T>, lt: (T, T) -> bool) returns (r: seq<T>)
    requires StrictOrder(lt) && Comparable(lt, Elements(s))
    ensures r == SortedSet(lt, Elements(s))
  {
    r := [];
    for i := 0 to |s|
      invariant Ascending(lt, r) && Elements(r) == Elements(s[..i])
    {
      assert s[..i + 1] == s[..i] + [s[i]];
      assert Elements(s[..i + 1]) == Elements(s[..i]) + {s[i]};
      if s[i] !in r {
        forall y | y in r ensures y in Elements(s) && y != s[i] { assert y in Elements(r); }
        r := Insert(r, s[i], lt);
      } else {
        assert s[i] in Elements(r);
      }
    }
    assert s[..|s|] == s;
    AscendingUnique(lt, r, SortedSet(lt, Elements(s)));
  }

  method Insert<T(!new)>(s: seq<T>, x: T, lt: (T, T) -> bool) returns (r: seq<T>)
    requires StrictOrder(lt) && Ascending(lt, s)
    requires forall y | y in s :: lt(x, y) || lt(y, x)
    ensures Ascending(lt, r) && Elements(r) == Elements(s) + {x} && |r| == |s| + 1
  {
    var k := 0;
    while k < |s| && lt(s[k], x)
      invariant 0 <= k <= |s|
      invariant forall i | 0 <= i < k :: lt(s[i], x)
    {
      k := k + 1;
    }
    r := s[..k] + [x] + s[k..];
    forall y ensures y in Elements(r) <==> y in Elements(s) + {x} {
      if y in s {
        var i :| 0 <= i < |s| && s[i] == y;
        assert y == if i < k then r[i] else r[i + 1];
      }
      assert x == r[k];
    }
    forall i | k <= i < |s| ensures lt(x, s[i]) {
      assert s[k] in s;
      if i > k { assert lt(s[k], s[i]); }
    }
  }

  /** Ranging over a map: its keys, in an order nothing is known about. */
  method Listing<T(==)>(s: set<T>) returns (r: seq<T>)
    ensures Distinct(r) && Elements(r) == s && |r| == |s|
  {
    r := [];
    var rest := s;
    while rest != {}
      invariant Distinct(r) && |r| == |s| - |rest|
      invariant Elements(r) == s - rest && rest <= s
    {
      var x :| x in rest;
      assert forall y | y in r :: y in Elements(r);
      assert Elements(r + [x]) == Elements(r) + {x};
      r, rest := r + [x], rest - {x};
    }
  }

  /** A map's keys, sorted. */
  method SortedKeys(s: set<string>) returns (r: seq<string>)
    ensures Ascending(Less, r) && Elements(r) == s
  {
    LessIsStrictTotal();
    var listed := Listing(s);
    r := Sort(listed, Less);
  }

  lemma {:induction false} DistinctSize<T>(s: seq<T>)
    requires Distinct(s)
    ensures |Elements(s)| == |s|
  {
    if s != [] {
      var t := s[..|s| - 1];
      DistinctSize(t);
      assert Elements(s) == Elements(t) + {s[|s| - 1]};
      assert s[|s| - 1] !in t;
    } else {
      assert Elements(s) == {};
    }
  }

  /** A finite set of identifiers, ascending. */
  ghost function SortedIds(ids: set<Id>): (r: seq<Id>)
    ensures Elements(r) == ids && Ascending(Less, r) && |r| == |ids|
  {
    LessIsStrictTotal();
    SortedSet(Less, ids)
  }

  // ----- integers

  predicate Below(a: int, b: int) { a < b }

  /** A finite set of integers, ascending. */
  ghost function SortedInts(s: set<int>): (r: seq<int>)
    ensures Ascending(Below, r) && Elements(r) == s
  {
    assert StrictOrder(Below) && Comparable(Below, s);
    SortedSet(Below, s)
  }

  /** In an ascending sequence, position i has i elements below it. */
  lemma PositionIsRank<T(!new)>(lt: (T, T) -> bool, s: seq<T>, i: nat, below: set<T>)
    requires StrictOrder(lt) && Ascending(lt, s) && i < |s|
    requires forall x :: x in below <==> x in Elements(s) && lt(x, s[i])
    ensures |below| == i
  {
    AscendingDistinct(lt, s);
    DistinctSize(s[..i]);
    forall x ensures x in below <==> x in Elements(s[..i]) {
      if x in below {
        var j :| 0 <= j < |s| && s[j] == x;
        assert j < i;
        assert s[..i][j] == x;
      }
    }
    assert below == Elements(s[..i]);
  }

  // ----- plain strings, where equal elements cannot be told apart

  /** slices.Sort on strings. */
  function SortIds(s: seq<Id>): (r: seq<Id>)
    ensures multiset(r) == multiset(s)
    ensures forall i, j | 0 <= i < j < |r| :: !Less(r[j], r[i])
  {
    if s == [] then [] else
      assert s == s[..|s| - 1] + [s[|s| - 1]];
      InsertId(SortIds(s[..|s| - 1]), s[|s| - 1])
  }

  function InsertId(s: seq<Id>, x: Id): (r: seq<Id>)
    requires forall i, j | 0 <= i < j < |s| :: !Less(s[j], s[i])
    ensures multiset(r) == multiset(s) + multiset{x}
    ensures forall i, j | 0 <= i < j < |r| :: !Less(r[j], r[i])
  {
    if s == [] || !Less(x, s[|s| - 1]) then
      AppendOrdered(s, x);
      s + [x]
    else
      var front, last := s[..|s| - 1], s[|s| - 1];
      var r := InsertId(front, x);
      assert s == front + [last];
      InsertOrdered(front, x, r, last);
      r + [last]
  }

  lemma AppendOrdered(s: seq<Id>, x: Id)
    requires forall i, j | 0 <= i < j < |s| :: !Less(s[j], s[i])
    requires s != [] ==> !Less(x, s[|s| - 1])
    ensures forall i, j | 0 <= i < j < |s + [x]| :: !Less((s + [x])[j], (s + [x])[i])
  {
    LessIsStrictTotal();
  }

  lemma InsertOrdered(front: seq<Id>, x: Id, r: seq<Id>, last: Id)
    requires multiset(r) == multiset(front) + multiset{x} && Less(x, last)
    requires forall y | y in front :: !Less(last, y)
    requires forall i, j | 0 <= i < j < |r| :: !Less(r[j], r[i])
    ensures forall i, j | 0 <= i < j < |r + [last]| :: !Less((r + [last])[j], (r + [last])[i])
  {
    LessIsStrictTotal();
    forall i | 0 <= i < |r| ensures !Less(last, r[i]) {
      assert r[i] in multiset(r);
      assert r[i] in multiset(front) || r[i] == x;
    }
  }
}
