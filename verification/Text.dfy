/** Identifiers are strings, compared the way Go compares them: character by
    character, a proper prefix first. */
module Text {

  type Id = string

  /** Go's `<` on strings. */
  predicate Less(a: string, b: string) {
    b != [] && (a == [] || a[0] < b[0] || (a[0] == b[0] && Less(a[1..], b[1..])))
  }

  lemma LessIrreflexive(a: string)
    ensures !Less(a, a)
  {
  }

  lemma {:induction false} LessTransitive(a: string, b: string, c: string)
    requires Less(a, b) && Less(b, c)
    ensures Less(a, c)
  {
    if a != [] && a[0] == b[0] && b[0] == c[0] {
      LessTransitive(a[1..], b[1..], c[1..]);
    }
  }

  lemma {:induction false} LessTotal(a: string, b: string)
    ensures Less(a, b) || a == b || Less(b, a)
  {
    if a == [] || b == [] {
    } else if a[0] == b[0] {
      LessTotal(a[1..], b[1..]);
      assert a == [a[0]] + a[1..] && b == [b[0]] + b[1..];
    }
  }

  /** The strings agree up to position k, where the first has the lesser character. */
  predicate DifferAt(a: string, b: string, k: nat) { k < |a| && k < |b| && a[..k] == b[..k] && a[k] < b[k] }

  lemma {:induction false} LessBefore(a: string, b: string)
    requires Less(a, b) && !(a < b)
    ensures exists k: nat :: DifferAt(a, b, k)
  {
    if a[0] < b[0] {
      assert DifferAt(a, b, 0);
    } else {
      assert a == [a[0]] + a[1..] && b == [b[0]] + b[1..];
      LessBefore(a[1..], b[1..]);
      var k: nat :| DifferAt(a[1..], b[1..], k);
      assert a[..k + 1] == [a[0]] + a[1..][..k] && b[..k + 1] == [b[0]] + b[1..][..k];
      assert DifferAt(a, b, k + 1);
    }
  }

  lemma {:induction false} LessFrom(a: string, b: string, k: nat)
    requires DifferAt(a, b, k) || (a < b && k == |a|)
    ensures Less(a, b)
    decreases k
  {
    if k > 0 {
      assert a[0] == a[..k][0] == b[..k][0] == b[0];
      assert a[1..][..k - 1] == a[..k][1..] && b[1..][..k - 1] == b[..k][1..];
      LessFrom(a[1..], b[1..], k - 1);
    }
  }

  /** The first place where they differ decides; without one, the shorter is less. */
  lemma LessIs(a: string, b: string)
    ensures Less(a, b) <==> a < b || exists k: nat :: DifferAt(a, b, k)
  {
    hide Less, DifferAt;
    if Less(a, b) && !(a < b) { LessBefore(a, b); }
    if a < b { LessFrom(a, b, |a|); }
    if k: nat :| DifferAt(a, b, k) { LessFrom(a, b, k); }
  }

  lemma LessIsStrictTotal()
    ensures forall a: string :: !Less(a, a)
    ensures forall a: string, b: string, c: string :: Less(a, b) && Less(b, c) ==> Less(a, c)
    ensures forall a: string, b: string :: Less(a, b) || a == b || Less(b, a)
  {
    forall a: string ensures !Less(a, a) { LessIrreflexive(a); }
    forall a: string, b: string, c: string | Less(a, b) && Less(b, c) ensures Less(a, c) {
      LessTransitive(a, b, c);
    }
    forall a: string, b: string ensures Less(a, b) || a == b || Less(b, a) { LessTotal(a, b); }
  }

  /** The smaller and the larger of two identifiers. */
  function Least(a: Id, b: Id): Id { if Less(b, a) then b else a }

  function Greatest(a: Id, b: Id): Id { if Less(b, a) then a else b }

  predicate IdCharacter(c: char) { '0' <= c <= '9' || 'a' <= c <= 'f' || c == '-' }

  /** What the proofs use of the regular expression for identifiers: they are
      not empty and made of lower-case hexadecimal digits and hyphens. */
  predicate WellFormedId(id: Id) { id != [] && forall c | c in id :: IdCharacter(c) }

  predicate Space(c: char) { c == ' ' || c == '\t' || c == '\n' || c == '\U{0B}' || c == '\U{0C}' || c == '\r' }

  /** strings.TrimSpace, on ASCII text. */
  function Trim(s: string): (r: string)
    ensures r == [] || (!Space(r[0]) && !Space(r[|r| - 1]))
  {
    if s == [] then s
    else if Space(s[0]) then Trim(s[1..])
    else if Space(s[|s| - 1]) then Trim(s[..|s| - 1])
    else s
  }

  lemma TrimStep(s: string)
    ensures Trim(s) == if s == [] then s else if Space(s[0]) then Trim(s[1..]) else if Space(s[|s| - 1]) then Trim(s[..|s| - 1]) else s
  {
  }

  /** What is cut off at either end is blank. */
  lemma {:induction false} TrimIs(s: string) returns (before: string, after: string)
    ensures s == before + Trim(s) + after
    ensures forall c | c in before + after :: Space(c)
  {
    hide Trim, Space;
    TrimStep(s);
    before, after := [], [];
    if s != [] && Space(s[0]) {
      before, after := TrimIs(s[1..]);
      assert s == [s[0]] + s[1..];
      before := [s[0]] + before;
    } else if s != [] && Space(s[|s| - 1]) {
      before, after := TrimIs(s[..|s| - 1]);
      assert s == s[..|s| - 1] + [s[|s| - 1]];
      after := after + [s[|s| - 1]];
    }
  }

  lemma {:induction false} TrimTwice(s: string)
    ensures Trim(Trim(s)) == Trim(s)
  {
    if s != [] {
      if Space(s[0]) { TrimTwice(s[1..]); }
      else if Space(s[|s| - 1]) { TrimTwice(s[..|s| - 1]); }
    }
  }

  lemma TrimId(id: Id)
    requires WellFormedId(id)
    ensures Trim(id) == id
  {
    assert id[0] in id && id[|id| - 1] in id;
  }

  /** Decimal rendering of a natural number. */
  function Decimal(n: nat): (s: string)
    ensures s != [] && forall c | c in s :: '0' <= c <= '9'
  {
    if n < 10 then [Digit(n)] else Decimal(n / 10) + [Digit(n % 10)]
  }

  function Digit(n: nat): (c: char)
    requires n < 10
    ensures '0' <= c <= '9' && (c as int) - ('0' as int) == n
  {
    ('0' as int + n) as char
  }

  lemma {:induction false} DecimalInjective(m: nat, n: nat)
    requires Decimal(m) == Decimal(n)
    ensures m == n
    decreases m + n
  {
    var s, t := Decimal(m), Decimal(n);
    assert s[|s| - 1] == Digit(m % 10) && t[|t| - 1] == Digit(n % 10) by {
      if m < 10 { assert m % 10 == m; }
      if n < 10 { assert n % 10 == n; }
    }
    if m >= 10 && n >= 10 {
      assert s[..|s| - 1] == Decimal(m / 10) && t[..|t| - 1] == Decimal(n / 10);
      DecimalInjective(m / 10, n / 10);
    }
  }

  function LowerCharacter(c: char): char { if 'A' <= c <= 'Z' then (c as int + 32) as char else c }

  /** strings.ToLower and the folding of strings.EqualFold, on ASCII text. */
  function Lower(s: string): (r: string)
    ensures |r| == |s| && forall i | 0 <= i < |s| :: r[i] == LowerCharacter(s[i])
  {
    seq(|s|, i requires 0 <= i < |s| => LowerCharacter(s[i]))
  }
}
