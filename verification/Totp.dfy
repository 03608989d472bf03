/** verifyTOTP and recoveryCodeIndex. Code generation and hashing are library
    functions and enter as parameters. */
module Totp {
  import opened Outcomes
  import opened Text

  const PERIOD := 30

  /** Go's integer division, which truncates. */
  function TruncatedQuotient(a: int, b: int): int
    requires b > 0
  {
    if a >= 0 then a / b else -((-a) / b)
  }

  predicate SixDigits(code: string) { |code| == 6 && forall c | c in code :: '0' <= c <= '9' }

  /** The steps a code may belong to: the current one and its two neighbours. */
  predicate InWindow(step: int, now: int) {
    TruncatedQuotient(now, PERIOD) - 1 <= step <= TruncatedQuotient(now, PERIOD) + 1
  }

  /** A step is in the window from half a minute before it begins until half a
      minute after it is over. */
  lemma WindowIs(step: int, now: int)
    requires now >= 0
    ensures InWindow(step, now) <==> PERIOD * (step - 1) <= now < PERIOD * (step + 2)
  {
  }

  /** The code is that of the step, the step is in the window, and it is later
      than the last one used. */
  predicate Accepts(code: string, now: int, lastStep: nat, generate: nat -> string, step: int) {
    InWindow(step, now) && step > lastStep && SixDigits(Trim(code)) && generate(step) == Trim(code)
  }

  /** verifyTOTP: the earliest acceptable step, or none when there is none. A code
      whose step has been used is not accepted again. */
  method VerifyTotp(code: string, now: int, lastStep: nat, generate: nat -> string) returns (r: Option<nat>)
    ensures r.Some? ==> Accepts(code, now, lastStep, generate, r.value)
    ensures r.Some? ==> forall step | Accepts(code, now, lastStep, generate, step) :: r.value <= step
    ensures r.None? ==> forall step :: !Accepts(code, now, lastStep, generate, step)
  {
    hide Trim;
    var trimmed := Trim(code);
    if |trimmed| != 6 { return None; }
    for i := 0 to |trimmed|
      invariant forall k | 0 <= k < i :: '0' <= trimmed[k] <= '9'
    {
      if trimmed[i] < '0' || trimmed[i] > '9' {
        assert trimmed[i] in trimmed;
        return None;
      }
    }
    var current := TruncatedQuotient(now, PERIOD);
    for offset := -1 to 2
      invariant forall step | Accepts(code, now, lastStep, generate, step) :: step >= current + offset
    {
      var step := current + offset;
      if step < 0 || step <= lastStep { continue; }
      if generate(step) == trimmed { return Some(step); }
    }
    return None;
  }

  function UpperCharacter(c: char): char { if 'a' <= c <= 'z' then (c as int - 32) as char else c }

  /** Recovery codes are compared without blanks and hyphens, in capitals. */
  function RawCode(s: string): string {
    if s == [] then []
    else (if s[0] == ' ' || s[0] == '-' then [] else [UpperCharacter(s[0])]) + RawCode(s[1..])
  }

  /** Character by character. */
  lemma {:induction false} RawJoined(s: string, t: string)
    ensures RawCode(s + t) == RawCode(s) + RawCode(t)
  {
    if s == [] {
      assert s + t == t;
    } else {
      assert (s + t)[1..] == s[1..] + t;
      RawJoined(s[1..], t);
    }
  }

  lemma RawOne(c: char)
    ensures RawCode([c]) == if c == ' ' || c == '-' then [] else [UpperCharacter(c)]
  {
    assert [c][1..] == [] && RawCode([]) == [];
  }

  /** Blanks and hyphens make no difference anywhere in a code, nor does case. */
  lemma RawIgnores(s: string, c: char, t: string)
    ensures c == ' ' || c == '-' ==> RawCode(s + [c] + t) == RawCode(s + t)
    ensures 'a' <= c <= 'z' ==> RawCode(s + [c] + t) == RawCode(s) + [(c as int - 'a' as int + 'A' as int) as char] + RawCode(t)
    ensures c != ' ' && c != '-' && !('a' <= c <= 'z') ==> RawCode(s + [c] + t) == RawCode(s) + [c] + RawCode(t)
  {
    hide RawCode;
    RawJoined(s, t);
    RawJoined(s + [c], t);
    RawJoined(s, [c]);
    RawOne(c);
  }

  /** recoveryCodeIndex: the first hash the code matches. */
  method RecoveryCodeIndex(hashes: seq<string>, code: string, matches: (string, string) -> bool) returns (r: Option<nat>)
    ensures var raw := RawCode(Trim(code));
            match r
            case Some(i) => i < |hashes| && |raw| == 16 && matches(hashes[i], raw) && forall k | 0 <= k < i :: !matches(hashes[k], raw)
            case None => |raw| != 16 || forall hash | hash in hashes :: !matches(hash, raw)
  {
    var raw := RawCode(Trim(code));
    if |raw| != 16 { return None; }
    for i := 0 to |hashes|
      invariant forall k | 0 <= k < i :: !matches(hashes[k], raw)
    {
      if matches(hashes[i], raw) { return Some(i); }
    }
    return None;
  }
}
