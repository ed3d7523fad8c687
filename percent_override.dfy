/**
 * `Urllib3PercentREOverride.subn`: urllib3 normalises URLs by calling `subn` on its
 * percent-encoding pattern `%[a-fA-F0-9]{2}` with a replacement that upper-cases each match.
 * The override runs the real substitution for its count but returns the string unchanged, so
 * lower-case escapes survive while urllib3 still learns how many escapes there are.
 */
module PercentOverride {

  predicate IsHexDigit(c: char)
  {
    '0' <= c <= '9' || 'a' <= c <= 'f' || 'A' <= c <= 'F'
  }

  /** A match of `%[a-fA-F0-9]{2}` starts at position `i`. */
  predicate EscapeAt(s: string, i: nat)
  {
    i + 3 <= |s| && s[i] == '%' && IsHexDigit(s[i + 1]) && IsHexDigit(s[i + 2])
  }

  /** `re.subn(repl, s)` for the percent pattern: non-overlapping matches from the left, each replaced by `repl` of it. */
  function ReSubn(repl: string -> string, s: string): (string, nat)
    decreases |s|
  {
    if |s| < 3 then (s, 0)
    else if EscapeAt(s, 0) then
      var (rest, n) := ReSubn(repl, s[3..]);
      (repl(s[..3]) + rest, n + 1)
    else
      var (rest, n) := ReSubn(repl, s[1..]);
      ([s[0]] + rest, n)
  }

  /** The number of escapes a left-to-right scan finds. */
  function EscapeCount(s: string): nat
    decreases |s|
  {
    if |s| < 3 then 0
    else if EscapeAt(s, 0) then 1 + EscapeCount(s[3..])
    else EscapeCount(s[1..])
  }

  /** The override: the input string as it is, with the count of the real substitution. */
  function Subn(repl: string -> string, s: string): (r: (string, nat))
    ensures r.0 == s
    ensures r.1 == EscapeCount(s)
    ensures 3 * r.1 <= |s|
    ensures r.1 == 0 <==> forall i: nat :: !EscapeAt(s, i)
  {
    SubnCount(repl, s);
    EscapeCountBound(s);
    EscapeCountZero(s);
    (s, ReSubn(repl, s).1)
  }

  /** The substitution's count does not depend on the replacement. */
  lemma {:induction false} SubnCount(repl: string -> string, s: string)
    ensures ReSubn(repl, s).1 == EscapeCount(s)
    decreases |s|
  {
    if |s| >= 3 {
      if EscapeAt(s, 0) {
        SubnCount(repl, s[3..]);
      } else {
        SubnCount(repl, s[1..]);
      }
    }
  }

  /** Each escape takes three characters. */
  lemma {:induction false} EscapeCountBound(s: string)
    ensures 3 * EscapeCount(s) <= |s|
    decreases |s|
  {
    if |s| >= 3 {
      if EscapeAt(s, 0) {
        EscapeCountBound(s[3..]);
      } else {
        EscapeCountBound(s[1..]);
      }
    }
  }

  /** The count is zero exactly when no escape occurs anywhere in the string. */
  lemma {:induction false} EscapeCountZero(s: string)
    ensures EscapeCount(s) == 0 <==> forall i: nat :: !EscapeAt(s, i)
    decreases |s|
  {
    if |s| < 3 {
      forall i: nat ensures !EscapeAt(s, i) {
      }
    } else if !EscapeAt(s, 0) {
      EscapeCountZero(s[1..]);
      forall i: nat | EscapeAt(s, i) ensures EscapeAt(s[1..], i - 1) {
      }
      forall i: nat | EscapeAt(s[1..], i) ensures EscapeAt(s, i + 1) {
      }
    }
  }

  /** urllib3's replacement: a match upper-cased. */
  function UpperEscape(m: string): string
  {
    seq(|m|, i requires 0 <= i < |m| => if 'a' <= m[i] <= 'f' then (m[i] as int - 32) as char else m[i])
  }

  /** Without the override urllib3 would rewrite `%2f` as `%2F`; with it, the URL keeps `%2f`. */
  lemma LowerCaseEscapeKept()
    ensures ReSubn(UpperEscape, "%2f") == ("%2F", 1)
    ensures Subn(UpperEscape, "%2f") == ("%2f", 1)
  {
    assert EscapeAt("%2f", 0);
    assert "%2f"[..3] == "%2f";
    assert UpperEscape("%2f") == "%2F";
    assert "%2f"[3..] == "";
    assert ReSubn(UpperEscape, "") == ("", 0);
    assert "%2F" + "" == "%2F";
  }
}
