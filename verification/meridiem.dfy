/**
 * The one regular-expression rewrite of the NFL long status:
 * `replace(/(:00)?\s([A|P]M)/, "$2")`. The expression has no `g` flag, so only the
 * leftmost match is rewritten; at each start position the optional `:00` group is tried
 * first; the bracket class `[A|P]` admits `A`, `P` and a literal `|`.
 */
module Meridiem {
  import opened Wrappers

  /** The characters `\s` matches in a JavaScript regular expression. */
  predicate IsJsWhitespace(c: char) {
    c == ' ' || ('\t' <= c <= '\r') || c == '\U{00A0}' || c == '\U{1680}'
    || ('\U{2000}' <= c <= '\U{200A}') || c == '\U{2028}' || c == '\U{2029}'
    || c == '\U{202F}' || c == '\U{205F}' || c == '\U{3000}' || c == '\U{FEFF}'
  }

  /** The bracket class `[A|P]`. */
  predicate InMeridiemClass(c: char) {
    c == 'A' || c == '|' || c == 'P'
  }

  /**
   * The length of the match of `(:00)?\s([A|P]M)` that starts at `i`, or 0 when no match
   * starts there. The group is greedy, so the six-character form wins when both fit.
   */
  function MatchLength(s: string, i: nat): nat {
    if i + 6 <= |s| && s[i..i + 3] == ":00" && IsJsWhitespace(s[i + 3])
       && InMeridiemClass(s[i + 4]) && s[i + 5] == 'M' then 6
    else if i + 3 <= |s| && IsJsWhitespace(s[i]) && InMeridiemClass(s[i + 1]) && s[i + 2] == 'M' then 3
    else 0
  }

  /** The leftmost start at or after `from` where the expression matches. */
  function FirstMatch(s: string, from: nat): (r: Option<nat>)
    requires from <= |s|
    ensures r.Some? ==> from <= r.value < |s| && MatchLength(s, r.value) > 0
    ensures r.Some? ==> forall j: nat :: from <= j < r.value ==> MatchLength(s, j) == 0
    ensures r.None? ==> forall j: nat :: from <= j ==> MatchLength(s, j) == 0
    decreases |s| - from
  {
    if from == |s| then None
    else if MatchLength(s, from) > 0 then Some(from)
    else FirstMatch(s, from + 1)
  }

  /** The rewrite: the leftmost match is replaced by its two-character `[A|P]M` capture. */
  function CompactMeridiem(s: string): string {
    match FirstMatch(s, 0)
    case None => s
    case Some(i) =>
      var n := MatchLength(s, i);
      s[..i] + s[i + n - 2..i + n] + s[i + n..]
  }

  /** A string the expression does not match is left as it is. */
  lemma CompactMeridiemNoMatch(s: string)
    requires forall j: nat :: MatchLength(s, j) == 0
    ensures CompactMeridiem(s) == s
  {
  }

  /**
   * With the leftmost match at `i`, exactly that match is rewritten: `:00 PM` becomes `PM`,
   * ` PM` becomes `PM`, and the text around it, later matches included, is kept.
   */
  lemma CompactMeridiemAt(s: string, i: nat)
    requires MatchLength(s, i) > 0
    requires forall j: nat :: j < i ==> MatchLength(s, j) == 0
    ensures MatchLength(s, i) == 6 ==>
      CompactMeridiem(s) == s[..i] + [s[i + 4], 'M'] + s[i + 6..]
    ensures MatchLength(s, i) == 3 ==>
      CompactMeridiem(s) == s[..i] + [s[i + 1], 'M'] + s[i + 3..]
    ensures |CompactMeridiem(s)| == |s| - MatchLength(s, i) + 2
  {
    var r := FirstMatch(s, 0);
    assert r == Some(i);
    var n := MatchLength(s, i);
    assert s[i + n - 2..i + n] == [s[i + n - 2], s[i + n - 1]];
  }
}
