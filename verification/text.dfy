/**
 * The JavaScript string operations the transforms rely on, for a literal (non-regex)
 * pattern: `indexOf`, `split(sep)` and `replace(pat, rep)`, which rewrites only the
 * FIRST occurrence of `pat`. The replacement text is inserted as it is, which is what
 * JavaScript does for a replacement without `$`; the `$` substitution patterns are not
 * modelled.
 */
module Text {
  import opened Wrappers

  /** `pat` occurs in `s` starting at position `i`. */
  predicate OccursAt(s: string, pat: string, i: nat) {
    i + |pat| <= |s| && s[i..i + |pat|] == pat
  }

  predicate Contains(s: string, pat: string) {
    exists i: nat :: i <= |s| && OccursAt(s, pat, i)
  }

  /** The leftmost position at or after `from` where `pat` occurs, as `s.indexOf(pat, from)`. */
  function IndexOf(s: string, pat: string, from: nat): (r: Option<nat>)
    requires from <= |s|
    ensures r.Some? ==> from <= r.value <= |s| && OccursAt(s, pat, r.value)
    ensures r.Some? ==> forall j: nat :: from <= j < r.value ==> !OccursAt(s, pat, j)
    ensures r.None? ==> forall j: nat :: from <= j ==> !OccursAt(s, pat, j)
    decreases |s| - from
  {
    if OccursAt(s, pat, from) then Some(from)
    else if from == |s| then None
    else IndexOf(s, pat, from + 1)
  }

  /** The pieces glued back together with `sep` between neighbours, as `pieces.join(sep)`. */
  function Join(pieces: seq<string>, sep: string): string
    requires |pieces| >= 1
    decreases |pieces|
  {
    if |pieces| == 1 then pieces[0] else pieces[0] + sep + Join(pieces[1..], sep)
  }

  /** No occurrence of `pat` lies wholly inside a prefix that ends before its first occurrence. */
  lemma NoOccurrenceInPrefix(s: string, pat: string, i: nat)
    requires |pat| > 0 && i <= |s|
    requires forall j: nat :: j < i ==> !OccursAt(s, pat, j)
    ensures !Contains(s[..i], pat)
  {
    forall j: nat | OccursAt(s[..i], pat, j)
      ensures false
    {
      assert s[..i][j..j + |pat|] == s[j..j + |pat|];
      assert OccursAt(s, pat, j);
    }
  }

  /** A text without a given character contains no pattern that holds that character. */
  lemma AbsentCharacter(s: string, pat: string, k: nat)
    requires k < |pat| && forall i :: 0 <= i < |s| ==> s[i] != pat[k]
    ensures !Contains(s, pat)
  {
    forall i: nat | i <= |s|
      ensures !OccursAt(s, pat, i)
    {
      if i + |pat| <= |s| {
        assert s[i..i + |pat|][k] == s[i + k] != pat[k];
      }
    }
  }

  /** `s.split(sep)` for a non-empty separator: cut at every occurrence, scanning left to right. */
  function Split(s: string, sep: string): (pieces: seq<string>)
    requires |sep| > 0
    ensures 1 <= |pieces|
    decreases |s|
  {
    match IndexOf(s, sep, 0)
    case None => [s]
    case Some(i) => [s[..i]] + Split(s[i + |sep|..], sep)
  }

  /** Gluing a first piece onto further pieces puts one separator between them. */
  lemma JoinCons(first: string, rest: seq<string>, sep: string)
    requires |rest| >= 1
    ensures Join([first] + rest, sep) == first + sep + Join(rest, sep)
  {
    assert ([first] + rest)[1..] == rest;
  }

  /** Gluing the pieces of a split back together with the separator gives the input. */
  lemma {:induction false} SplitJoin(s: string, sep: string)
    requires |sep| > 0
    ensures Join(Split(s, sep), sep) == s
    decreases |s|
  {
    match IndexOf(s, sep, 0)
    case None =>
    case Some(i) =>
      var rest := Split(s[i + |sep|..], sep);
      SplitJoin(s[i + |sep|..], sep);
      JoinCons(s[..i], rest, sep);
      assert s[..i] + sep + s[i + |sep|..] == s by {
        assert s[i..i + |sep|] == sep;
        assert s == s[..i] + s[i..i + |sep|] + s[i + |sep|..];
      }
  }

  /** No piece of a split holds the separator. */
  lemma {:induction false} SplitPiecesClean(s: string, sep: string)
    requires |sep| > 0
    ensures forall k :: 0 <= k < |Split(s, sep)| ==> !Contains(Split(s, sep)[k], sep)
    decreases |s|
  {
    match IndexOf(s, sep, 0)
    case None =>
    case Some(i) =>
      var rest := Split(s[i + |sep|..], sep);
      var pieces := [s[..i]] + rest;
      assert Split(s, sep) == pieces;
      SplitPiecesClean(s[i + |sep|..], sep);
      NoOccurrenceInPrefix(s, sep, i);
      assert forall k :: 1 <= k < |pieces| ==> pieces[k] == rest[k - 1];
  }

  /** A split has more than one piece exactly when the separator occurs. */
  lemma SplitCount(s: string, sep: string)
    requires |sep| > 0
    ensures |Split(s, sep)| == 1 <==> !Contains(s, sep)
  {
    match IndexOf(s, sep, 0)
    case None =>
    case Some(i) =>
      assert i <= |s| && OccursAt(s, sep, i);
  }

  /**
   * `s.replace(pat, rep)` with a string pattern and a replacement without `$`: only the
   * first occurrence is rewritten.
   */
  function ReplaceFirst(s: string, pat: string, rep: string): string
    requires |pat| > 0
  {
    match IndexOf(s, pat, 0)
    case None => s
    case Some(i) => s[..i] + rep + s[i + |pat|..]
  }

  /** Without an occurrence, `replace` returns its input. */
  lemma ReplaceFirstAbsent(s: string, pat: string, rep: string)
    requires |pat| > 0 && !Contains(s, pat)
    ensures ReplaceFirst(s, pat, rep) == s
  {
  }

  /**
   * With a leftmost occurrence at `i`, `replace` swaps exactly that occurrence for `rep`
   * and keeps everything before and after it, later occurrences included.
   */
  lemma ReplaceFirstAt(s: string, pat: string, rep: string, i: nat)
    requires |pat| > 0 && OccursAt(s, pat, i)
    requires forall j: nat :: j < i ==> !OccursAt(s, pat, j)
    ensures ReplaceFirst(s, pat, rep) == s[..i] + rep + s[i + |pat|..]
    ensures |ReplaceFirst(s, pat, rep)| == |s| - |pat| + |rep|
  {
  }

  /**
   * With the leftmost occurrence of `sep` at `i`, the split cuts there first: the first
   * piece is everything before it and the remaining pieces are the split of what follows.
   */
  lemma SplitAtFirst(s: string, sep: string, i: nat)
    requires |sep| > 0 && OccursAt(s, sep, i)
    requires forall j: nat :: j < i ==> !OccursAt(s, sep, j)
    ensures Split(s, sep) == [s[..i]] + Split(s[i + |sep|..], sep)
  {
    assert IndexOf(s, sep, 0) == Some(i);
  }

  /**
   * Splitting `a + sep + b`, where `sep` does not occur before the end of `a`, cuts first
   * right after `a`.
   */
  lemma SplitAfterFirstPiece(a: string, sep: string, b: string)
    requires |sep| > 0
    requires forall j: nat :: j < |a| ==> !OccursAt(a + sep + b, sep, j)
    ensures Split(a + sep + b, sep) == [a] + Split(b, sep)
  {
    var s := a + sep + b;
    assert OccursAt(s, sep, |a|) by { assert s[|a|..|a| + |sep|] == sep; }
    SplitAtFirst(s, sep, |a|);
    assert s[..|a|] == a;
    assert s[|a| + |sep|..] == b;
  }

  /**
   * In `a + " - " + b` with `a` free of dashes, no `" - "` starts before the end of `a`:
   * its middle character would have to be a dash of `a` or the separator's own space.
   */
  lemma NoSeparatorInDashFree(a: string, b: string)
    requires forall i :: 0 <= i < |a| ==> a[i] != '-'
    ensures forall j: nat :: j < |a| ==> !OccursAt(a + " - " + b, " - ", j)
  {
    var s := a + " - " + b;
    forall j: nat | j < |a|
      ensures !OccursAt(s, " - ", j)
    {
      assert s[j..j + 3][1] == s[j + 1];
      if j + 1 < |a| {
        assert s[j + 1] == a[j + 1];
      } else {
        assert s[j + 1] == ' ';
      }
    }
  }
}
