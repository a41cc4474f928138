/**
 * The two string operations of Rust's `str` the modelled code relies on:
 * `contains` (substring search) and `replace` (replace every non-overlapping
 * occurrence, scanning left to right). Strings are sequences of characters;
 * for valid UTF-8 text, which is all `&str` can hold, byte-level and
 * character-level matching agree.
 */
module Strings {

  /** `pat` occurs in `s` starting at index `i`. */
  predicate OccursAt(s: string, pat: string, i: nat) {
    i + |pat| <= |s| && s[i..i + |pat|] == pat
  }

  /** `s.contains(pat)`. */
  predicate Contains(s: string, pat: string) {
    exists i: nat | i <= |s| :: OccursAt(s, pat, i)
  }

  /**
   * `s.replace(pat, rep)`: the leftmost occurrence is replaced, the scan
   * resumes right after it, and text that matches nowhere is copied. An
   * empty pattern matches before every character and at the end.
   */
  function ReplaceAll(s: string, pat: string, rep: string): string
    decreases |s|
  {
    if |pat| == 0 then
      rep + (if s == [] then [] else [s[0]] + ReplaceAll(s[1..], pat, rep))
    else if OccursAt(s, pat, 0) then
      rep + ReplaceAll(s[|pat|..], pat, rep)
    else if s == [] then
      []
    else
      [s[0]] + ReplaceAll(s[1..], pat, rep)
  }

  /** An occurrence in the tail is an occurrence in the whole, one further on. */
  lemma OccursShift(s: string, pat: string, j: nat)
    requires s != []
    ensures OccursAt(s[1..], pat, j) <==> OccursAt(s, pat, j + 1)
  {
    if j + |pat| <= |s| - 1 {
      assert s[1..][j..j + |pat|] == s[j + 1..j + 1 + |pat|];
    }
  }

  lemma ContainsTail(s: string, pat: string)
    requires s != []
    ensures Contains(s[1..], pat) ==> Contains(s, pat)
  {
    if Contains(s[1..], pat) {
      var j: nat :| j <= |s[1..]| && OccursAt(s[1..], pat, j);
      OccursShift(s, pat, j);
      assert OccursAt(s, pat, j + 1);
    }
  }

  /** Every character of a contained pattern occurs in the text. */
  lemma ContainedCharsOccur(s: string, pat: string, k: nat)
    requires Contains(s, pat) && k < |pat|
    ensures pat[k] in s
  {
    var i: nat :| i <= |s| && OccursAt(s, pat, i);
    assert s[i + k] == pat[k];
  }

  /** A text without the pattern comes back unchanged. */
  lemma {:induction false} ReplaceAllAbsent(s: string, pat: string, rep: string)
    requires !Contains(s, pat)
    ensures ReplaceAll(s, pat, rep) == s
    decreases |s|
  {
    assert OccursAt(s, pat, 0) ==> Contains(s, pat);
    if s != [] {
      ContainsTail(s, pat);
      ReplaceAllAbsent(s[1..], pat, rep);
    }
  }

  /**
   * Left-to-right, non-overlapping: when the first occurrence of a non-empty
   * pattern starts at `i`, everything before it is copied, the occurrence
   * becomes `rep`, and the scan continues after the occurrence's end.
   */
  lemma {:induction false} ReplaceAllLeftmost(s: string, pat: string, rep: string, i: nat)
    requires |pat| > 0 && OccursAt(s, pat, i)
    requires forall j: nat :: j < i ==> !OccursAt(s, pat, j)
    ensures ReplaceAll(s, pat, rep) == s[..i] + rep + ReplaceAll(s[i + |pat|..], pat, rep)
    decreases i
  {
    if i > 0 {
      var t := s[1..];
      NoOccurrenceInTail(s, pat, i);
      ReplaceAllLeftmost(t, pat, rep, i - 1);
      ReplaceAllCopiesHead(s, pat, rep);
      assert t[i - 1 + |pat|..] == s[i + |pat|..];
      CopiedHead(s, i, rep, ReplaceAll(s, pat, rep), ReplaceAll(t, pat, rep), ReplaceAll(s[i + |pat|..], pat, rep));
    } else {
      ReplaceAllAtStart(s, pat, rep);
    }
  }

  /** Putting the first character back in front of the copied prefix. */
  lemma CopiedHead(s: string, i: nat, rep: string, whole: string, tail: string, rest: string)
    requires 0 < i <= |s|
    requires whole == [s[0]] + tail && tail == s[1..][..i - 1] + rep + rest
    ensures whole == s[..i] + rep + rest
  {
    assert s[..i] == [s[0]] + s[1..][..i - 1];
  }

  /** The first occurrence in the tail is the first one in the whole, one back. */
  lemma NoOccurrenceInTail(s: string, pat: string, i: nat)
    requires 0 < i && OccursAt(s, pat, i)
    requires forall j: nat :: j < i ==> !OccursAt(s, pat, j)
    ensures OccursAt(s[1..], pat, i - 1)
    ensures forall j: nat :: j < i - 1 ==> !OccursAt(s[1..], pat, j)
  {
    OccursShift(s, pat, i - 1);
    forall j: nat | j < i - 1
      ensures !OccursAt(s[1..], pat, j)
    {
      OccursShift(s, pat, j);
    }
  }

  /** A text starting with a non-empty pattern: that occurrence becomes `rep`. */
  lemma ReplaceAllAtStart(s: string, pat: string, rep: string)
    requires |pat| > 0 && OccursAt(s, pat, 0)
    ensures ReplaceAll(s, pat, rep) == rep + ReplaceAll(s[|pat|..], pat, rep)
  {
  }

  /** A text not starting with a non-empty pattern keeps its first character. */
  lemma ReplaceAllCopiesHead(s: string, pat: string, rep: string)
    requires |pat| > 0 && s != [] && !OccursAt(s, pat, 0)
    ensures ReplaceAll(s, pat, rep) == [s[0]] + ReplaceAll(s[1..], pat, rep)
  {
  }

  /** A non-empty pattern replaced in itself gives the replacement. */
  lemma ReplaceAllWhole(pat: string, rep: string)
    requires |pat| > 0
    ensures ReplaceAll(pat, pat, rep) == rep
  {
    ReplaceAllAtStart(pat, pat, rep);
    assert pat[|pat|..] == [];
  }

  /** Replacing a pattern by itself gives the text back. */
  lemma {:induction false} ReplaceAllSelf(s: string, pat: string)
    ensures ReplaceAll(s, pat, pat) == s
    decreases |s|
  {
    if |pat| == 0 {
      if s != [] {
        ReplaceAllSelf(s[1..], pat);
        assert s == [s[0]] + s[1..];
      }
    } else if OccursAt(s, pat, 0) {
      ReplaceAllSelf(s[|pat|..], pat);
      assert s == s[..|pat|] + s[|pat|..];
    } else if s != [] {
      ReplaceAllSelf(s[1..], pat);
      assert s == [s[0]] + s[1..];
    }
  }

  /** With an empty pattern, `rep` is inserted at each of the |s| + 1 boundaries. */
  lemma {:induction false} ReplaceAllEmptyPattern(s: string, rep: string)
    ensures |ReplaceAll(s, [], rep)| == |s| + (|s| + 1) * |rep|
    decreases |s|
  {
    if s != [] {
      ReplaceAllEmptyPattern(s[1..], rep);
    }
  }

  /**
   * With an empty pattern, the result is `rep`, then the first character,
   * then `rep` again, and so on: block `k` (of length `|rep| + 1`) is `rep`
   * followed by `s[k]`, and the last block is `rep` alone.
   */
  lemma {:induction false} ReplaceAllEmptyPatternAt(s: string, rep: string, k: nat)
    requires k <= |s|
    ensures var r := ReplaceAll(s, [], rep);
      var p := k * (|rep| + 1);
      && p + |rep| <= |r| && r[p..p + |rep|] == rep
      && (k < |s| ==> p + |rep| < |r| && r[p + |rep|] == s[k])
    decreases |s|
  {
    var r := ReplaceAll(s, [], rep);
    ReplaceAllEmptyPattern(s, rep);
    if k > 0 {
      var t := s[1..];
      var r' := ReplaceAll(t, [], rep);
      ReplaceAllEmptyPatternAt(t, rep, k - 1);
      assert r == rep + [s[0]] + r';
      var p := k * (|rep| + 1);
      var q := (k - 1) * (|rep| + 1);
      assert p == q + |rep| + 1;
      assert r[p..p + |rep|] == r'[q..q + |rep|];
      if k < |s| {
        assert r[p + |rep|] == r'[q + |rep|];
      }
    } else if s != [] {
      assert r == rep + [s[0]] + ReplaceAll(s[1..], [], rep);
    }
  }
}
