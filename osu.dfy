/**
 * The "already downloaded?" check over the names of the entries of osu!'s
 * Songs directory, in the order the directory yields them.
 */
module Osu {
  import opened Wrappers
  import opened Strings
  import opened Decimal

  /** Index of the first entry whose name contains `needle`. */
  function FirstMatch(entries: seq<string>, needle: string): (r: Option<nat>)
    ensures r.Some? ==> r.value < |entries| && Contains(entries[r.value], needle)
    ensures r.Some? ==> forall k :: 0 <= k < r.value ==> !Contains(entries[k], needle)
    ensures r.None? <==> forall k :: 0 <= k < |entries| ==> !Contains(entries[k], needle)
  {
    if entries == [] then None
    else if Contains(entries[0], needle) then Some(0)
    else match FirstMatch(entries[1..], needle)
      case Some(k) => Some(k + 1)
      case None => None
  }

  /**
   * `find_beatmap`: the entries are scanned in order and `Some(true)` is
   * returned at the first name containing the id's decimal text; otherwise
   * `None`. It never answers `Some(false)`.
   */
  method FindBeatmap(entries: seq<string>, id: i32) returns (r: Option<bool>)
    ensures r == Some(true) <==> exists k :: 0 <= k < |entries| && Contains(entries[k], IntToDecimal(id))
    ensures r == None <==> forall k :: 0 <= k < |entries| ==> !Contains(entries[k], IntToDecimal(id))
    ensures r == (if FirstMatch(entries, IntToDecimal(id)).Some? then Some(true) else None)
  {
    var needle := IntToDecimal(id);
    var i := 0;
    while i < |entries|
      invariant 0 <= i <= |entries|
      invariant forall k :: 0 <= k < i ==> !Contains(entries[k], needle)
    {
      if Contains(entries[i], needle) {
        return Some(true);
      }
      i := i + 1;
    }
    return None;
  }

  /** The scan stops at the first match: whatever follows it does not matter. */
  lemma FirstMatchIgnoresLater(entries: seq<string>, rest: seq<string>, needle: string, k: nat)
    requires FirstMatch(entries, needle) == Some(k)
    ensures FirstMatch(entries[..k + 1] + rest, needle) == Some(k)
  {
    var e := entries[..k + 1] + rest;
    assert forall j :: 0 <= j <= k ==> e[j] == entries[j];
  }

  /** Matching is by substring: set 42 counts as present when only "1042.osz" exists. */
  lemma MatchIsSubstring()
    ensures IntToDecimal(42) == "42"
    ensures Contains("1042.osz", IntToDecimal(42))
    ensures "1042.osz" != IntToDecimal(42) + ".osz"
  {
    assert OccursAt("1042.osz", "42", 2);
  }

  /** A negative id is searched for with its minus sign. */
  lemma NegativeIdKeepsSign()
    ensures IntToDecimal(-7) == "-7"
    ensures !Contains("7.osz", IntToDecimal(-7))
  {
    assert '-' !in "7.osz";
    if Contains("7.osz", "-7") {
      ContainedCharsOccur("7.osz", "-7", 0);
    }
  }
}
