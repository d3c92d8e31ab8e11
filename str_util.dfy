/** Prefix, suffix and substring tests on string views. */
module StrUtil {
  import opened Basics
  import opened StringViews

  /** `needle` occurs in `haystack` starting at position `i`. */
  predicate OccursAt(haystack: seq<char>, needle: seq<char>, i: nat)
  {
    i + |needle| <= |haystack| && haystack[i..i + |needle|] == needle
  }

  /** `string_view::find(s, pos)`: the first position at or after `pos` where
      `needle` occurs, or none (`npos`). */
  function Find(haystack: seq<char>, needle: seq<char>, pos: nat): (r: Option<nat>)
    ensures r.Some? ==> pos <= r.value && OccursAt(haystack, needle, r.value)
    ensures r.Some? ==> forall j :: pos <= j < r.value ==> !OccursAt(haystack, needle, j)
    ensures r.None? ==> forall j :: pos <= j ==> !OccursAt(haystack, needle, j)
    decreases |haystack| - pos
  {
    if pos + |needle| > |haystack| then None
    else if haystack[pos..pos + |needle|] == needle then Some(pos)
    else Find(haystack, needle, pos + 1)
  }

  /** `string_view::find(c)`: the first position holding `c`, or none (`npos`). */
  function FindChar(haystack: seq<char>, c: char, pos: nat): (r: Option<nat>)
    ensures r.Some? ==> pos <= r.value < |haystack| && haystack[r.value] == c
    ensures r.Some? ==> forall j :: pos <= j < r.value ==> haystack[j] != c
    ensures r.None? ==> forall j :: pos <= j < |haystack| ==> haystack[j] != c
    decreases |haystack| - pos
  {
    if pos >= |haystack| then None
    else if haystack[pos] == c then Some(pos)
    else FindChar(haystack, c, pos + 1)
  }

  /** `StrContains(haystack, needle)`: `find` reports a match. */
  predicate StrContains(haystack: seq<char>, needle: seq<char>)
    ensures StrContains(haystack, needle) <==> exists i: nat :: OccursAt(haystack, needle, i)
  {
    Find(haystack, needle, 0).Some?
  }

  /** `StrContains(haystack, c)` for a single character. */
  predicate StrContainsChar(haystack: seq<char>, c: char)
    ensures StrContainsChar(haystack, c) <==> c in haystack
  {
    FindChar(haystack, c, 0).Some?
  }

  /** `StartsWith(text, prefix)`: an empty prefix, or the first bytes of `text`
      compare equal to `prefix`. */
  predicate StartsWith(text: seq<char>, prefix: seq<char>)
    ensures StartsWith(text, prefix) <==> |prefix| <= |text| && text[..|prefix|] == prefix
  {
    |prefix| == 0 || (|text| >= |prefix| && MemCmp(text, prefix, |prefix|) == 0)
  }

  /** `EndsWith(text, suffix)`: an empty suffix, or the last bytes of `text`
      compare equal to `suffix`. */
  predicate EndsWith(text: seq<char>, suffix: seq<char>)
    ensures EndsWith(text, suffix) <==> |suffix| <= |text| && text[|text| - |suffix|..] == suffix
  {
    |suffix| == 0
    || (|text| >= |suffix| && MemCmp(text[|text| - |suffix|..], suffix, |suffix|) == 0)
  }

  /** A prefix or a suffix of a text is contained in it. */
  lemma AffixesAreContained(text: seq<char>, affix: seq<char>)
    ensures StartsWith(text, affix) ==> StrContains(text, affix)
    ensures EndsWith(text, affix) ==> StrContains(text, affix)
  {
    if StartsWith(text, affix) {
      assert OccursAt(text, affix, 0);
    }
    if EndsWith(text, affix) {
      assert OccursAt(text, affix, |text| - |affix|);
    }
  }

  /** Every text starts and ends with itself and with the empty string, and
      nothing longer than the text is a prefix or a suffix of it. */
  lemma AffixBounds(text: seq<char>, affix: seq<char>)
    ensures StartsWith(text, []) && EndsWith(text, [])
    ensures StartsWith(text, text) && EndsWith(text, text)
    ensures |affix| > |text| ==> !StartsWith(text, affix) && !EndsWith(text, affix)
  {
  }
}
