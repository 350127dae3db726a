/**
 * The parts of Python's `str` that the response cleaning relies on:
 * `str.isspace` (which `str.strip()` uses), `strip()`, `startswith` and
 * slicing with Python's clamping of out-of-range and negative bounds.
 * Strings are sequences of Unicode scalar values; the lone surrogates a
 * Python `str` may hold are not modelled.
 */
module PyStr {

  /** The characters for which Python's `str.isspace` holds, the ones `strip()` removes. */
  predicate IsSpace(c: char) {
    || '\t' <= c <= '\r'             // tab, line feed, vertical tab, form feed, carriage return
    || '\U{1C}' <= c <= '\U{1F}'     // file, group, record and unit separators
    || c == ' '
    || c == '\U{85}'                 // next line
    || c == '\U{A0}'                 // no-break space
    || c == '\U{1680}'
    || '\U{2000}' <= c <= '\U{200A}'
    || c == '\U{2028}' || c == '\U{2029}'
    || c == '\U{202F}' || c == '\U{205F}' || c == '\U{3000}'
  }

  /** No whitespace at either end: what `strip()` leaves. */
  predicate Trimmed(s: string) {
    s == [] || (!IsSpace(s[0]) && !IsSpace(s[|s| - 1]))
  }

  predicate AllSpace(s: string) {
    forall k :: 0 <= k < |s| ==> IsSpace(s[k])
  }

  /** The number of whitespace characters `s` starts with. */
  function LeadingSpace(s: string): (n: nat)
    ensures n <= |s|
    ensures forall k :: 0 <= k < n ==> IsSpace(s[k])
    ensures n < |s| ==> !IsSpace(s[n])
  {
    if s != [] && IsSpace(s[0]) then 1 + LeadingSpace(s[1..]) else 0
  }

  /** The number of whitespace characters `s` ends with. */
  function TrailingSpace(s: string): (n: nat)
    ensures n <= |s|
    ensures forall k :: |s| - n <= k < |s| ==> IsSpace(s[k])
    ensures n < |s| ==> !IsSpace(s[|s| - 1 - n])
  {
    if s != [] && IsSpace(s[|s| - 1]) then 1 + TrailingSpace(s[..|s| - 1]) else 0
  }

  /**
   * Python's `s.strip()`: the longest run of `s` that neither starts nor
   * ends with whitespace, found by dropping whitespace from both ends.
   */
  function Strip(s: string): (r: string)
    ensures LeadingSpace(s) + |r| <= |s|
    ensures Trimmed(r)
    ensures r == s[LeadingSpace(s)..LeadingSpace(s) + |r|]
    ensures forall k :: LeadingSpace(s) + |r| <= k < |s| ==> IsSpace(s[k])
    ensures r == [] <==> AllSpace(s)
  {
    var t := s[LeadingSpace(s)..];
    var n := TrailingSpace(t);
    assert t != [] ==> !IsSpace(t[0]);
    t[..|t| - n]
  }

  /** Stripping removes exactly the whitespace padding around a trimmed text. */
  lemma StripPadded(pre: string, m: string, post: string)
    requires AllSpace(pre) && AllSpace(post) && Trimmed(m)
    ensures Strip(pre + m + post) == m
  {
    var s := pre + m + post;
    var r := Strip(s);
    var i := LeadingSpace(s);
    if m == [] {
      assert AllSpace(s) by {
        forall k | 0 <= k < |s| ensures IsSpace(s[k]) {
          if k < |pre| { assert s[k] == pre[k]; } else { assert s[k] == post[k - |pre|]; }
        }
      }
    } else {
      assert s[|pre|] == m[0];
      assert forall k :: 0 <= k < |pre| ==> s[k] == pre[k];
      assert i == |pre|;
      // the last character of m is kept, so the result reaches at least that far
      assert s[|pre| + |m| - 1] == m[|m| - 1];
      assert i + |r| >= |pre| + |m|;
      // everything after m is whitespace, and the result ends on a non-space
      assert forall k :: |pre| + |m| <= k < |s| ==> s[k] == post[k - |pre| - |m|];
      assert r != [] && s[i + |r| - 1] == r[|r| - 1];
      assert i + |r| <= |pre| + |m|;
      assert r == s[|pre|..|pre| + |m|];
    }
  }

  /** Stripping a text without whitespace at its ends leaves it unchanged. */
  lemma StripKeepsTrimmed(s: string)
    requires Trimmed(s)
    ensures Strip(s) == s
  {
  }

  /** Python's `s.startswith(p)`. */
  predicate StartsWith(s: string, p: string) {
    |p| <= |s| && s[..|p|] == p
  }

  /**
   * How Python turns a slice bound into an index of a sequence of length
   * `n`: a negative bound counts from the end, and the result is clamped
   * into 0..n.
   */
  function ClampIndex(i: int, n: nat): (k: nat)
    ensures k <= n
    ensures 0 <= i <= n ==> k == i
    ensures i < 0 && 0 <= n + i ==> k == n + i
    ensures n + i < 0 ==> k == 0
    ensures n < i ==> k == n
  {
    if i < 0 then (if i + n < 0 then 0 else i + n)
    else if i > n then n
    else i
  }

  /**
   * Python's `s[start:stop]`: never out of range; empty when the clamped
   * stop does not lie beyond the clamped start.
   */
  function Slice(s: string, start: int, stop: int): (r: string)
    ensures |r| <= |s|
    ensures ClampIndex(start, |s|) < ClampIndex(stop, |s|) ==>
              |r| == ClampIndex(stop, |s|) - ClampIndex(start, |s|)
    ensures ClampIndex(stop, |s|) <= ClampIndex(start, |s|) ==> r == []
    ensures forall k :: 0 <= k < |r| ==> r[k] == s[ClampIndex(start, |s|) + k]
  {
    var lo, hi := ClampIndex(start, |s|), ClampIndex(stop, |s|);
    if lo < hi then s[lo..hi] else []
  }
}
