/** Case-insensitive string searching as the handlers use it: `str.lower()` followed by
    `in`, `find`-style scans and `rfind`, and `str.endswith`. Case folding is ASCII only,
    so a string and its lower-cased form have the same length and the same indices. */
module Text {
  import opened Wrappers

  /** ASCII lower-casing of one character. */
  function Lower(c: char): char {
    if 'A' <= c <= 'Z' then (c as int + 32) as char else c
  }

  /** The pattern `t`, written in lower case, occurs in `s` at index `p` when upper and
      lower case letters of `s` are not distinguished. */
  predicate MatchesAt(s: string, t: string, p: nat) {
    p + |t| <= |s| && forall j :: 0 <= j < |t| ==> Lower(s[p + j]) == t[j]
  }

  /** The first index at or after `from` where `t` occurs in `s` ignoring case. */
  function FindFrom(s: string, t: string, from: nat): (r: Option<nat>)
    decreases |s| - from
    ensures r.Some? ==> from <= r.value && MatchesAt(s, t, r.value)
    ensures forall k :: from <= k && (r.None? || k < r.value) ==> !MatchesAt(s, t, k)
  {
    if from + |t| > |s| then None
    else if MatchesAt(s, t, from) then Some(from)
    else FindFrom(s, t, from + 1)
  }

  /** `t in s.lower()`. */
  predicate Occurs(s: string, t: string) {
    FindFrom(s, t, 0).Some?
  }

  lemma OccursIff(s: string, t: string)
    ensures Occurs(s, t) <==> exists p :: MatchesAt(s, t, p)
  {
    if Occurs(s, t) {
      assert MatchesAt(s, t, FindFrom(s, t, 0).value);
    }
  }

  /** The last index at or before `p` where `t` occurs in `s` ignoring case. */
  function LastAtOrBefore(s: string, t: string, p: nat): (r: Option<nat>)
    decreases p
    ensures r.Some? ==> r.value <= p && MatchesAt(s, t, r.value)
    ensures forall k: nat :: k <= p && (r.None? || r.value < k) ==> !MatchesAt(s, t, k)
  {
    if MatchesAt(s, t, p) then Some(p)
    else if p == 0 then None
    else LastAtOrBefore(s, t, p - 1)
  }

  /** `s.lower().rfind(t)`, with `None` for Python's -1. */
  function FindLast(s: string, t: string): (r: Option<nat>)
    ensures r.Some? ==> MatchesAt(s, t, r.value)
    ensures forall k :: (r.None? || r.value < k) ==> !MatchesAt(s, t, k)
  {
    if |t| > |s| then None else LastAtOrBefore(s, t, |s| - |t|)
  }

  /** Occurrences of `t` in `s[i..]` are the occurrences in `s` at or after `i`. */
  lemma MatchesInDrop(s: string, t: string, i: nat, q: nat)
    requires i <= |s|
    ensures MatchesAt(s[i..], t, q) <==> MatchesAt(s, t, i + q)
  {
    if MatchesAt(s, t, i + q) {
      assert forall j :: 0 <= j < |t| ==> (Lower(s[i..][q + j]) == t[j] <==> Lower(s[i + q + j]) == t[j]);
    }
  }

  /** An occurrence that lies within `a` is an occurrence in `a + b`, and conversely. */
  lemma MatchesInPrefix(a: string, b: string, t: string, q: nat)
    requires q + |t| <= |a|
    ensures MatchesAt(a + b, t, q) <==> MatchesAt(a, t, q)
  {
    assert forall j :: 0 <= j < |t| ==> (Lower((a + b)[q + j]) == t[j] <==> Lower(a[q + j]) == t[j]);
  }

  /** Occurrences in `b` are the occurrences in `a + b` after `a`, shifted by `|a|`. */
  lemma MatchesInSuffix(a: string, b: string, t: string, q: nat)
    ensures MatchesAt(a + b, t, |a| + q) <==> MatchesAt(b, t, q)
  {
    assert forall j :: 0 <= j < |t| && |a| + q + j < |a + b| ==>
      (Lower((a + b)[|a| + q + j]) == t[j] <==> Lower(b[q + j]) == t[j]);
  }

  /** An occurrence that lies inside `s[lo..hi]` is an occurrence in that slice. */
  lemma OccursInSlice(s: string, t: string, lo: nat, hi: nat, m: nat)
    requires lo <= m && m + |t| <= hi <= |s| && MatchesAt(s, t, m)
    ensures Occurs(s[lo..hi], t)
  {
    assert forall j :: 0 <= j < |t| ==> (Lower(s[lo..hi][m - lo + j]) == t[j] <==> Lower(s[m + j]) == t[j]);
    assert MatchesAt(s[lo..hi], t, m - lo);
    OccursIff(s[lo..hi], t);
  }

  /** `s.endswith(suffix)`. */
  predicate EndsWith(s: string, suffix: string) {
    |suffix| <= |s| && s[|s| - |suffix|..] == suffix
  }

  lemma EndsWithIff(s: string, suffix: string)
    ensures EndsWith(s, suffix) <==> exists head: string :: s == head + suffix
  {
    if EndsWith(s, suffix) {
      assert s == s[..|s| - |suffix|] + suffix;
    }
    if exists head: string :: s == head + suffix {
      var head: string :| s == head + suffix;
      assert s[|s| - |suffix|..] == suffix;
    }
  }

  /** The decimal digit character for `d`. */
  function DigitChar(d: nat): char
    requires d < 10
  {
    ('0' as int + d) as char
  }

  predicate IsDigits(s: string) {
    forall i :: 0 <= i < |s| ==> '0' <= s[i] <= '9'
  }

  /** `str(n)` for a non-negative integer: its decimal representation. */
  function NatToString(n: nat): (r: string)
    decreases n
    ensures |r| > 0 && IsDigits(r)
  {
    if n < 10 then [DigitChar(n)] else NatToString(n / 10) + [DigitChar(n % 10)]
  }

  /** The number a string of decimal digits denotes. */
  function DecimalValue(s: string): nat
    requires IsDigits(s)
  {
    if s == [] then 0 else 10 * DecimalValue(s[..|s| - 1]) + (s[|s| - 1] as int - '0' as int)
  }

  lemma {:induction false} DecimalRoundTrip(n: nat)
    ensures DecimalValue(NatToString(n)) == n
    decreases n
  {
    if n >= 10 {
      DecimalRoundTrip(n / 10);
      var s := NatToString(n);
      assert s[..|s| - 1] == NatToString(n / 10);
    }
  }

  lemma NatToStringInjective(m: nat, n: nat)
    ensures NatToString(m) == NatToString(n) ==> m == n
  {
    DecimalRoundTrip(m);
    DecimalRoundTrip(n);
  }
}
