/** The footer search of the page publisher (lambdas/s3_upload.py, line 120): the
    `<footer…>…</footer>` fragments that `re.finditer` finds in a page, matching
    without regard to case and letting `.` match line breaks. */
module FooterScan {
  import opened Wrappers
  import opened Text

  /** What the search looks for, in lower case. */
  const OpenTag := "<footer"
  const CloseTag := "</footer>"

  /** A fragment `s[start..end]` found by the footer search. */
  datatype Fragment = Fragment(start: nat, end: nat)

  /** The end of a match of `<footer.*?>.*?</footer>` (ignoring case, `.` matching line
      breaks) that starts at `p`. Both lazy parts take the first candidate: the first `>`
      after `<footer`, then the first `</footer>` after that `>`. Moving either one
      later can only move the end later, so no backtracking is needed. */
  function MatchAt(s: string, p: nat): (r: Option<nat>)
    ensures r.Some? ==> p + |OpenTag| + 1 + |CloseTag| <= r.value <= |s|
    ensures r.Some? ==> MatchesAt(s, OpenTag, p) && MatchesAt(s, CloseTag, r.value - |CloseTag|)
  {
    if !MatchesAt(s, OpenTag, p) then None
    else match FindFrom(s, ">", p + |OpenTag|)
      case None => None
      case Some(g) =>
        match FindFrom(s, CloseTag, g + 1)
        case None => None
        case Some(k) => Some(k + |CloseTag|)
  }

  /** The regex matches at `p` exactly when `<footer` is there and some `>` after it is
      followed by some `</footer>`; the match then ends after one such `</footer>`, and
      no such end is earlier: it is the shortest one. */
  lemma MatchAtSpec(s: string, p: nat)
    ensures MatchAt(s, p).Some? <==>
      MatchesAt(s, OpenTag, p) &&
      exists g: nat, k: nat :: p + |OpenTag| <= g < k && MatchesAt(s, ">", g) && MatchesAt(s, CloseTag, k)
    ensures MatchAt(s, p).Some? ==>
      exists g: nat, k: nat :: p + |OpenTag| <= g < k && MatchesAt(s, ">", g) && MatchesAt(s, CloseTag, k) &&
        MatchAt(s, p).value == k + |CloseTag|
    ensures MatchAt(s, p).Some? ==>
      forall g: nat, k: nat :: p + |OpenTag| <= g < k && MatchesAt(s, ">", g) && MatchesAt(s, CloseTag, k) ==>
        MatchAt(s, p).value <= k + |CloseTag|
  {
    if MatchAt(s, p).Some? {
      var g := FindFrom(s, ">", p + |OpenTag|).value;
      var k := FindFrom(s, CloseTag, g + 1).value;
      assert p + |OpenTag| <= g < k && MatchesAt(s, ">", g) && MatchesAt(s, CloseTag, k);
    }
    if MatchesAt(s, OpenTag, p) &&
       exists g: nat, k: nat :: p + |OpenTag| <= g < k && MatchesAt(s, ">", g) && MatchesAt(s, CloseTag, k)
    {
      var g: nat, k: nat :| p + |OpenTag| <= g < k && MatchesAt(s, ">", g) && MatchesAt(s, CloseTag, k);
      var g0 := FindFrom(s, ">", p + |OpenTag|);
      assert g0.Some? && g0.value <= g;
      var k0 := FindFrom(s, CloseTag, g0.value + 1);
      assert k0.Some? && k0.value <= k;
    }
  }

  /** `re.finditer` from `p`: try a match at each position in turn; after a match, go on
      at its end. */
  function Scan(s: string, p: nat): (r: seq<Fragment>)
    decreases |s| - p
    ensures forall i :: 0 <= i < |r| ==> p <= r[i].start && MatchAt(s, r[i].start) == Some(r[i].end)
    ensures forall i, j :: 0 <= i < j < |r| ==> r[i].end <= r[j].start
  {
    if p >= |s| then []
    else match MatchAt(s, p)
      case Some(e) =>
        var rest := Scan(s, e);
        assert forall i :: 0 < i <= |rest| ==> ([Fragment(p, e)] + rest)[i] == rest[i - 1];
        [Fragment(p, e)] + rest
      case None => Scan(s, p + 1)
  }

  /** `frags` is what a left-to-right search from `p` for non-overlapping matches finds:
      no match starts between `p` and the first fragment, the first fragment is a match,
      and the rest is such a search from its end; with no fragments, no match starts at
      or after `p`. */
  ghost predicate IsSearch(s: string, p: nat, frags: seq<Fragment>)
    decreases |frags|
  {
    if frags == [] then forall q: nat :: p <= q ==> MatchAt(s, q).None?
    else
      p <= frags[0].start &&
      (forall q: nat :: p <= q < frags[0].start ==> MatchAt(s, q).None?) &&
      MatchAt(s, frags[0].start) == Some(frags[0].end) &&
      IsSearch(s, frags[0].end, frags[1..])
  }

  lemma ScanAtMatch(s: string, p: nat, e: nat)
    requires p < |s| && MatchAt(s, p) == Some(e)
    ensures Scan(s, p) == [Fragment(p, e)] + Scan(s, e)
  {
  }

  lemma ScanPastNoMatch(s: string, p: nat)
    requires p < |s| && MatchAt(s, p).None?
    ensures Scan(s, p) == Scan(s, p + 1)
  {
  }

  lemma SearchCons(s: string, p: nat, e: nat, rest: seq<Fragment>)
    requires MatchAt(s, p) == Some(e) && IsSearch(s, e, rest)
    ensures IsSearch(s, p, [Fragment(p, e)] + rest)
  {
    assert ([Fragment(p, e)] + rest)[1..] == rest;
  }

  lemma SearchSkip(s: string, p: nat, frags: seq<Fragment>)
    requires MatchAt(s, p).None?
    ensures IsSearch(s, p + 1, frags) <==> IsSearch(s, p, frags)
  {
    if frags != [] && IsSearch(s, p, frags) {
      assert frags[0].start != p;
    }
  }

  lemma SearchHead(s: string, p: nat, e: nat, frags: seq<Fragment>)
    requires MatchAt(s, p) == Some(e) && IsSearch(s, p, frags)
    ensures frags == [Fragment(p, e)] + frags[1..] && IsSearch(s, e, frags[1..])
  {
    assert frags != [] && frags[0].start == p;
  }

  lemma SearchBeyond(s: string, p: nat, frags: seq<Fragment>)
    requires |s| <= p && IsSearch(s, p, frags)
    ensures frags == []
  {
  }

  /** The scan is such a search ... */
  lemma {:induction false} ScanIsSearch(s: string, p: nat)
    decreases |s| - p
    ensures IsSearch(s, p, Scan(s, p))
  {
    if p >= |s| {
    } else if MatchAt(s, p).Some? {
      var e := MatchAt(s, p).value;
      ScanIsSearch(s, e);
      ScanAtMatch(s, p, e);
      SearchCons(s, p, e, Scan(s, e));
    } else {
      ScanIsSearch(s, p + 1);
      ScanPastNoMatch(s, p);
      SearchSkip(s, p, Scan(s, p + 1));
    }
  }

  /** ... and the only one. */
  lemma {:induction false} SearchUnique(s: string, p: nat, frags: seq<Fragment>)
    requires IsSearch(s, p, frags)
    decreases |s| - p
    ensures frags == Scan(s, p)
  {
    if p >= |s| {
      SearchBeyond(s, p, frags);
    } else if MatchAt(s, p).Some? {
      var e := MatchAt(s, p).value;
      SearchHead(s, p, e, frags);
      SearchUnique(s, e, frags[1..]);
      ScanAtMatch(s, p, e);
    } else {
      SearchSkip(s, p, frags);
      SearchUnique(s, p + 1, frags);
      ScanPastNoMatch(s, p);
    }
  }

  /** `re.finditer` over the whole page: its fragments, in document order. */
  function Footers(s: string): seq<Fragment> {
    Scan(s, 0)
  }

  /** Where no `<footer` starts, the scan finds nothing. */
  lemma {:induction false} ScanFindsNothing(s: string, p: nat)
    requires forall q: nat :: p <= q ==> !MatchesAt(s, OpenTag, q)
    decreases |s| - p
    ensures Scan(s, p) == []
  {
    if p < |s| {
      ScanPastNoMatch(s, p);
      ScanFindsNothing(s, p + 1);
    }
  }

  /** A match from `p <= o` where the match from `o` ends at `e`, when a `>` sits right
      after the `<footer` at `o` and no `</footer>` starts after `o - 9` and before the
      one that ends that match: it ends at `e` too, or at or before `o`. */
  lemma MatchBefore(s: string, p: nat, o: nat, e: nat)
    requires p <= o && MatchAt(s, o) == Some(e) && MatchesAt(s, ">", o + |OpenTag|)
    requires forall k: nat :: o < k + |CloseTag| < e ==> !MatchesAt(s, CloseTag, k)
    requires MatchAt(s, p).Some?
    ensures MatchAt(s, p).value == e || MatchAt(s, p).value <= o
  {
    var g := FindFrom(s, ">", p + |OpenTag|);
    assert g.Some? && g.value <= o + |OpenTag|;
    var k := FindFrom(s, CloseTag, g.value + 1);
    assert k.Some? && k.value <= e - |CloseTag|;
    assert MatchAt(s, p) == Some(k.value + |CloseTag|);
  }

  /** `r` is nonempty, and its last fragment ends at `e` and starts at or before `o`. */
  ghost predicate EndsAt(r: seq<Fragment>, o: nat, e: nat) {
    |r| > 0 && r[|r| - 1].end == e && r[|r| - 1].start <= o
  }

  lemma LastAfterFirst(f: Fragment, rest: seq<Fragment>, o: nat, e: nat)
    requires EndsAt(rest, o, e)
    ensures EndsAt([f] + rest, o, e)
  {
    assert ([f] + rest)[|rest|] == rest[|rest| - 1];
  }

  /** Where the search goes on after trying `p`. */
  function Next(s: string, p: nat): nat {
    match MatchAt(s, p)
    case Some(m) => m
    case None => p + 1
  }

  /** Scanning from `p` is the fragment found at `p`, if any, then scanning from Next. */
  lemma ScanStep(s: string, p: nat)
    requires p < |s|
    ensures MatchAt(s, p).Some? ==> Scan(s, p) == [Fragment(p, Next(s, p))] + Scan(s, Next(s, p))
    ensures MatchAt(s, p).None? ==> Scan(s, p) == Scan(s, Next(s, p))
  {
  }

  /** With the conditions of ScanEndsAt, the search from `p <= o` goes on beyond `p`,
      and either at `e` or at or before `o`. */
  lemma NextStep(s: string, p: nat, o: nat, e: nat)
    requires p <= o && MatchAt(s, o) == Some(e)
    requires forall q: nat :: q <= o ==> EndsNear(s, q, o, e)
    ensures p < |s| && p < Next(s, p) && (Next(s, p) == e || Next(s, p) <= o)
  {
    assert EndsNear(s, p, o, e);
  }

  lemma EndsAtStep(s: string, p: nat, o: nat, e: nat)
    requires p <= o && p < |s| && Scan(s, e) == []
    requires Next(s, p) == e ==> MatchAt(s, p).Some?
    requires Next(s, p) != e ==> EndsAt(Scan(s, Next(s, p)), o, e)
    ensures EndsAt(Scan(s, p), o, e)
  {
    ScanStep(s, p);
    if MatchAt(s, p).Some? && Next(s, p) != e {
      LastAfterFirst(Fragment(p, Next(s, p)), Scan(s, Next(s, p)), o, e);
    }
  }

  /** A match from `q`, if any, ends at `e` or at or before `o`. */
  ghost predicate EndsNear(s: string, q: nat, o: nat, e: nat) {
    MatchAt(s, q).None? || MatchAt(s, q).value == e || MatchAt(s, q).value <= o
  }

  /** If a match from `o` ends at `e`, nothing is found from `e` on, and every match
      from a position up to `o` ends at `e` or at or before `o`, then every scan from
      `p <= o` ends with a fragment that ends at `e` and starts at or before `o`. */
  lemma {:induction false} ScanEndsAt(s: string, p: nat, o: nat, e: nat)
    requires p <= o && MatchAt(s, o) == Some(e) && Scan(s, e) == []
    requires forall q: nat :: q <= o ==> EndsNear(s, q, o, e)
    decreases o - p
    ensures EndsAt(Scan(s, p), o, e)
  {
    NextStep(s, p, o, e);
    if Next(s, p) != e {
      ScanEndsAt(s, Next(s, p), o, e);
    }
    EndsAtStep(s, p, o, e);
  }

  /** The last fragment of a page ends where the match from `o` ends, and starts at or
      before `o`, when a `>` sits right after the `<footer` at `o`, no `</footer>`
      starts after `o - 9` before the one that ends that match, and no `<footer` starts
      after it. It may start before `o`: an earlier `<footer` whose `>` comes later
      yields a fragment that covers the one from `o`. */
  lemma LastFooterIs(s: string, o: nat, e: nat)
    requires MatchAt(s, o) == Some(e) && MatchesAt(s, ">", o + |OpenTag|)
    requires forall k: nat :: o < k + |CloseTag| < e ==> !MatchesAt(s, CloseTag, k)
    requires forall q: nat :: e <= q ==> !MatchesAt(s, OpenTag, q)
    ensures EndsAt(Footers(s), o, e)
  {
    forall q: nat | q <= o
      ensures EndsNear(s, q, o, e)
    {
      if MatchAt(s, q).Some? {
        MatchBefore(s, q, o, e);
      }
    }
    ScanFindsNothing(s, e);
    ScanEndsAt(s, 0, o, e);
  }

  /** Every fragment starts with `<footer` and ends with `</footer>`, in any case, and
      the fragments follow one another in document order without overlapping. */
  lemma FootersWellFormed(s: string)
    ensures var r := Footers(s);
      forall i :: 0 <= i < |r| ==>
        r[i].start + |OpenTag| + 1 + |CloseTag| <= r[i].end <= |s| &&
        MatchesAt(s, OpenTag, r[i].start) && MatchesAt(s, CloseTag, r[i].end - |CloseTag|)
    ensures var r := Footers(s);
      forall i, j :: 0 <= i < j < |r| ==> r[i].end <= r[j].start
  {
    var r := Footers(s);
    forall i | 0 <= i < |r|
      ensures r[i].start + |OpenTag| + 1 + |CloseTag| <= r[i].end <= |s|
      ensures MatchesAt(s, OpenTag, r[i].start) && MatchesAt(s, CloseTag, r[i].end - |CloseTag|)
    {
      assert MatchAt(s, r[i].start) == Some(r[i].end);
    }
  }

  /** The fragments of a page are exactly the left-to-right search's fragments. */
  lemma FootersAreTheSearch(s: string, frags: seq<Fragment>)
    ensures IsSearch(s, 0, Footers(s))
    ensures IsSearch(s, 0, frags) ==> frags == Footers(s)
  {
    ScanIsSearch(s, 0);
    if IsSearch(s, 0, frags) {
      SearchUnique(s, 0, frags);
    }
  }
}
