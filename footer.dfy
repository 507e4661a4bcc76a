/** Footer enrichment of the page publisher (lambdas/s3_upload.py, lines 119-140): look
    at the last footer fragment of a page and splice FOOTER_HTML in before the last
    `</body>` when that fragment lacks the brand name. */
module Footer {
  import opened Wrappers
  import opened Text
  import opened FooterScan
  import opened FooterHtml

  const BodyClose := "</body>"

  /** The last fragment needs a footer added: no fragment exists, or the last one does
      not contain "boxshop" in any case. Earlier fragments play no part. */
  predicate NeedsFooter(s: string) {
    var r := Footers(s);
    |r| == 0 || !Occurs(s[r[|r| - 1].start..r[|r| - 1].end], Marker)
  }

  /** Where FOOTER_HTML goes: before the last `</body>` in any case, or at the end. */
  function SpliceIndex(s: string): (i: nat)
    ensures i <= |s|
    ensures Occurs(s, BodyClose) ==> MatchesAt(s, BodyClose, i) && forall k :: i < k ==> !MatchesAt(s, BodyClose, k)
    ensures !Occurs(s, BodyClose) ==> i == |s|
  {
    OccursIff(s, BodyClose);
    match FindLast(s, BodyClose)
    case Some(i) => i
    case None => |s|
  }

  /** The result of enrichment: the page to upload and the `footer_added` flag. */
  datatype Enrichment = Enrichment(content: string, footerAdded: bool)

  /** Lines 119-140 with the footer block `f` in place of FOOTER_HTML: when the last
      fragment needs a footer, `f` goes in before the last `</body>`, or at the end. */
  function InsertFooter(s: string, f: string): Enrichment {
    if NeedsFooter(s) then
      var i := SpliceIndex(s);
      Enrichment(s[..i] + f + s[i..], true)
    else Enrichment(s, false)
  }

  /** Lines 119-140: the enrichment the page publisher applies. */
  function Enrich(s: string): Enrichment {
    InsertFooter(s, FOOTER_HTML)
  }

  /** When the last fragment already names the brand, the page is left exactly as it
      is and `footer_added` is false. */
  lemma KeepsBrandedPage(s: string, f: string)
    requires !NeedsFooter(s)
    ensures InsertFooter(s, f) == Enrichment(s, false)
  {
  }

  /** A footer is needed exactly when the left-to-right search for footer fragments
      finds none, or the last one it finds does not contain "boxshop" in any case. */
  lemma NeedsFooterMeaning(s: string, frags: seq<Fragment>)
    requires IsSearch(s, 0, frags)
    ensures NeedsFooter(s) <==>
      frags == [] ||
      (frags[|frags| - 1].start <= frags[|frags| - 1].end <= |s| &&
       !Occurs(s[frags[|frags| - 1].start..frags[|frags| - 1].end], Marker))
  {
    FootersAreTheSearch(s, frags);
    var r := Footers(s);
    assert frags == r;
    if r != [] {
      FootersWellFormed(s);
      var l := r[|r| - 1];
      assert l.start <= l.end <= |s|;
    }
  }

  /** The inserted page is the original page cut at the splice point with the block in
      between; without a footer needed, it is the original page. */
  lemma SpliceLayout(s: string, f: string)
    ensures var t, i := InsertFooter(s, f).content, SpliceIndex(s);
      if NeedsFooter(s) then
        |t| == |s| + |f| && t[..i] == s[..i] && t[i..i + |f|] == f && t[i + |f|..] == s[i..]
      else t == s
  {
    if NeedsFooter(s) {
      var t, i := InsertFooter(s, f).content, SpliceIndex(s);
      assert t == s[..i] + f + s[i..];
      assert t[..i] == s[..i];
      assert t[i..i + |f|] == f;
      assert t[i + |f|..] == s[i..];
    }
  }

  /** The splice index is the only last `</body>`. */
  lemma SpliceIndexIsLastBodyClose(s: string, i: nat)
    requires MatchesAt(s, BodyClose, i) && forall k :: i < k ==> !MatchesAt(s, BodyClose, k)
    ensures SpliceIndex(s) == i
  {
    OccursIff(s, BodyClose);
  }

  /** When a footer is needed and the page has a `</body>` in any case, the block goes
      in just before the last one. */
  lemma SplicesBeforeBodyClose(s: string, f: string, i: nat)
    requires NeedsFooter(s)
    requires MatchesAt(s, BodyClose, i) && forall k :: i < k ==> !MatchesAt(s, BodyClose, k)
    ensures i <= |s| && InsertFooter(s, f) == Enrichment(s[..i] + f + s[i..], true)
  {
    SpliceIndexIsLastBodyClose(s, i);
  }

  /** When a footer is needed and there is no `</body>`, the block is appended. */
  lemma AppendsWithoutBodyClose(s: string, f: string)
    requires NeedsFooter(s) && !Occurs(s, BodyClose)
    ensures InsertFooter(s, f) == Enrichment(s + f, true)
  {
    var i := SpliceIndex(s);
    assert s[..i] == s && s[i..] == [];
  }

  /** The page grows by exactly the block when, and only when, the footer is added. */
  lemma GrowsByFooter(s: string, f: string)
    ensures InsertFooter(s, f).footerAdded == NeedsFooter(s)
    ensures |InsertFooter(s, f).content| == |s| + if NeedsFooter(s) then |f| else 0
  {
  }

  /** No `</footer>` of `t = a + f + b` starts after `|a| - 8` and before the one at
      `|a| + CloseAt`: the line break that opens `f` cuts any earlier one, and inside
      `f` no `<` before CloseAt starts one. */
  lemma NoCloseBeforeInjected(t: string, a: string, f: string, b: string)
    requires t == a + f + b && CloseAt + |CloseTag| <= |f| && f[0] == '\n'
    requires forall j :: 0 <= j < CloseAt && f[j] == '<' ==>
      j + 2 < |f| && (f[j + 1] != '/' || Lower(f[j + 2]) != 'f')
    ensures forall k: nat :: |a| + 1 < k + |CloseTag| && k < |a| + CloseAt ==> !MatchesAt(t, CloseTag, k)
  {
    forall k: nat | |a| + 1 < k + |CloseTag| && k < |a| + CloseAt
      ensures !MatchesAt(t, CloseTag, k)
    {
      if k < |a| {
        var j := |a| - k;
        assert t[k + j] == f[0];
        assert Lower(t[k + j]) != CloseTag[j];
      } else {
        var j := k - |a|;
        assert t[k] == f[j] && t[k + 1] == f[j + 1] && t[k + 2] == f[j + 2];
        if f[j] != '<' {
          assert Lower(t[k]) != CloseTag[0];
        } else if f[j + 1] != '/' {
          assert Lower(t[k + 1]) != CloseTag[1];
        } else {
          assert Lower(t[k + 2]) != CloseTag[2];
        }
      }
    }
  }

  /** No `<footer` of `t = a + f + b` starts at or after `|a| + 2` when none starts in
      `b` and no `<` of `f` from index 2 on starts one. */
  lemma NoOpenAfterInjected(t: string, a: string, f: string, b: string)
    requires t == a + f + b && forall q: nat :: !MatchesAt(b, OpenTag, q)
    requires forall j :: 2 <= j < |f| && f[j] == '<' ==> j + 1 < |f| && Lower(f[j + 1]) != 'f'
    ensures forall q: nat :: |a| + 2 <= q ==> !MatchesAt(t, OpenTag, q)
  {
    forall q: nat | |a| + 2 <= q
      ensures !MatchesAt(t, OpenTag, q)
    {
      if q < |a| + |f| {
        var j := q - |a|;
        assert t[q] == f[j];
        if f[j] != '<' {
          assert Lower(t[q]) != OpenTag[0];
        } else {
          assert t[q + 1] == f[j + 1];
          assert Lower(t[q + 1]) != OpenTag[1];
        }
      } else {
        MatchesInSuffix(a + f, b, OpenTag, q - |a| - |f|);
      }
    }
  }

  /** In `t = a + f + b`, the match from the `<footer` of `f` ends with the `</footer>`
      at CloseAt, and the brand name lies inside it. */
  lemma InjectedMatch(t: string, a: string, f: string, b: string)
    requires t == a + f + b && CloseAt + |CloseTag| <= |f|
    requires MatchesAt(f, OpenTag, 1) && MatchesAt(f, ">", 8) && MatchesAt(f, CloseTag, CloseAt)
    requires MatchesAt(f, Marker, MarkerAt)
    requires forall k: nat :: |a| + 1 < k + |CloseTag| && k < |a| + CloseAt ==> !MatchesAt(t, CloseTag, k)
    ensures MatchesAt(t, ">", |a| + 8) && MatchesAt(t, Marker, |a| + MarkerAt)
    ensures MatchAt(t, |a| + 1) == Some(|a| + CloseAt + |CloseTag|)
  {
    var n := |a|;
    assert t == a + (f + b);
    MatchesInPrefix(f, b, OpenTag, 1);
    MatchesInSuffix(a, f + b, OpenTag, 1);
    MatchesInPrefix(f, b, ">", 8);
    MatchesInSuffix(a, f + b, ">", 8);
    MatchesInPrefix(f, b, CloseTag, CloseAt);
    MatchesInSuffix(a, f + b, CloseTag, CloseAt);
    MatchesInPrefix(f, b, Marker, MarkerAt);
    MatchesInSuffix(a, f + b, Marker, MarkerAt);
    assert FindFrom(t, ">", n + 1 + |OpenTag|) == Some(n + 8);
    var k := FindFrom(t, CloseTag, n + 9);
    assert k.Some? && k.value <= n + CloseAt;
    assert k == Some(n + CloseAt);
  }

  /** What splicing relies on about a footer block `f`: it starts with a line break and
      a `<footer` whose first `>` follows at once; the `</footer>` at CloseAt is the
      first one, with the brand name before it; and no `<footer` starts after index 1. */
  ghost predicate SpliceSafe(f: string) {
    CloseAt + |CloseTag| <= |f| && f[0] == '\n' &&
    MatchesAt(f, OpenTag, 1) && MatchesAt(f, ">", 8) && MatchesAt(f, CloseTag, CloseAt) &&
    MatchesAt(f, Marker, MarkerAt) && 1 <= MarkerAt && MarkerAt + |Marker| <= CloseAt &&
    (forall j :: 2 <= j < |f| && f[j] == '<' ==> j + 1 < |f| && Lower(f[j + 1]) != 'f') &&
    (forall j :: 0 <= j < CloseAt && f[j] == '<' ==> j + 2 < |f| && (f[j + 1] != '/' || Lower(f[j + 2]) != 'f'))
  }

  lemma FooterIsSpliceSafe()
    ensures SpliceSafe(FOOTER_HTML)
  {
    ElementShape();
    FooterGuards();
  }

  /** A splice-safe block holds exactly one `<footer`, at index 1. */
  lemma OpensOnce(f: string)
    requires SpliceSafe(f)
    ensures forall q: nat :: MatchesAt(f, OpenTag, q) <==> q == 1
  {
    assert f == "" + f + "";
    NoOpenAfterInjected(f, "", f, "");
    assert Lower(f[0]) != OpenTag[0];
  }

  /** FOOTER_HTML holds exactly one `<footer`, at index 1. */
  lemma FooterOpensOnce()
    ensures forall q: nat :: MatchesAt(FOOTER_HTML, OpenTag, q) <==> q == 1
  {
    FooterIsSpliceSafe();
    OpensOnce(FOOTER_HTML);
  }

  /** Splicing a splice-safe block into a page, with no `<footer` after the splice
      point, makes the page's last fragment end with the block's `</footer>` and start
      at or before the block's `<footer`; it then contains the brand, so no further
      footer is needed. */
  lemma SplicedIsLast(t: string, a: string, f: string, b: string)
    requires t == a + f + b && SpliceSafe(f)
    requires forall q: nat :: !MatchesAt(b, OpenTag, q)
    ensures EndsAt(Footers(t), |a| + 1, |a| + CloseAt + |CloseTag|)
    ensures !NeedsFooter(t)
  {
    var n := |a|;
    NoCloseBeforeInjected(t, a, f, b);
    NoOpenAfterInjected(t, a, f, b);
    InjectedMatch(t, a, f, b);
    var e := n + CloseAt + |CloseTag|;
    LastFooterIs(t, n + 1, e);
    var r := Footers(t);
    OccursInSlice(t, Marker, r[|r| - 1].start, e, n + MarkerAt);
  }

  /** Inserting a splice-safe block is idempotent: on its own output it adds nothing,
      provided the page has no `<footer` after the point where the block goes. */
  lemma InsertIdempotent(s: string, f: string)
    requires SpliceSafe(f)
    requires NeedsFooter(s) ==> forall q: nat :: SpliceIndex(s) <= q ==> !MatchesAt(s, OpenTag, q)
    ensures !NeedsFooter(InsertFooter(s, f).content)
    ensures InsertFooter(InsertFooter(s, f).content, f) == Enrichment(InsertFooter(s, f).content, false)
  {
    if NeedsFooter(s) {
      var i := SpliceIndex(s);
      forall q: nat ensures !MatchesAt(s[i..], OpenTag, q) {
        MatchesInDrop(s, OpenTag, i, q);
      }
      SplicedIsLast(InsertFooter(s, f).content, s[..i], f, s[i..]);
    }
  }

  /** Enrichment is idempotent: on its own output it adds no second footer and leaves
      the page as it is, provided the page has no `<footer` after the point where the
      footer goes. Stated on InsertFooter with FOOTER_HTML, which is what Enrich is,
      so that the proof need not unfold Enrich over the literal block. */
  lemma EnrichIdempotent(s: string)
    requires NeedsFooter(s) ==> forall q: nat :: SpliceIndex(s) <= q ==> !MatchesAt(s, OpenTag, q)
    ensures var t := InsertFooter(s, FOOTER_HTML).content;
      InsertFooter(t, FOOTER_HTML) == Enrichment(t, false)
  {
    FooterIsSpliceSafe();
    InsertIdempotent(s, FOOTER_HTML);
  }
}
