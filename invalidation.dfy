/** The cache invalidator (`lambda_handler` of lambdas/invalidation.py): for the objects
    an S3 event names, it works out the CloudFront paths to refresh, drops repeats and
    submits them as one invalidation batch. */
module Invalidation {
  import opened Wrappers
  import opened Text
  import opened Http
  import opened Cdn

  const RootDocument := "index.html"
  const RootPath := "/"
  const NotConfiguredError := "CloudFront distribution ID not configured"
  const NothingToDoMessage := "No invalidation needed"
  const CreatedMessage := "Invalidation created successfully"
  const FailurePrefix := "Failed to create CloudFront invalidation: "
  const CallerPrefix := "s3-event-"

  /** One entry of the event's `Records`: the bucket, the object key (already
      URL-decoded) and the event name. */
  datatype S3Record = S3Record(bucket: string, key: string, eventName: string)

  /** The paths one object key adds: `/<key>`, and for the root document also `/`.
      The root path `/` is among them for the root document, and for the empty key,
      whose own path is `/`. */
  function PathsFor(key: string): (ps: seq<string>)
    ensures 0 < |ps| && ps[0] == "/" + key
    ensures |ps| == if key == RootDocument then 2 else 1
    ensures RootPath in ps <==> key == RootDocument || key == ""
  {
    assert "/" + key == RootPath ==> key == ("/" + key)[1..] == RootPath[1..];
    if key == RootDocument then ["/" + key, RootPath] else ["/" + key]
  }

  /** The path list the loop over the records builds, in order. */
  function DerivedPaths(records: seq<S3Record>): seq<string>
    decreases |records|
  {
    if records == [] then []
    else DerivedPaths(records[..|records| - 1]) + PathsFor(records[|records| - 1].key)
  }

  /** Lines 23-44: the loop over the records, extending the list in place. */
  method CollectPaths(records: seq<S3Record>) returns (paths: seq<string>)
    ensures paths == DerivedPaths(records)
  {
    paths := [];
    for i := 0 to |records|
      invariant paths == DerivedPaths(records[..i])
    {
      var key := records[i].key;
      var path := "/" + key;
      if key == RootDocument {
        paths := paths + [path, RootPath];
      } else {
        paths := paths + [path];
      }
      assert records[..i + 1][..i] == records[..i];
    }
    assert records[..|records|] == records;
  }

  /** Every record adds `/<key>`, and the root document also `/`; nothing else is added. */
  lemma {:induction false} DerivedPathsMembers(records: seq<S3Record>, p: string)
    ensures p in DerivedPaths(records) <==>
      exists i :: 0 <= i < |records| && (p == "/" + records[i].key || (p == RootPath && records[i].key == RootDocument))
    decreases |records|
  {
    if records != [] {
      var n := |records| - 1;
      var init := records[..n];
      DerivedPathsMembers(init, p);
      if p in DerivedPaths(records) && p !in DerivedPaths(init) {
        assert p == "/" + records[n].key || (p == RootPath && records[n].key == RootDocument);
      }
      if exists i :: 0 <= i < |records| && (p == "/" + records[i].key || (p == RootPath && records[i].key == RootDocument)) {
        var i :| 0 <= i < |records| && (p == "/" + records[i].key || (p == RootPath && records[i].key == RootDocument));
        if i < n {
          assert records[i] == init[i];
        }
      }
    }
  }

  /** Before repeats are dropped, the list has at least one path per record. */
  lemma {:induction false} DerivedPathsPerRecord(records: seq<S3Record>)
    ensures |DerivedPaths(records)| >= |records|
    ensures DerivedPaths(records) == [] <==> records == []
    decreases |records|
  {
    if records != [] {
      DerivedPathsPerRecord(records[..|records| - 1]);
    }
  }

  predicate NoDuplicates(s: seq<string>) {
    forall i, j :: 0 <= i < j < |s| ==> s[i] != s[j]
  }

  /** `list(dict.fromkeys(s))`: each element where it first occurs, later repeats
      dropped. The keys of a dict keep their insertion order, and inserting a key
      that is already present leaves that order as it is. */
  function Dedup(s: seq<string>): (r: seq<string>)
    decreases |s|
    ensures NoDuplicates(r)
    ensures forall x :: x in r <==> x in s
    ensures |r| <= |s|
  {
    if s == [] then []
    else
      var d := Dedup(s[..|s| - 1]);
      var x := s[|s| - 1];
      assert forall y :: y in s <==> y in s[..|s| - 1] || y == x;
      if x in d then d else d + [x]
  }

  /** The index of the first occurrence of `x` in `s`. */
  function FirstIndex(s: seq<string>, x: string): (r: nat)
    requires x in s
    ensures r < |s| && s[r] == x && forall k :: 0 <= k < r ==> s[k] != x
    decreases |s|
  {
    if s[0] == x then 0 else 1 + FirstIndex(s[1..], x)
  }

  /** Appending leaves the first occurrence of an element already present unchanged. */
  lemma FirstIndexOfPrefix(p: seq<string>, x: string, y: string)
    requires y in p
    ensures FirstIndex(p + [x], y) == FirstIndex(p, y)
  {
    var a, b := FirstIndex(p + [x], y), FirstIndex(p, y);
    assert (p + [x])[b] == y;
    assert a < |p| && p[a] == (p + [x])[a];
  }

  /** Dropping repeats keeps the order of first occurrences. */
  lemma {:induction false} DedupKeepsFirstOccurrenceOrder(s: seq<string>, i: nat, j: nat)
    requires i < j < |Dedup(s)|
    ensures FirstIndex(s, Dedup(s)[i]) < FirstIndex(s, Dedup(s)[j])
    decreases |s|
  {
    var p, x := s[..|s| - 1], s[|s| - 1];
    assert s == p + [x];
    var d := Dedup(p);
    var r := Dedup(s);
    assert r[i] in p by {
      assert r[i] in d;
    }
    FirstIndexOfPrefix(p, x, r[i]);
    if j < |d| {
      assert r[i] == d[i] && r[j] == d[j];
      DedupKeepsFirstOccurrenceOrder(p, i, j);
      assert r[j] in d;
      FirstIndexOfPrefix(p, x, r[j]);
    } else {
      assert r[j] == x && x !in p;
      assert FirstIndex(s, x) == |p|;
    }
  }

  /** A list without repeats is its own deduplication. */
  lemma {:induction false} DedupOfDistinct(s: seq<string>)
    requires NoDuplicates(s)
    ensures Dedup(s) == s
    decreases |s|
  {
    if s != [] {
      var p := s[..|s| - 1];
      DedupOfDistinct(p);
      assert s[|s| - 1] !in p;
      assert s == p + [s[|s| - 1]];
    }
  }

  /** `f"s3-event-{t}-{len(paths)}"`. */
  function CallerReference(now: nat, count: nat): string {
    CallerPrefix + NatToString(now) + "-" + NatToString(count)
  }

  /** A caller reference reads back: after `s3-event-` comes the timestamp in decimal,
      then the first `-`, then the path count in decimal. */
  lemma CallerReferenceReadBack(now: nat, count: nat)
    ensures var r := CallerReference(now, count);
      |CallerPrefix| <= |r| && r[..|CallerPrefix|] == CallerPrefix &&
      var rest := r[|CallerPrefix|..];
      var d := FindFrom(rest, "-", 0);
      d.Some? && d.value < |rest| &&
      IsDigits(rest[..d.value]) && DecimalValue(rest[..d.value]) == now &&
      IsDigits(rest[d.value + 1..]) && DecimalValue(rest[d.value + 1..]) == count
  {
    var a, b := NatToString(now), NatToString(count);
    var r := CallerReference(now, count);
    var rest := r[|CallerPrefix|..];
    assert rest == a + "-" + b;
    DashAfterDigits(a, b);
    assert rest[..|a|] == a;
    assert rest[|a| + 1..] == b;
    DecimalRoundTrip(now);
    DecimalRoundTrip(count);
  }

  /** The first `-` of a digit string followed by `-` is the one after the digits. */
  lemma DashAfterDigits(a: string, b: string)
    requires IsDigits(a)
    ensures FindFrom(a + "-" + b, "-", 0) == Some(|a|)
  {
    var t := a + "-" + b;
    assert MatchesAt(t, "-", |a|);
    forall k | 0 <= k < |a|
      ensures !MatchesAt(t, "-", k)
    {
      assert t[k] == a[k] && '0' <= a[k] <= '9';
      assert Lower(t[k]) != "-"[0];
    }
  }

  /** Two digit strings joined by a `-` can be split back apart. */
  lemma SplitAtDash(a: string, b: string, c: string, d: string)
    requires IsDigits(a) && IsDigits(c)
    requires a + "-" + b == c + "-" + d
    ensures a == c && b == d
  {
    var t := a + "-" + b;
    DashAfterDigits(a, b);
    DashAfterDigits(c, d);
    assert a == t[..|a|] == c;
    assert b == t[|a| + 1..] == d;
  }

  /** Different timestamps or path counts give different caller references. */
  lemma CallerReferenceInjective(now: nat, count: nat, now': nat, count': nat)
    requires CallerReference(now, count) == CallerReference(now', count')
    ensures now == now' && count == count'
  {
    var r := CallerReference(now, count);
    assert r[|CallerPrefix|..] == NatToString(now) + "-" + NatToString(count);
    assert r[|CallerPrefix|..] == NatToString(now') + "-" + NatToString(count');
    SplitAtDash(NatToString(now), NatToString(count), NatToString(now'), NatToString(count'));
    NatToStringInjective(now, now');
    NatToStringInjective(count, count');
  }

  /** The one batch lines 59-70 submit. */
  function BatchFor(paths: seq<string>, now: nat): (b: InvalidationBatch)
    ensures b.paths.quantity == |b.paths.items| && b.paths.items == paths
    ensures b.callerReference == CallerReference(now, |paths|)
  {
    InvalidationBatch(Paths(|paths|, paths), CallerReference(now, |paths|))
  }

  /** A distribution id Python counts as true: set and not empty. */
  predicate Configured(distributionId: Option<string>) {
    distributionId.Some? && distributionId.value != ""
  }

  /** The paths the handler ends up with for the records. */
  function InvalidationPaths(records: seq<S3Record>): seq<string> {
    Dedup(DerivedPaths(records))
  }

  /** Handles one S3 event. `distributionId` is the `CLOUDFRONT_DISTRIBUTION_ID`
      setting and `now` the current time in whole seconds. Without a distribution id
      nothing is submitted; with no paths nothing is submitted; otherwise exactly one
      batch of the deduplicated paths is, and the response reports its outcome. */
  method Handle(cdn: Distribution, distributionId: Option<string>, records: seq<S3Record>, now: nat)
    returns (response: Response)
    modifies cdn
    ensures cdn.reply == old(cdn.reply)
    ensures !Configured(distributionId) ==>
      response == Response(500, None, ErrorBody(NotConfiguredError)) && cdn.submissions == old(cdn.submissions)
    ensures Configured(distributionId) && InvalidationPaths(records) == [] ==>
      response == Response(200, None, MessageBody(NothingToDoMessage)) && cdn.submissions == old(cdn.submissions)
    ensures Configured(distributionId) && InvalidationPaths(records) != [] ==>
      var paths := InvalidationPaths(records);
      cdn.submissions == old(cdn.submissions) + [Submission(distributionId.value, BatchFor(paths, now))] &&
      (cdn.reply.Created? ==>
        response == Response(200, None, CreatedBody(CreatedMessage, cdn.reply.invalidationId, paths))) &&
      (cdn.reply.Failed? ==>
        response == Response(500, None, FailedBody(FailurePrefix + cdn.reply.error, paths)))
  {
    if !Configured(distributionId) {
      return Response(500, None, ErrorBody(NotConfiguredError));
    }
    var invalidationPaths := CollectPaths(records);
    invalidationPaths := Dedup(invalidationPaths);
    if invalidationPaths == [] {
      return Response(200, None, MessageBody(NothingToDoMessage));
    }
    var callerReference := CallerReference(now, |invalidationPaths|);
    var outcome := cdn.CreateInvalidation(distributionId.value,
      InvalidationBatch(Paths(|invalidationPaths|, invalidationPaths), callerReference));
    match outcome
    case Created(invalidationId) =>
      response := Response(200, None, CreatedBody(CreatedMessage, invalidationId, invalidationPaths));
    case Failed(error) =>
      response := Response(500, None, FailedBody(FailurePrefix + error, invalidationPaths));
  }

  /** The handler's paths hold no repeats, and a path is among them exactly when some
      record adds it: as `/<key>`, or as `/` for the root document. */
  lemma InvalidationPathsMembers(records: seq<S3Record>, p: string)
    ensures NoDuplicates(InvalidationPaths(records))
    ensures p in InvalidationPaths(records) <==>
      exists i :: 0 <= i < |records| && (p == "/" + records[i].key || (p == RootPath && records[i].key == RootDocument))
  {
    DerivedPathsMembers(records, p);
  }

  /** No paths remain exactly when the event has no records. */
  lemma NothingToInvalidateIff(records: seq<S3Record>)
    ensures InvalidationPaths(records) == [] <==> records == []
  {
    DerivedPathsPerRecord(records);
    var d := DerivedPaths(records);
    if d != [] {
      assert d[0] in InvalidationPaths(records);
    }
  }

  /** One step of the loop: a further record adds its paths at the end. */
  lemma DerivedSnoc(records: seq<S3Record>, record: S3Record)
    ensures DerivedPaths(records + [record]) == DerivedPaths(records) + PathsFor(record.key)
  {
    assert (records + [record])[..|records|] == records;
  }

  lemma DerivedRootOnce(r0: S3Record)
    requires r0.key == RootDocument
    ensures DerivedPaths([r0]) == ["/" + r0.key, RootPath]
  {
    DerivedSnoc([], r0);
    assert [] + [r0] == [r0];
  }

  lemma DerivedRootTwice(r0: S3Record)
    requires r0.key == RootDocument
    ensures DerivedPaths([r0, r0]) == ["/" + r0.key, RootPath, "/" + r0.key, RootPath]
  {
    DerivedRootOnce(r0);
    DerivedSnoc([r0], r0);
    assert [r0] + [r0] == [r0, r0];
  }

  /** Two root documents and another page give five paths before repeats are dropped. */
  lemma ExampleDerivedPaths(r0: S3Record, r2: S3Record)
    requires r0.key == RootDocument && r2.key != RootDocument
    ensures DerivedPaths([r0, r0, r2]) == ["/" + r0.key, RootPath, "/" + r0.key, RootPath, "/" + r2.key]
  {
    DerivedRootTwice(r0);
    DerivedSnoc([r0, r0], r2);
    assert [r0, r0] + [r2] == [r0, r0, r2];
  }

  /** A repeat is skipped. */
  lemma DedupSkipsRepeat(p: seq<string>, x: string)
    requires x in p
    ensures Dedup(p + [x]) == Dedup(p)
  {
    assert (p + [x])[..|p|] == p;
  }

  /** A new element goes at the end. */
  lemma DedupAppendsNew(p: seq<string>, x: string)
    requires x !in p
    ensures Dedup(p + [x]) == Dedup(p) + [x]
  {
    assert (p + [x])[..|p|] == p;
  }

  lemma DedupPairRepeated(i: string, r: string)
    requires i != r
    ensures Dedup([i, r, i]) == [i, r]
  {
    DedupOfDistinct([i, r]);
    assert [i, r] + [i] == [i, r, i];
    DedupSkipsRepeat([i, r], i);
  }

  lemma DedupPairTwice(i: string, r: string)
    requires i != r
    ensures Dedup([i, r, i, r]) == [i, r]
  {
    DedupPairRepeated(i, r);
    assert [i, r, i] + [r] == [i, r, i, r];
    DedupSkipsRepeat([i, r, i], r);
  }

  /** Dropping repeats from `i, r, i, r, a` with three distinct elements. */
  lemma DedupRepeatedPair(i: string, r: string, a: string)
    requires i != r && a != i && a != r
    ensures Dedup([i, r, i, r, a]) == [i, r, a]
  {
    DedupPairTwice(i, r);
    assert [i, r, i, r] + [a] == [i, r, i, r, a];
    DedupAppendsNew([i, r, i, r], a);
  }

  /** Keys `index.html`, `index.html`, `about.html` give `/index.html`, `/`, `/about.html`. */
  lemma RepeatedRootExample(r0: S3Record, r2: S3Record)
    requires r0.key == "index.html" && r2.key == "about.html"
    ensures InvalidationPaths([r0, r0, r2]) == ["/index.html", "/", "/about.html"]
  {
    assert r2.key != RootDocument;
    ExampleDerivedPaths(r0, r2);
    assert "/" + r0.key == "/index.html" && "/" + r2.key == "/about.html";
    assert "/index.html" != "/" && "/about.html" != "/index.html" && "/about.html" != "/";
    DedupRepeatedPair("/index.html", "/", "/about.html");
  }
}
