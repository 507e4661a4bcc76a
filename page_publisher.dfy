/** The page publisher with footer enrichment (`lambda_handler` of lambdas/s3_upload.py):
    gate the request, make sure the page carries the BoxShop footer, write it to the
    bucket and report the outcome. */
module PagePublisher {
  import opened Wrappers
  import opened Text
  import opened Http
  import opened Gateway
  import opened FooterScan
  import opened FooterHtml
  import opened Footer
  import opened ObjectStore

  /** The success message, quoting the file name, the bucket and the key: the file
      name stands in quotes after `File `, and the key in quotes before the final
      period. */
  function UploadedMessage(filename: string, key: string): (m: string)
    ensures |m| == |filename| + |key| + 70
    ensures m[..6] == "File '" && m[6..6 + |filename|] == filename && m[6 + |filename|] == '\''
    ensures m[|m| - |key| - 3] == '\'' && m[|m| - |key| - 2..|m| - 2] == key && m[|m| - 2..] == "'."
  {
    "File '" + filename + "' uploaded successfully to bucket '" + BucketName + "' with key '" + key + "'."
  }

  /** Lines 119-140, step by step, with the footer block `footer`: decide from the last
      footer fragment, then put the block before the last `</body>` or, without one, at
      the end. */
  method AddFooter(html: string, footer: string) returns (page: string, addFooter: bool)
    ensures page == InsertFooter(html, footer).content && addFooter == InsertFooter(html, footer).footerAdded
  {
    page := html;
    addFooter := NeedsFooter(html);
    if addFooter {
      if Occurs(page, BodyClose) {
        var bodyCloseIndex := FindLast(page, BodyClose);
        OccursIff(page, BodyClose);
        SplicesBeforeBodyClose(html, footer, bodyCloseIndex.value);
        page := page[..bodyCloseIndex.value] + footer + page[bodyCloseIndex.value..];
      } else {
        AppendsWithoutBodyClose(html, footer);
        page := page + footer;
      }
    } else {
      KeepsBrandedPage(html, footer);
    }
  }

  /** Lines 119-166 for a request the gate let through: exactly one write goes to the
      store, of the enriched page under `pages/<filename>`, and the response reports its
      outcome and whether the footer was added. */
  method Publish(store: Store, cors: Headers, filename: string, html: string) returns (response: Response)
    modifies store
    ensures store.fault == old(store.fault)
    ensures store.requests == old(store.requests) + [PutRequest(BucketName, PageKey(filename), Enrich(html).content, "text/html")]
    ensures store.fault.Some? ==>
      response == Response(500, Some(cors), MessageBody("Upload failed: " + store.fault.value)) &&
      store.objects == old(store.objects)
    ensures store.fault.None? ==>
      response == Response(200, Some(SuccessHeaders(cors)),
                           UploadedBody(UploadedMessage(filename, PageKey(filename)), Enrich(html).footerAdded)) &&
      store.objects == old(store.objects)[(BucketName, PageKey(filename)) := StoredObject(Enrich(html).content, "text/html")]
  {
    var key := PageKey(filename);
    var page, addFooter := AddFooter(html, FOOTER_HTML);
    var error := store.PutObject(PutRequest(BucketName, key, page, "text/html"));
    if error.Some? {
      return Response(500, Some(cors), MessageBody("Upload failed: " + error.value));
    }
    var successHeaders := SuccessHeaders(cors);
    response := Response(200, Some(successHeaders), UploadedBody(UploadedMessage(filename, key), addFooter));
  }

  /** Handles one request. A request the gate answers writes nothing; otherwise exactly
      one write goes to the store, of the enriched page under `pages/<filename>`, and
      the response reports its outcome and whether the footer was added. */
  method Handle(store: Store, event: PageEvent) returns (response: Response)
    modifies store
    ensures store.fault == old(store.fault)
    ensures Admit(event).Answer? ==>
      response == Admit(event).response &&
      store.requests == old(store.requests) && store.objects == old(store.objects)
    ensures Admit(event).Proceed? ==>
      var g := Admit(event);
      var page := Enrich(g.html);
      store.requests == old(store.requests) + [PutRequest(BucketName, PageKey(g.filename), page.content, "text/html")] &&
      (store.fault.Some? ==>
        response == Response(500, Some(g.cors), MessageBody("Upload failed: " + store.fault.value)) &&
        store.objects == old(store.objects)) &&
      (store.fault.None? ==>
        response == Response(200, Some(SuccessHeaders(g.cors)),
                             UploadedBody(UploadedMessage(g.filename, PageKey(g.filename)), page.footerAdded)) &&
        store.objects == old(store.objects)[(BucketName, PageKey(g.filename)) := StoredObject(page.content, "text/html")])
  {
    var gate := Admit(event);
    if gate.Answer? {
      return gate.response;
    }
    response := Publish(store, gate.cors, gate.filename, gate.html);
  }
}
