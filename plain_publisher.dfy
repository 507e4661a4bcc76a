/** The footer-less page publisher (`lambda_handler` of lambda_function.py): the same
    gate as the enriched publisher, then the page is written to the bucket exactly as
    it arrived. */
module PlainPublisher {
  import opened Wrappers
  import opened Http
  import opened Gateway
  import opened ObjectStore

  /** The success message, naming the file, the bucket and the key without quotes:
      the file name follows `File `, and the message ends with the key. */
  function UploadedMessage(filename: string, key: string): (m: string)
    ensures |m| == |filename| + |key| + 63
    ensures m[..5] == "File " && m[5..5 + |filename|] == filename
    ensures m[|m| - |key|..] == key
  {
    "File " + filename + " uploaded successfully to bucket " + BucketName + " with key " + key
  }

  /** Lines 62-86 for a request the gate let through: exactly one write goes to the
      store, of the page unchanged under `pages/<filename>`, and the response reports
      its outcome. */
  method Publish(store: Store, cors: Headers, filename: string, html: string) returns (response: Response)
    modifies store
    ensures store.fault == old(store.fault)
    ensures store.requests == old(store.requests) + [PutRequest(BucketName, PageKey(filename), html, "text/html")]
    ensures store.fault.Some? ==>
      response == Response(500, Some(cors), MessageBody("Upload failed: " + store.fault.value)) &&
      store.objects == old(store.objects)
    ensures store.fault.None? ==>
      response == Response(200, Some(SuccessHeaders(cors)), MessageBody(UploadedMessage(filename, PageKey(filename)))) &&
      store.objects == old(store.objects)[(BucketName, PageKey(filename)) := StoredObject(html, "text/html")]
  {
    var key := PageKey(filename);
    var error := store.PutObject(PutRequest(BucketName, key, html, "text/html"));
    if error.Some? {
      return Response(500, Some(cors), MessageBody("Upload failed: " + error.value));
    }
    var successHeaders := SuccessHeaders(cors);
    response := Response(200, Some(successHeaders), MessageBody(UploadedMessage(filename, key)));
  }

  /** Handles one request. A request the gate answers writes nothing; otherwise exactly
      one write goes to the store, of the page as sent, under `pages/<filename>`. */
  method Handle(store: Store, event: PageEvent) returns (response: Response)
    modifies store
    ensures store.fault == old(store.fault)
    ensures Admit(event).Answer? ==>
      response == Admit(event).response &&
      store.requests == old(store.requests) && store.objects == old(store.objects)
    ensures Admit(event).Proceed? ==>
      var g := Admit(event);
      store.requests == old(store.requests) + [PutRequest(BucketName, PageKey(g.filename), g.html, "text/html")] &&
      (store.fault.Some? ==>
        response == Response(500, Some(g.cors), MessageBody("Upload failed: " + store.fault.value)) &&
        store.objects == old(store.objects)) &&
      (store.fault.None? ==>
        response == Response(200, Some(SuccessHeaders(g.cors)), MessageBody(UploadedMessage(g.filename, PageKey(g.filename)))) &&
        store.objects == old(store.objects)[(BucketName, PageKey(g.filename)) := StoredObject(g.html, "text/html")])
  {
    var gate := Admit(event);
    if gate.Answer? {
      return gate.response;
    }
    response := Publish(store, gate.cors, gate.filename, gate.html);
  }
}
