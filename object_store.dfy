/** The object store the publishers write pages into, standing in for the S3 client's
    `put_object`. The store keeps its objects by bucket and key and a log of every
    write request; whether a write fails, and with what error text, is decided by the
    environment through `fault`. */
module ObjectStore {
  import opened Wrappers

  datatype PutRequest = PutRequest(bucket: string, key: string, body: string, contentType: string)
  datatype StoredObject = StoredObject(body: string, contentType: string)

  class Store {
    var objects: map<(string, string), StoredObject>
    var requests: seq<PutRequest>
    /** The error text the next write fails with, or `None` when it succeeds. */
    var fault: Option<string>

    constructor (objects: map<(string, string), StoredObject>, fault: Option<string>)
      ensures this.objects == objects && this.requests == [] && this.fault == fault
    {
      this.objects := objects;
      this.requests := [];
      this.fault := fault;
    }

    /** One `put_object` call: it is logged; on success the object under its bucket and
        key is replaced, on failure the objects stay as they were and the error text
        comes back. */
    method PutObject(request: PutRequest) returns (error: Option<string>)
      modifies this
      ensures requests == old(requests) + [request] && fault == old(fault)
      ensures error == fault
      ensures fault.None? ==>
        objects == old(objects)[(request.bucket, request.key) := StoredObject(request.body, request.contentType)]
      ensures fault.Some? ==> objects == old(objects)
    {
      requests := requests + [request];
      error := fault;
      if fault.None? {
        objects := objects[(request.bucket, request.key) := StoredObject(request.body, request.contentType)];
      }
    }
  }
}
