/** The responses the three handlers return to their event source: a status code, an
    optional header map and a body. Bodies are the JSON objects the handlers serialise,
    kept as structured values. */
module Http {
  import opened Wrappers

  type Headers = map<string, string>

  datatype Body =
    | EmptyBody                                        // the empty string
    | MessageBody(message: string)                     // {"message": …}
    | UploadedBody(message: string, footerAdded: bool) // {"message": …, "footer_added": …}
    | ErrorBody(error: string)                         // {"error": …}
    | CreatedBody(message: string, invalidationId: string, paths: seq<string>)
    | FailedBody(error: string, paths: seq<string>)

  /** `headers` is `None` when the response has no `headers` entry at all. */
  datatype Response = Response(statusCode: int, headers: Option<Headers>, body: Body)
}
