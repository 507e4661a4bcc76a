/** The request gate both page publishers share (lambdas/s3_upload.py, lines 67-116;
    lambda_function.py, lines 9-62): the origin check, the CORS headers, the preflight
    answer, the body checks, and the object key. */
module Gateway {
  import opened Wrappers
  import opened Text
  import opened Http

  const SiteOrigin := "https://kingslanding.io"
  const SiteSuffix := ".kingslanding.io"
  const BucketName := "kingslanding.io"
  const PagePrefix := "pages/"

  const AllowOriginHeader := "Access-Control-Allow-Origin"
  const AllowHeadersHeader := "Access-Control-Allow-Headers"
  const AllowMethodsHeader := "Access-Control-Allow-Methods"
  const AllowCredentialsHeader := "Access-Control-Allow-Credentials"
  const ContentTypeHeader := "Content-Type"

  const ForbiddenMessage := "Forbidden: Origin not allowed"
  const InvalidJsonMessage := "Invalid JSON body"
  const MissingFieldsMessage := "Missing 'filename' or 'html' content in request body"

  /** What the handlers read from a request. The `origin` request header and
      `httpMethod` may be absent; the body is text that either does not parse as JSON
      or parses to an object whose `filename` and `html` entries may be absent. */
  datatype PageEvent = PageEvent(origin: Option<string>, httpMethod: Option<string>, body: RequestBody)
  datatype RequestBody = Unparseable | Parsed(filename: Option<string>, html: Option<string>)

  /** A field that Python counts as true: present and not empty. */
  predicate Present(field: Option<string>) {
    field.Some? && field.value != ""
  }

  /** The origin rule: a non-empty origin that ends with ".kingslanding.io" or is
      exactly "https://kingslanding.io". */
  predicate AllowedOrigin(origin: Option<string>) {
    Present(origin) && (EndsWith(origin.value, SiteSuffix) || origin.value == SiteOrigin)
  }

  /** The site itself and every name under it, and nothing else. */
  lemma AllowedOriginIff(origin: Option<string>)
    ensures AllowedOrigin(origin) <==>
      origin.Some? && (origin.value == SiteOrigin || exists sub: string :: origin.value == sub + SiteSuffix)
  {
    if origin.Some? {
      EndsWithIff(origin.value, SiteSuffix);
    }
  }

  /** The four CORS headers, echoing the allowed origin. */
  function CorsHeaders(origin: string): (h: Headers)
    ensures h.Keys == {AllowOriginHeader, AllowHeadersHeader, AllowMethodsHeader, AllowCredentialsHeader}
    ensures h[AllowOriginHeader] == origin
  {
    map[AllowOriginHeader := origin,
        AllowHeadersHeader := "Content-Type",
        AllowMethodsHeader := "OPTIONS,PUT,POST",
        AllowCredentialsHeader := "true"]
  }

  /** The headers of a success response: a copy of the CORS headers with
      `Content-Type: application/json` added; every CORS header keeps its value. */
  function SuccessHeaders(cors: Headers): (h: Headers)
    ensures h.Keys == cors.Keys + {ContentTypeHeader} && h[ContentTypeHeader] == "application/json"
    ensures forall name :: name in cors && name != ContentTypeHeader ==> h[name] == cors[name]
  {
    cors[ContentTypeHeader := "application/json"]
  }

  /** The object key of a page. */
  function PageKey(filename: string): (key: string)
    ensures |key| == |PagePrefix| + |filename| && key[..|PagePrefix|] == PagePrefix && key[|PagePrefix|..] == filename
  {
    PagePrefix + filename
  }

  /** Different file names give different keys. */
  lemma PageKeyInjective(f: string, g: string)
    ensures PageKey(f) == PageKey(g) ==> f == g
  {
    if PageKey(f) == PageKey(g) {
      assert f == PageKey(f)[|PagePrefix|..];
    }
  }

  /** The outcome of the gate: a response to return at once, or the CORS headers and
      the two fields to go on with. */
  datatype Gate = Answer(response: Response) | Proceed(cors: Headers, filename: string, html: string)

  /** Origin check, preflight, body parse and field checks, in the handlers' order. */
  function Admit(event: PageEvent): (g: Gate)
    ensures g.Proceed? <==>
      AllowedOrigin(event.origin) && event.httpMethod != Some("OPTIONS") &&
      event.body.Parsed? && Present(event.body.filename) && Present(event.body.html)
    ensures g.Proceed? ==>
      g.cors == CorsHeaders(event.origin.value) &&
      g.filename == event.body.filename.value && g.html == event.body.html.value
    ensures !AllowedOrigin(event.origin) <==> g.Answer? && g.response.headers.None?
    ensures !AllowedOrigin(event.origin) ==> g.response == Response(403, None, MessageBody(ForbiddenMessage))
    ensures AllowedOrigin(event.origin) && g.Answer? ==> g.response.headers == Some(CorsHeaders(event.origin.value))
    ensures AllowedOrigin(event.origin) && event.httpMethod == Some("OPTIONS") ==>
      g.Answer? && g.response.statusCode == 204 && g.response.body == EmptyBody
    ensures AllowedOrigin(event.origin) && event.httpMethod != Some("OPTIONS") && event.body.Unparseable? ==>
      g.Answer? && g.response.statusCode == 400 && g.response.body == MessageBody(InvalidJsonMessage)
    ensures AllowedOrigin(event.origin) && event.httpMethod != Some("OPTIONS") && event.body.Parsed? &&
            !(Present(event.body.filename) && Present(event.body.html)) ==>
      g.Answer? && g.response.statusCode == 400 && g.response.body == MessageBody(MissingFieldsMessage)
  {
    if !AllowedOrigin(event.origin) then
      Answer(Response(403, None, MessageBody(ForbiddenMessage)))
    else
      var cors := CorsHeaders(event.origin.value);
      if event.httpMethod == Some("OPTIONS") then
        Answer(Response(204, Some(cors), EmptyBody))
      else
        match event.body
        case Unparseable =>
          Answer(Response(400, Some(cors), MessageBody(InvalidJsonMessage)))
        case Parsed(filename, html) =>
          if !Present(filename) || !Present(html) then
            Answer(Response(400, Some(cors), MessageBody(MissingFieldsMessage)))
          else
            Proceed(cors, filename.value, html.value)
  }
}
