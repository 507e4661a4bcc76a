# kingslanding publishing handlers in Dafny

This project models the three request handlers behind the kingslanding.io site and
proves properties of the model.

- **Page publisher with footer enrichment** (`lambdas/s3_upload.py`). It gates a
  request by its `origin` header. It answers CORS preflights. It checks the JSON body
  for `filename` and `html`. It makes sure the page's last `<footer…>…</footer>`
  fragment names BoxShop: if not, it splices the fixed `FOOTER_HTML` block in before
  the last `</body>`, or appends it. It then writes the page to the `kingslanding.io`
  bucket under `pages/<filename>` and reports the outcome and `footer_added`.
- **Footer-less page publisher** (`lambda_function.py`). It uses the same gate and
  writes the page unchanged.
- **Cache invalidator** (`lambdas/invalidation.py`).
  - It turns each S3 record's key into a CloudFront path `/<key>`; the root document
    `index.html` also yields `/`.
  - It drops repeats in first-occurrence order (`dict.fromkeys`).
  - It then submits one invalidation batch, unless no path remains or no distribution
    id is configured.

Modules, in dependency order:

- `Wrappers`: `Option`.
- `Text`: ASCII case-insensitive matching, `in`, `rfind`, `endswith`, and `str()` of a
  natural number.
- `FooterScan`: the regex `<footer.*?>.*?</footer>` (IGNORECASE, DOTALL) as a
  deterministic matcher `MatchAt`, and `re.finditer` as `Scan`. `IsSearch` is an
  independent, declarative statement of a left-to-right non-overlapping search, and the
  scan is proved to be its unique solution.
- `FooterHtml`: `FOOTER_HTML` character for character, plus its shape facts. It has
  exactly one `<footer`, at index 1. Its first `</footer>` is at index 176. "BoxShop"
  is at index 102. No later `<` starts a `<footer`.
- `Footer`: the enrichment decision and splice (`NeedsFooter`, `SpliceIndex`,
  `InsertFooter` for any block, `Enrich` for `FOOTER_HTML`). It proves each case and
  idempotence.
- `Http`: responses as records (status, optional headers, structured body).
- `Gateway`: the origin rule, the CORS headers, the success headers and the page key.
  `Admit` is the whole gate shared by both publishers.
- `ObjectStore`: a `Store` class standing in for `put_object`. It holds the objects, a
  log of write requests, and an environment-chosen fault.
- `PagePublisher` and `PlainPublisher`: the two publishing handlers as methods over a
  `Store`.
- `Cdn`: a `Distribution` class standing in for `create_invalidation`. It holds a log
  of submitted batches and an environment-chosen reply.
- `Invalidation`: path derivation (a loop), dedup, the caller reference, and the
  handler.

Points where the code's behaviour is easy to misread:

- The 403 response carries no `headers` entry at all, unlike every later response of
  the page publishers, which all carry the CORS headers.
- Enrichment is idempotent when no `<footer` follows the splice point; it can fail
  otherwise. `Footer.EnrichIdempotent` proves it under that condition, which is
  sufficient but not necessary. One reading of `lambdas/s3_upload.py:120-140`, not a
  proved fact of the model: a page whose last, unbranded footer comes after its last
  `</body>` gets a second footer on every run, because the injected footer goes
  before `</body>` and so is not the last fragment.
- The distribution id check rejects an empty id as well as a missing one.

## Model

| member | source | states |
|---|---|---|
| Text.FindFrom | lambdas/s3_upload.py:136-137 | the result is a case-insensitive occurrence at or after the start, and no occurrence precedes it |
| Text.OccursIff | lambdas/s3_upload.py:136 | `t in s.lower()` holds iff `t` matches at some index of `s` |
| Text.FindLast | lambdas/s3_upload.py:137 | `rfind`: the result is an occurrence and none lies after it; `None` (Python's -1) means none at all |
| Text.EndsWithIff | lambda_function.py:15 | `s.endswith(x)` iff `s` is some string followed by `x` |
| Text.NatToString | lambdas/invalidation.py:59 | `str(n)` is a non-empty string of decimal digits |
| Text.DecimalRoundTrip | lambdas/invalidation.py:59 | reading `str(n)` back as a decimal gives `n` |
| Text.NatToStringInjective | lambdas/invalidation.py:59 | different numbers print differently |
| FooterScan.MatchAt | lambdas/s3_upload.py:120 | a match from `p` starts with `<footer` in any case, ends with `</footer>`, and lies within the page |
| FooterScan.MatchAtSpec | lambdas/s3_upload.py:120 | the regex matches at `p` iff `<footer` is there and some later `>` is followed by some `</footer>`; the match is the shortest such one (lazy quantifiers) |
| FooterScan.Scan | lambdas/s3_upload.py:120 | every fragment found from `p` starts at or after `p` and is the match at its start; fragments do not overlap and are in document order |
| FooterScan.ScanIsSearch | lambdas/s3_upload.py:120 | the scan satisfies the declarative left-to-right non-overlapping search `IsSearch` |
| FooterScan.SearchUnique | lambdas/s3_upload.py:120 | any fragment list satisfying `IsSearch` is the scan's |
| FooterScan.FootersAreTheSearch | lambdas/s3_upload.py:120 | `Footers(s)`, that is `finditer` over the whole page, satisfies the search `IsSearch`, and any fragment list that does is `Footers(s)` |
| FooterScan.FootersWellFormed | lambdas/s3_upload.py:120-122 | every fragment starts with `<footer` and ends with `</footer>` in any case; fragments are disjoint and in order |
| FooterScan.ScanFindsNothing | lambdas/s3_upload.py:120 | with no `<footer` from `p` on, no fragment is found |
| FooterScan.LastFooterIs | lambdas/s3_upload.py:120-122 | the last fragment ends where the match from `o` ends and starts at or before `o`, when its `>` follows `<footer` at once, no earlier `</footer>` cuts it, and no `<footer` follows it |
| FooterHtml.ElementShape | lambdas/s3_upload.py:9-15 | FOOTER_HTML has 1102 characters; it starts with a line break and `<footer>`; its element closes at 176 and contains "BoxShop" at 102 |
| FooterHtml.FooterGuards | lambdas/s3_upload.py:9-63 | no `<` of FOOTER_HTML after index 1 starts `<footer`, and none before 176 starts `</footer>` |
| Footer.NeedsFooterMeaning | lambdas/s3_upload.py:120-133 | `NeedsFooter` (the value of `add_footer`) holds iff the search finds no fragment, or the last fragment it finds does not contain "boxshop" in any case |
| Footer.SpliceIndex | lambdas/s3_upload.py:136-140 | the splice point is the last `</body>` in any case, or the end of the page when there is none |
| Footer.SpliceLayout | lambdas/s3_upload.py:122-140 | `InsertFooter` for any block: with a footer needed the page becomes its first `SpliceIndex` characters, then the block, then the rest; otherwise it is unchanged. `Enrich` is `InsertFooter` with FOOTER_HTML |
| Footer.SpliceIndexIsLastBodyClose | lambdas/s3_upload.py:136-137 | whenever `i` is the index of the last `</body>`, that is the splice point |
| Footer.KeepsBrandedPage | lambdas/s3_upload.py:124-130 | when the last fragment contains "boxshop" in any case, the page is unchanged and `footer_added` is false |
| Footer.SplicesBeforeBodyClose | lambdas/s3_upload.py:135-138 | when a footer is needed and `i` is the last `</body>`, the result is `s[..i] + block + s[i..]` with `footer_added` true |
| Footer.AppendsWithoutBodyClose | lambdas/s3_upload.py:135-140 | when a footer is needed and there is no `</body>`, the result is `s + block` |
| Footer.GrowsByFooter | lambdas/s3_upload.py:122-140 | `footer_added` is true exactly when no fragment exists or the last lacks the brand, and the page then grows by exactly the block's length |
| Footer.FooterIsSpliceSafe | lambdas/s3_upload.py:9-63 | FOOTER_HTML has every property splicing relies on |
| Footer.OpensOnce | lambdas/s3_upload.py:9-63 | a splice-safe block holds exactly one `<footer`, at index 1 |
| Footer.FooterOpensOnce | lambdas/s3_upload.py:9-63 | FOOTER_HTML holds exactly one `<footer` |
| Footer.SplicedIsLast | lambdas/s3_upload.py:120-138 | when a splice-safe block is spliced in with no `<footer` after it, the page's last fragment ends with the block's `</footer>` and starts at or before the block's `<footer`, so it contains the brand and no further footer is needed |
| Footer.InsertIdempotent | lambdas/s3_upload.py:120-140 | inserting a splice-safe block twice equals inserting it once, provided no `<footer` lies after the splice point |
| Footer.EnrichIdempotent | lambdas/s3_upload.py:120-140 | `Enrich` (`InsertFooter` with FOOTER_HTML) applied to an enriched page adds no second footer and returns it unchanged with `footer_added` false, under the same proviso |
| Gateway.AllowedOriginIff | lambdas/s3_upload.py:71-73 | `AllowedOrigin` holds iff the origin is present and non-empty, and is `https://kingslanding.io` or some text followed by `.kingslanding.io` |
| Gateway.CorsHeaders | lambdas/s3_upload.py:81-86 | exactly the four CORS headers, with the allowed origin echoed |
| Gateway.SuccessHeaders | lambdas/s3_upload.py:157-158 | the CORS headers with `Content-Type: application/json` added and every other header kept; the CORS map itself is a value and stays as it was |
| Gateway.PageKey | lambdas/s3_upload.py:116 | the key is `pages/` followed by the file name |
| Gateway.PageKeyInjective | lambda_function.py:62 | different file names give different keys |
| Gateway.Admit | lambdas/s3_upload.py:66-114 | the request goes on iff the origin is allowed, it is not `OPTIONS`, the body parses, and `filename` and `html` are non-empty. A disallowed origin gets 403 with no headers. Otherwise every answer carries the CORS headers: preflight gets 204 with an empty body, an unparseable body gets 400 "Invalid JSON body", and missing fields get 400 "Missing 'filename' or 'html' content in request body" |
| ObjectStore.Store.PutObject | lambdas/s3_upload.py:144-155 | one write is logged; on success the object under the bucket and key is replaced; on failure nothing is stored and the fault text comes back |
| PagePublisher.AddFooter | lambdas/s3_upload.py:118-140 | the step-by-step decision and splice compute exactly `InsertFooter` |
| PagePublisher.UploadedMessage | lambdas/s3_upload.py:164 | the message has 70 fixed characters; it opens with `File '`, then the file name and a closing quote, and ends with the key in quotes and a period |
| PagePublisher.Publish | lambdas/s3_upload.py:142-166 | exactly one write, of the enriched page as `text/html` under `pages/<filename>`; 500 "Upload failed: …" with CORS headers on a fault; otherwise 200 with the success headers, the quoted message and `footer_added` |
| PagePublisher.Handle | lambdas/s3_upload.py:65-167 | a request the gate answers gets that answer and causes no write; otherwise the outcome is `Publish`'s |
| PlainPublisher.Publish | lambda_function.py:62-86 | exactly one write, of the page unchanged as `text/html` under `pages/<filename>`; 500 "Upload failed: …" with CORS headers on a fault; otherwise 200 with the success headers and the unquoted message |
| PlainPublisher.Handle | lambda_function.py:7-86 | the same gate as the enriched publisher, with no write on any answer; otherwise the outcome is `Publish`'s |
| PlainPublisher.UploadedMessage | lambda_function.py:85 | the message has 63 fixed characters; it opens with `File ` and then the file name, and ends with the key |
| Cdn.Distribution.CreateInvalidation | lambdas/invalidation.py:61-70 | one submission of the distribution id and batch is logged, and the environment's reply comes back |
| Invalidation.CollectPaths | lambdas/invalidation.py:23-44 | the loop builds exactly `DerivedPaths`: the records' `PathsFor` lists one after another in record order, that is per record `/<key>`, and for `index.html` also `/` |
| Invalidation.PathsFor | lambdas/invalidation.py:35-43 | a key adds `/<key>` first; two paths for `index.html` and one otherwise; `/` is among them iff the key is `index.html` or empty |
| Invalidation.DerivedPathsMembers | lambdas/invalidation.py:29-43 | a path is in `DerivedPaths` iff some record's key gives `/<key>`, or it is `/` and some key is `index.html` |
| Invalidation.DerivedPathsPerRecord | lambdas/invalidation.py:26-44 | at least one path per record, so the list is empty iff there are no records |
| Invalidation.Dedup | lambdas/invalidation.py:47 | `dict.fromkeys` keeps no duplicates and exactly the same set of elements |
| Invalidation.DedupKeepsFirstOccurrenceOrder | lambdas/invalidation.py:47 | the kept elements appear in the order of their first occurrences |
| Invalidation.DedupOfDistinct | lambdas/invalidation.py:47 | a list without repeats is left unchanged |
| Invalidation.InvalidationPathsMembers | lambdas/invalidation.py:23-47 | `InvalidationPaths`, the deduplicated list, has no repeats, and a path is in it iff some record adds it |
| Invalidation.CallerReferenceInjective | lambdas/invalidation.py:59 | `s3-event-<t>-<n>` determines both `t` and `n` |
| Invalidation.CallerReferenceReadBack | lambdas/invalidation.py:59 | `CallerReference(t, n)` starts with `s3-event-`; the rest's first `-` splits it into decimal digits reading back as `t` and decimal digits reading back as `n` |
| Invalidation.BatchFor | lambdas/invalidation.py:59-70 | the batch's `Quantity` equals the number of its `Items`; the items are the paths; the caller reference is built from the time and the path count |
| Invalidation.Handle | lambdas/invalidation.py:14-95 | `Configured` is the truth test of line 16: a missing or empty distribution id gives 500 with an `error` body and no submission. No paths gives 200 "No invalidation needed" and no submission. Otherwise exactly one batch of the deduplicated paths is submitted: success gives 200 with the id and paths, and failure gives 500 with the prefixed error and the paths |
| Invalidation.NothingToInvalidateIff | lambdas/invalidation.py:26-54 | no paths remain iff the event has no records |
| Invalidation.RepeatedRootExample | lambdas/invalidation.py:29-47 | keys `index.html`, `index.html`, `about.html` give `/index.html`, `/`, `/about.html` |

## Left out

- The boto3 clients, `put_object` and `create_invalidation`, are outcomes chosen by
  the environment (`Store.fault`, `Distribution.reply`). An invalidation reply without
  `Invalidation.Id` is not modelled.
- `print` logging.
- JSON text. Request bodies are `Unparseable` or `Parsed(filename?, html?)`. Responses
  are records, and their `body` is the JSON object before `json.dumps`.
- A missing `body` parses as `{}`; the caller passes it as `Parsed(None, None)`.
- JSON errors:
  - A body that is valid JSON but not an object makes `body.get` raise an uncaught
    error.
  - Non-string `filename`/`html` values are not modelled.
  - A `headers` entry of `null` makes `.get` raise.
  - Missing `Records` or record fields raise `KeyError`.
  Each raises in the source; in the model every field is a string or absent.
- `time.time()` and `os.environ` are parameters of `Invalidation.Handle`: `now` in
  whole seconds, and the distribution id as an `Option`.
- `unquote_plus` is not modelled; record keys are taken already decoded.
- `str.lower()` and IGNORECASE are ASCII case folding. Full Unicode folding can change
  a string's length and misalign `rfind` on the lowered copy; that edge case is not
  modelled.
- `PagePublisher.AddFooter` takes the footer block as a parameter; `Publish` passes
  `FOOTER_HTML`. This keeps the 1102-character constant out of the method's proof.
- Footer.EnrichIdempotent: proved only when no `<footer` lies after the splice point.
  The proviso is sufficient, not necessary; pages outside it can still be idempotent,
  and that is not characterised.
- The success headers copy (`cors_headers.copy()`) needs no separate model: maps are
  values in Dafny, so the CORS map cannot change.
