/** What the crawler reads off an HTTP HEAD exchange: the URL the request finally
    reached, and the MIME type the response declares. */
module ResponseInspection {

  import opened Common
  import opened JavaStrings

  /** A URL in its string form. */
  type Url = string

  /** The MIME type `ContentType.TEXT_HTML` stands for. */
  const TextHtml: string := "text/html"

  /** The MIME type `ContentType.DEFAULT_TEXT` stands for. */
  const TextPlain: string := "text/plain"

  /** A completed HTTP HEAD exchange, as far as the crawler looks at it.
      `redirectLocations` are the locations the client context recorded, in order; the
      client records none (the context answers null) when there was no redirect, and
      an empty list stands for that null. `contentType` is the first `Content-Type`
      header: `None` when there is none, `Some(None)` when it carries no value.
      `parsedMimeType` is what `ContentType.parse` makes of that value, `None` when the
      parser throws `ParseException` or `UnsupportedCharsetException`. */
  datatype HeadResponse = HeadResponse(
    redirectLocations: seq<Url>,
    contentType: Option<Option<string>>,
    parsedMimeType: Option<string>)

  /** `getFinalResponseUrl`: the last redirect location if the request was redirected,
      otherwise the candidate's own URL. */
  function FinalResponseUrl(redirectLocations: seq<Url>, candidateUrl: Url): (r: Url)
    ensures redirectLocations == [] ==> r == candidateUrl
    ensures redirectLocations != [] ==> r == redirectLocations[|redirectLocations| - 1]
    ensures r in redirectLocations + [candidateUrl]
  {
    if redirectLocations != [] then redirectLocations[|redirectLocations| - 1] else candidateUrl
  }

  /** The header value, when there is a `Content-Type` header that carries one. */
  predicate HasContentTypeValue(h: HeadResponse) {
    h.contentType.Some? && h.contentType.value.Some?
  }

  /** `getResponseMimeType` as written: a missing header or value gives "text/plain",
      a parsable value gives the parser's MIME type, and otherwise the fallback
      `contentType.split(";")[0].trim()` runs, which throws
      `ArrayIndexOutOfBoundsException` when the split yields no element. */
  function ResponseMimeTypeAsWritten(h: HeadResponse): (r: Result<string>)
    ensures !HasContentTypeValue(h) ==> r == Ok(TextPlain)
    ensures HasContentTypeValue(h) && h.parsedMimeType.Some? ==> r == Ok(h.parsedMimeType.value)
  {
    if !HasContentTypeValue(h) then Ok(TextPlain)
    else if h.parsedMimeType.Some? then Ok(h.parsedMimeType.value)
    else
      var pieces := JavaSplit(h.contentType.value.value, ';');
      if |pieces| == 0 then Err(IndexOutOfBounds) else Ok(Trim(pieces[0]))
  }

  /** The fallback throws exactly for a value that is non-empty and consists of ';'
      only, and only when the parser has rejected it. */
  lemma AsWrittenThrowsIff(h: HeadResponse)
    ensures ResponseMimeTypeAsWritten(h).Err? <==>
      HasContentTypeValue(h) && h.parsedMimeType.None?
      && |h.contentType.value.value| > 0 && AllChar(h.contentType.value.value, ';')
  {
    if HasContentTypeValue(h) {
      JavaSplitFirst(h.contentType.value.value, ';');
    }
  }

  /** The header "Content-Type: ;", which the parser rejects, makes the as-written
      fallback throw instead of yielding a MIME type. */
  lemma SemicolonOnlyHeaderThrows()
    ensures ResponseMimeTypeAsWritten(HeadResponse([], Some(Some(";")), None)) == Err(IndexOutOfBounds)
    ensures ResponseMimeType(HeadResponse([], Some(Some(";")), None)) == ""
  {
    JavaSplitFirst(";", ';');
    assert BeforeFirst(";", ';') == [];
  }

  /** `getResponseMimeType` as evidently intended: the fallback is the trimmed text
      before the first ';', which is defined for every header value. It never throws,
      and the fallback result holds no ';' and no surrounding blanks. */
  function ResponseMimeType(h: HeadResponse): (m: string)
    ensures !HasContentTypeValue(h) ==> m == TextPlain
    ensures HasContentTypeValue(h) && h.parsedMimeType.Some? ==> m == h.parsedMimeType.value
    ensures HasContentTypeValue(h) && h.parsedMimeType.None? ==>
      ';' !in m && Trim(m) == m && m == Trim(BeforeFirst(h.contentType.value.value, ';'))
  {
    if !HasContentTypeValue(h) then TextPlain
    else if h.parsedMimeType.Some? then h.parsedMimeType.value
    else
      var m := Trim(BeforeFirst(h.contentType.value.value, ';'));
      TrimIdempotent(BeforeFirst(h.contentType.value.value, ';'));
      m
  }

  /** Wherever the as-written function returns, the corrected one returns the same
      MIME type: the correction only replaces the exception. */
  lemma CorrectedAgreesWithAsWritten(h: HeadResponse)
    ensures ResponseMimeTypeAsWritten(h).Ok? ==> ResponseMimeTypeAsWritten(h).value == ResponseMimeType(h)
  {
    if HasContentTypeValue(h) {
      JavaSplitFirst(h.contentType.value.value, ';');
    }
  }
}
