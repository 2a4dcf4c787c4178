/** The request composer (`hooks/useRequests.ts`): the query-parameter and
    header editors, and `sendRequest`, which builds the outgoing request,
    routes it either straight to the target or through the backend proxy,
    and normalises whatever comes back (including every failure) into the
    response shown in the panel. */
module Requests {
  import opened Wrappers
  import opened JsText
  import opened JsValues
  import opened Types
  import opened Seqs
  import opened KeyValues

  /** The browser services `sendRequest` uses that are not written out
      here, passed in as functions:
      - `parseJson`: `JSON.parse`, or the message of the `SyntaxError` it throws;
      - `parseUrl`: the entries of `new URL(u).searchParams`, or the
        message of the `TypeError` the constructor throws;
      - `serializeUrl`: `url.toString()` after the given query entries;
      - `typeError`: the message of the `TypeError` thrown on reading the
        named property of `null`. */
  datatype Platform = Platform(
    parseJson: string -> Result<JsValue>,
    parseUrl: string -> Result<seq<(string, string)>>,
    serializeUrl: (string, seq<(string, string)>) -> string,
    typeError: string -> string)

  /** What the one `fetch` of a send yields: a rejection with its message,
      or a response with its body read as text (`text()`, `json()`) and as
      a data URL (`blob()` through `FileReader.readAsDataURL`). Header
      names are lower case, as `Headers.entries()` gives them. */
  datatype Reply =
    | FetchFailed(message: string)
    | Received(ok: bool, status: int, statusText: string, headers: map<string, string>, text: string, dataUrl: string)

  /** The body handed to the transport. */
  datatype OutgoingBody =
    | NoBody
    | RawBody(content: BodyContent)
    | MultipartBody(fields: seq<(string, string)>)
    | UrlEncodedBody(fields: seq<(string, string)>)

  /** The request POSTed to the proxy endpoint. */
  datatype Envelope = Envelope(httpMethod: string, uri: string, headers: map<string, seq<string>>, body: OutgoingBody)

  /** Where a send goes: straight to the target with fixed headers, or to
      the proxy, with the slim envelope used for GET or the full one. */
  datatype Dispatch =
    | Direct(httpMethod: string, url: string, headers: map<string, string>)
    | ProxyGet(envelope: Envelope)
    | ProxyFull(envelope: Envelope)

  const DemoFragment := "lotr/random-character"
  const ProxyEndpoint := "https://supsi-ticket.cloudns.org/supsi-http-client/proxy/execute"
  const JsonMime := "application/json"
  const InvalidDataMessage := "Invalid response data"

  // ---------------------------------------------------------------------
  // URL query

  /** `parseUrlQueryParams`: the URL's own query as enabled rows with ids
      "1", "2", ... */
  function UrlParams(q: seq<(string, string)>): (r: seq<KeyValuePair>)
    ensures |r| == |q| && Pairs(r) == q
    ensures forall i :: 0 <= i < |r| ==> r[i].enabled
  {
    assert forall i :: 0 <= i < |q| ==> Pairs(seq(|q|, j requires 0 <= j < |q| => KeyValuePair(NatToString(j + 1), q[j].0, q[j].1, true)))[i] == q[i];
    seq(|q|, i requires 0 <= i < |q| => KeyValuePair(NatToString(i + 1), q[i].0, q[i].1, true))
  }

  /** The query of the URL that is sent: the URL's own entries, then the
      active rows of the composer. */
  function FinalQuery(urlQuery: seq<(string, string)>, params: seq<KeyValuePair>): (r: seq<(string, string)>)
    ensures |urlQuery| <= |r| && r[..|urlQuery|] == urlQuery
    ensures forall i :: |urlQuery| <= i < |r| ==> PairOfActiveRow(params, r[i])
  {
    forall k | 0 <= k < |ActivePairs(params)|
      ensures PairOfActiveRow(params, ActivePairs(params)[k])
    {
      ActivePairFrom(params, k);
    }
    urlQuery + ActivePairs(params)
  }

  /** Appends the key and value of every active row to `start`, one
      `append` per row, as the `forEach` loops of the source do. */
  method AppendActive(start: seq<(string, string)>, rows: seq<KeyValuePair>) returns (out: seq<(string, string)>)
    ensures out == start + ActivePairs(rows)
  {
    out := start;
    var i := 0;
    while i < |rows|
      invariant 0 <= i <= |rows|
      invariant out == start + ActivePairs(rows[..i])
    {
      assert rows[..i + 1] == rows[..i] + [rows[i]];
      ActivePairsSnoc(rows[..i], rows[i]);
      if IsActive(rows[i]) {
        out := out + [(rows[i].key, rows[i].value)];
      }
      i := i + 1;
    }
    assert rows[..i] == rows;
  }

  /** The URL's query rows are numbered "1", "2", ... in order, so no two
      of them share an id: removing one by id removes only that row. */
  lemma UrlParamsSpec(q: seq<(string, string)>)
    ensures forall i :: 0 <= i < |q| ==> UrlParams(q)[i].id == NatToString(i + 1)
    ensures forall i, j :: 0 <= i < j < |q| ==> UrlParams(q)[i].id != UrlParams(q)[j].id
  {
    forall i, j | 0 <= i < j < |q|
      ensures UrlParams(q)[i].id != UrlParams(q)[j].id
    {
      if UrlParams(q)[i].id == UrlParams(q)[j].id {
        NatToStringInjective(i + 1, j + 1);
      }
    }
  }

  /** Because the final URL keeps the URL's own query AND appends the
      composer's rows, and a send replaces those rows by the URL's query,
      sending the same URL a second time repeats every entry of its query. */
  lemma RepeatedSendRepeatsQuery(q: seq<(string, string)>)
    requires forall i :: 0 <= i < |q| ==> q[i].0 != ""
    ensures FinalQuery(q, UrlParams(q)) == q + q
  {
    FilterKeepsAll(UrlParams(q), IsActive);
  }

  /** The URL's own query does not replace the composer's rows in the URL
      that is sent: `?a=1` with a composed row `b=2` sends both. */
  lemma StaleRowsAreAppended()
    ensures FinalQuery([("a", "1")], [KeyValuePair("1", "b", "2", true)]) == [("a", "1"), ("b", "2")]
  {
    ActivePairsDistributes([], [KeyValuePair("1", "b", "2", true)]);
  }

  // ---------------------------------------------------------------------
  // Body

  function RowsOf(c: BodyContent): seq<KeyValuePair> {
    if c.Entries? then c.items else []
  }

  /** The body of a send, as the `switch` on the body type builds it. */
  function ExpectedBody(httpMethod: string, bodyType: Option<BodyType>, bodyContent: Option<BodyContent>): (b: OutgoingBody)
    ensures b != NoBody ==> httpMethod != "GET" && bodyType.Some? && bodyContent.Some? && BodyTruthy(bodyContent.value)
    ensures b.RawBody? ==> bodyType == Some(Raw) && bodyContent == Some(b.content)
    ensures b.MultipartBody? ==> bodyType == Some(FormData)
    ensures b.UrlEncodedBody? ==> bodyType == Some(UrlEncoded)
  {
    if httpMethod != "GET" && bodyType.Some? && bodyContent.Some? && BodyTruthy(bodyContent.value) then
      match bodyType.value
      case Raw => RawBody(bodyContent.value)
      case FormData => MultipartBody(ActivePairs(RowsOf(bodyContent.value)))
      case UrlEncoded => UrlEncodedBody(ActivePairs(RowsOf(bodyContent.value)))
      case _ => NoBody
    else NoBody
  }

  method BuildRequestBody(httpMethod: string, bodyType: Option<BodyType>, bodyContent: Option<BodyContent>)
    returns (requestBody: OutgoingBody)
    ensures requestBody == ExpectedBody(httpMethod, bodyType, bodyContent)
  {
    requestBody := NoBody;
    if httpMethod != "GET" && bodyType.Some? && bodyContent.Some? && BodyTruthy(bodyContent.value) {
      var content := bodyContent.value;
      match bodyType.value {
        case Raw =>
          requestBody := RawBody(content);
        case FormData =>
          var fields := [];
          if content.Entries? {
            fields := AppendActive(fields, content.items);
          }
          requestBody := MultipartBody(fields);
        case UrlEncoded =>
          var fields := [];
          if content.Entries? {
            fields := AppendActive(fields, content.items);
          }
          requestBody := UrlEncodedBody(fields);
        case _ =>
      }
    }
  }

  /** No body for GET, for a missing body type or a missing or empty
      content, nor for the types the switch has no case for; raw content
      goes through unchanged; a form body holds exactly the active rows in
      order, and nothing when the content is not a row list. */
  lemma BodyCases(httpMethod: string, bodyType: Option<BodyType>, bodyContent: Option<BodyContent>)
    ensures httpMethod == "GET" || bodyType.None? || bodyContent.None? || !BodyTruthy(bodyContent.value)
            ==> ExpectedBody(httpMethod, bodyType, bodyContent) == NoBody
    ensures bodyType == Some(NoneBody) || bodyType == Some(Binary) ==> ExpectedBody(httpMethod, bodyType, bodyContent) == NoBody
    ensures httpMethod != "GET" && bodyType == Some(Raw) && bodyContent.Some? && BodyTruthy(bodyContent.value)
            ==> ExpectedBody(httpMethod, bodyType, bodyContent) == RawBody(bodyContent.value)
    ensures httpMethod != "GET" && bodyType == Some(FormData) && bodyContent.Some?
            ==> ((bodyContent.value.Entries? ==> ExpectedBody(httpMethod, bodyType, bodyContent) == MultipartBody(ActivePairs(bodyContent.value.items)))
                 && (!bodyContent.value.Entries? && BodyTruthy(bodyContent.value) ==> ExpectedBody(httpMethod, bodyType, bodyContent) == MultipartBody([])))
    ensures httpMethod != "GET" && bodyType == Some(UrlEncoded) && bodyContent.Some?
            ==> ((bodyContent.value.Entries? ==> ExpectedBody(httpMethod, bodyType, bodyContent) == UrlEncodedBody(ActivePairs(bodyContent.value.items)))
                 && (!bodyContent.value.Entries? && BodyTruthy(bodyContent.value) ==> ExpectedBody(httpMethod, bodyType, bodyContent) == UrlEncodedBody([])))
  {
  }

  // ---------------------------------------------------------------------
  // Routing

  predicate IsDirectMethod(httpMethod: string) {
    httpMethod == "DELETE" || httpMethod == "PUT" || httpMethod == "POST" || httpMethod == "GET"
  }

  /** The fixed headers of a direct call. */
  function DirectHeaders(httpMethod: string): map<string, string> {
    if httpMethod == "GET" then map["Accept" := JsonMime]
    else map["Accept" := JsonMime, "Content-Type" := JsonMime]
  }

  /** Each header value as a one-element list. */
  function WrapValues(h: map<string, string>): (r: map<string, seq<string>>)
    ensures r.Keys == h.Keys
    ensures forall k :: k in h ==> r[k] == [h[k]]
  {
    map k | k in h :: [h[k]]
  }

  /** Every route targets the final URL with the requested method. */
  function Route(httpMethod: string, finalUrl: string, headers: map<string, string>, body: OutgoingBody): (d: Dispatch)
    ensures d.Direct? ==> d.httpMethod == httpMethod && d.url == finalUrl
    ensures !d.Direct? ==> d.envelope.httpMethod == httpMethod && d.envelope.uri == finalUrl
  {
    if IsDirectMethod(httpMethod) && Contains(finalUrl, DemoFragment) then
      Direct(httpMethod, finalUrl, DirectHeaders(httpMethod))
    else if httpMethod == "GET" then
      ProxyGet(Envelope(httpMethod, finalUrl, map["Accept" := [JsonMime]], NoBody))
    else
      ProxyFull(Envelope(httpMethod, finalUrl, WrapValues(headers), body))
  }

  /** A demo URL is called directly, with JSON Accept (and, except for GET,
      Content-Type) headers and no body; any other GET goes to the proxy
      with an Accept header only; everything else goes to the proxy with
      each active header as a one-element list and the built body. The
      envelope is the object before `JSON.stringify`, which sends a form
      body as `{}`. */
  lemma RouteSpec(httpMethod: string, finalUrl: string, headers: map<string, string>, body: OutgoingBody)
    ensures Route(httpMethod, finalUrl, headers, body).Direct?
            <==> IsDirectMethod(httpMethod) && Contains(finalUrl, DemoFragment)
    ensures Route(httpMethod, finalUrl, headers, body).Direct? ==>
              var h := Route(httpMethod, finalUrl, headers, body).headers;
              "Accept" in h && h["Accept"] == JsonMime
              && (httpMethod == "GET" ==> h.Keys == {"Accept"})
              && (httpMethod != "GET" ==> h.Keys == {"Accept", "Content-Type"} && h["Content-Type"] == JsonMime)
    ensures Route(httpMethod, finalUrl, headers, body).ProxyGet?
            <==> httpMethod == "GET" && !Contains(finalUrl, DemoFragment)
    ensures Route(httpMethod, finalUrl, headers, body).ProxyGet? ==>
              var e := Route(httpMethod, finalUrl, headers, body).envelope;
              e.headers.Keys == {"Accept"} && e.headers["Accept"] == [JsonMime] && e.body == NoBody
    ensures Route(httpMethod, finalUrl, headers, body).ProxyFull? ==>
              var e := Route(httpMethod, finalUrl, headers, body).envelope;
              e.body == body && e.headers.Keys == headers.Keys
              && forall k :: k in headers ==> e.headers[k] == [headers[k]]
  {
  }

  // ---------------------------------------------------------------------
  // Classification of the proxy's reply

  /** `headers.get('content-type') || ''`. */
  function ContentTypeOf(headers: map<string, string>): string {
    if "content-type" in headers then headers["content-type"] else ""
  }

  /** The rendering hint of a full-proxy reply: pdf, then image, then json,
      then html; anything else is text. */
  function ClassifyContentType(ct: string): (r: ResponseType)
    ensures r == PdfType <==> Contains(ct, "application/pdf")
    ensures r == ImageType <==> !Contains(ct, "application/pdf") && Contains(ct, "image/")
    ensures r == JsonType <==> !Contains(ct, "application/pdf") && !Contains(ct, "image/") && Contains(ct, JsonMime)
    ensures r == HtmlType <==> !Contains(ct, "application/pdf") && !Contains(ct, "image/") && !Contains(ct, JsonMime)
                               && Contains(ct, "text/html")
    ensures r == TextType <==> !Contains(ct, "application/pdf") && !Contains(ct, "image/") && !Contains(ct, JsonMime)
                               && !Contains(ct, "text/html")
  {
    if Contains(ct, "application/pdf") then PdfType
    else if Contains(ct, "image/") then ImageType
    else if Contains(ct, JsonMime) then JsonType
    else if Contains(ct, "text/html") then HtmlType
    else if Contains(ct, "text/plain") then TextType
    else TextType
  }

  /** The reply is read as a binary blob rather than as text. */
  predicate ReadsAsBinary(ct: string) {
    Contains(ct, "image/") || Contains(ct, "application/octet-stream") || Contains(ct, "application/pdf")
  }

  /** Every pdf or image reply is read as binary; a binary reply that is
      neither is an octet stream, rendered as text. */
  lemma BinaryCoversPdfAndImage(ct: string)
    ensures ClassifyContentType(ct) == PdfType || ClassifyContentType(ct) == ImageType ==> ReadsAsBinary(ct)
    ensures ReadsAsBinary(ct) && ClassifyContentType(ct) != PdfType && ClassifyContentType(ct) != ImageType
            ==> ClassifyContentType(ct) in {JsonType, HtmlType, TextType} && Contains(ct, "application/octet-stream")
  {
  }

  // ---------------------------------------------------------------------
  // Normalisation

  /** The `{status, statusText, headers, body}` object built around a
      reply that is not JSON (or is binary). */
  function WrapperPayload(status: int, statusText: string, headers: map<string, string>, body: string): JsValue {
    Object(map["status" := Num(status), "statusText" := Str(statusText),
               "headers" := StringMapValue(headers), "body" := Str(body)])
  }

  /** `JSON.parse(text)`, falling back to the wrapper object. */
  function ReadPayload(env: Platform, r: Reply): JsValue
    requires r.Received?
  {
    match env.parseJson(r.text)
    case Ok(v) => v
    case Err(_) => WrapperPayload(r.status, r.statusText, r.headers, r.text)
  }

  /** `data.status || fallback`, for a number. */
  function StatusField(v: JsValue, fallback: int): int {
    if v.Num? && v.n != 0 then v.n else fallback
  }

  /** `data.statusText || ""`, for a string. */
  function TextField(v: JsValue): string {
    if v.Str? then v.s else ""
  }

  /** `data.headers || {}`, for an object; entries whose value is not a
      string are dropped. */
  function HeadersField(v: JsValue): (h: map<string, string>)
    ensures forall k :: k in h ==> v.Object? && k in v.fields && v.fields[k] == Str(h[k])
    ensures v.Object? ==> forall k :: k in v.fields && v.fields[k].Str? ==> k in h
  {
    if v.Object? then map k | k in v.fields && v.fields[k].Str? :: v.fields[k].s else map[]
  }

  /** The response built from a payload object `data`. Reading `status` of
      `null` throws. */
  function Normalize(env: Platform, httpMethod: string, finalUrl: string, data: JsValue, replyStatus: int,
                     elapsed: int, rtype: Option<ResponseType>): (res: Result<Response>)
    ensures res.Err? <==> IsNullish(data)
    ensures res.Ok? ==> res.value.httpMethod == httpMethod && res.value.url == finalUrl
                        && res.value.time == elapsed && res.value.rtype == rtype
    ensures res.Ok? ==> res.value.status != 0 || replyStatus == 0
    ensures res.Ok? ==> Truthy(res.value.body) || res.value.body == Str("")
  {
    if IsNullish(data) then Err(env.typeError("status"))
    else Ok(Response(httpMethod, finalUrl,
                     StatusField(Field(data, "status"), replyStatus),
                     TextField(Field(data, "statusText")),
                     HeadersField(Field(data, "headers")),
                     Or(Field(data, "body"), Str("")),
                     elapsed, rtype))
  }

  function HttpErrorMessage(status: int): string {
    "HTTP error! status: " + IntToString(status)
  }

  /** The response of the dispatched call, or the message of the error it
      throws. */
  function Deliver(env: Platform, httpMethod: string, finalUrl: string, d: Dispatch, r: Reply, elapsed: int): (res: Result<Response>)
    ensures r.FetchFailed? ==> res == Err(r.message)
    ensures res.Ok? ==> res.value.httpMethod == httpMethod && res.value.url == finalUrl && res.value.time == elapsed
    ensures res.Ok? ==> (res.value.rtype.Some? <==> d.ProxyFull?)
  {
    match r
    case FetchFailed(message) => Err(message)
    case Received(ok, status, statusText, headers, text, dataUrl) =>
      match d
      case Direct(_, _, _) =>
        if !ok then Err(HttpErrorMessage(status))
        else (match env.parseJson(text)
              case Err(e) => Err(e)
              case Ok(data) => Ok(Response(httpMethod, finalUrl, status, statusText, headers, data, elapsed, None)))
      case ProxyGet(_) =>
        if !ok then Err(HttpErrorMessage(status))
        else Normalize(env, httpMethod, finalUrl, ReadPayload(env, r), status, elapsed, None)
      case ProxyFull(_) =>
        var ct := ContentTypeOf(headers);
        var data := if ReadsAsBinary(ct) then WrapperPayload(status, statusText, headers, dataUrl) else ReadPayload(env, r);
        if !Truthy(data) then Err(InvalidDataMessage)
        else Normalize(env, httpMethod, finalUrl, data, status, elapsed, Some(ClassifyContentType(ct)))
  }

  /** The response recorded when a send throws: status 0, "Failed", no
      headers, the message as body and the URL as the user typed it. */
  function Failure(httpMethod: string, url: string, message: string, elapsed: int): Response {
    Response(httpMethod, url, 0, "Failed", map[], Str(message), elapsed, None)
  }

  /** The response a (non-blank) send ends with, given the composer rows it
      saw when it started. */
  function SendOutcome(env: Platform, httpMethod: string, url: string, bodyType: Option<BodyType>,
                       bodyContent: Option<BodyContent>, params: seq<KeyValuePair>,
                       headers: seq<KeyValuePair>, r: Reply, elapsed: int): (resp: Response)
    ensures resp.httpMethod == httpMethod && resp.time == elapsed
    ensures resp.url == url
            || (env.parseUrl(url).Ok? && resp.url == env.serializeUrl(url, FinalQuery(env.parseUrl(url).value, params)))
    ensures env.parseUrl(url).Err? || r.FetchFailed? ==> resp.status == 0 && resp.statusText == "Failed" && resp.headers == map[]
    ensures env.parseUrl(url).Ok? ==>
              var finalUrl := env.serializeUrl(url, FinalQuery(env.parseUrl(url).value, params));
              var d := Route(httpMethod, finalUrl, ActiveHeaders(headers), ExpectedBody(httpMethod, bodyType, bodyContent));
              var res := Deliver(env, httpMethod, finalUrl, d, r, elapsed);
              (res.Err? ==> resp == Failure(httpMethod, url, res.error, elapsed))
              && (res.Ok? ==> resp == res.value)
  {
    match env.parseUrl(url)
    case Err(e) => Failure(httpMethod, url, e, elapsed)
    case Ok(q) =>
      var finalUrl := env.serializeUrl(url, FinalQuery(q, params));
      var d := Route(httpMethod, finalUrl, ActiveHeaders(headers), ExpectedBody(httpMethod, bodyType, bodyContent));
      match Deliver(env, httpMethod, finalUrl, d, r, elapsed)
      case Ok(resp) => resp
      case Err(e) => Failure(httpMethod, url, e, elapsed)
  }

  /** The query rows after a send: replaced by the URL's own query when it
      has one. */
  function ParamsAfterSend(env: Platform, url: string, params: seq<KeyValuePair>): (ps: seq<KeyValuePair>)
    ensures env.parseUrl(url).Ok? && |env.parseUrl(url).value| > 0 ==>
              Pairs(ps) == env.parseUrl(url).value && forall i :: 0 <= i < |ps| ==> ps[i].enabled
    ensures !(env.parseUrl(url).Ok? && |env.parseUrl(url).value| > 0) ==> ps == params
  {
    match env.parseUrl(url)
    case Ok(q) => if |q| > 0 then UrlParams(q) else params
    case Err(_) => params
  }

  /** Every error thrown during a send ends in the failure response, which
      carries the URL as typed, not the final one: an unparsable URL, a
      rejected fetch, a non-ok reply to a direct call or to the GET envelope,
      a direct reply that is not JSON, a `null` payload from the GET
      envelope, and a falsy payload from the full envelope. */
  lemma FailuresNormalised(env: Platform, httpMethod: string, url: string, bodyType: Option<BodyType>,
                           bodyContent: Option<BodyContent>, params: seq<KeyValuePair>,
                           headers: seq<KeyValuePair>, r: Reply, elapsed: int)
    ensures r.FetchFailed? && env.parseUrl(url).Ok? ==>
              SendOutcome(env, httpMethod, url, bodyType, bodyContent, params, headers, r, elapsed)
              == Failure(httpMethod, url, r.message, elapsed)
    ensures env.parseUrl(url).Err? ==>
              SendOutcome(env, httpMethod, url, bodyType, bodyContent, params, headers, r, elapsed)
              == Failure(httpMethod, url, env.parseUrl(url).error, elapsed)
    ensures env.parseUrl(url).Ok? && r.Received? ==>
              var finalUrl := env.serializeUrl(url, FinalQuery(env.parseUrl(url).value, params));
              var d := Route(httpMethod, finalUrl, ActiveHeaders(headers), ExpectedBody(httpMethod, bodyType, bodyContent));
              var resp := SendOutcome(env, httpMethod, url, bodyType, bodyContent, params, headers, r, elapsed);
              (!r.ok && !d.ProxyFull? ==> resp == Failure(httpMethod, url, HttpErrorMessage(r.status), elapsed))
              && (r.ok && d.Direct? && env.parseJson(r.text).Err? ==>
                    resp == Failure(httpMethod, url, env.parseJson(r.text).error, elapsed))
              && (r.ok && d.ProxyGet? && env.parseJson(r.text) == Ok(Null) ==>
                    resp == Failure(httpMethod, url, env.typeError("status"), elapsed))
              && (d.ProxyFull? && !ReadsAsBinary(ContentTypeOf(r.headers)) && env.parseJson(r.text).Ok?
                  && !Truthy(env.parseJson(r.text).value) ==>
                    resp == Failure(httpMethod, url, InvalidDataMessage, elapsed))
  {
  }

  /** A non-ok reply to a direct call or to the GET envelope is thrown and
      ends in the failure response; the full envelope instead reports the
      proxy's own status, and classifies the content type. */
  lemma NonOkReplies(env: Platform, httpMethod: string, finalUrl: string, d: Dispatch, r: Reply, elapsed: int)
    requires r.Received? && !r.ok
    ensures d.Direct? || d.ProxyGet? ==> Deliver(env, httpMethod, finalUrl, d, r, elapsed) == Err(HttpErrorMessage(r.status))
    ensures d.ProxyFull? && !ReadsAsBinary(ContentTypeOf(r.headers)) && env.parseJson(r.text).Err?
            ==> Deliver(env, httpMethod, finalUrl, d, r, elapsed).Ok?
                && Deliver(env, httpMethod, finalUrl, d, r, elapsed).value.status == r.status
                && Deliver(env, httpMethod, finalUrl, d, r, elapsed).value.body == Or(Str(r.text), Str(""))
                && Deliver(env, httpMethod, finalUrl, d, r, elapsed).value.rtype == Some(ClassifyContentType(ContentTypeOf(r.headers)))
  {
    if d.ProxyFull? && !ReadsAsBinary(ContentTypeOf(r.headers)) && env.parseJson(r.text).Err? {
      var data := WrapperPayload(r.status, r.statusText, r.headers, r.text);
      assert Field(data, "status") == Num(r.status);
      assert Field(data, "body") == Str(r.text);
    }
  }

  /** A binary reply through the full envelope keeps the proxy's status,
      status text and headers, and carries the data URL as its body. */
  lemma BinaryReply(env: Platform, httpMethod: string, finalUrl: string, e: Envelope, r: Reply, elapsed: int)
    requires r.Received? && ReadsAsBinary(ContentTypeOf(r.headers))
    ensures Deliver(env, httpMethod, finalUrl, ProxyFull(e), r, elapsed).Ok?
    ensures var resp := Deliver(env, httpMethod, finalUrl, ProxyFull(e), r, elapsed).value;
            resp.status == r.status && resp.statusText == r.statusText && resp.headers == r.headers
            && resp.body == Or(Str(r.dataUrl), Str("")) && resp.url == finalUrl
  {
    var data := WrapperPayload(r.status, r.statusText, r.headers, r.dataUrl);
    assert Field(data, "status") == Num(r.status);
    assert Field(data, "statusText") == Str(r.statusText);
    assert Field(data, "headers") == StringMapValue(r.headers);
    assert Field(data, "body") == Str(r.dataUrl);
    assert HeadersField(StringMapValue(r.headers)) == r.headers;
  }

  // ---------------------------------------------------------------------
  // The composer's state

  class RequestComposer {
    var isLoading: bool
    var response: Option<Response>
    var queryParams: seq<KeyValuePair>
    var requestHeaders: seq<KeyValuePair>

    constructor ()
      ensures !isLoading && response == None
      ensures queryParams == [KeyValuePair("1", "", "", false)]
      ensures requestHeaders == [KeyValuePair("1", "Content-Type", JsonMime, true), KeyValuePair("2", "Accept", JsonMime, true)]
    {
      isLoading := false;
      response := None;
      queryParams := [KeyValuePair("1", "", "", false)];
      requestHeaders := [KeyValuePair("1", "Content-Type", JsonMime, true), KeyValuePair("2", "Accept", JsonMime, true)];
    }

    /** `freshId` is the `Date.now()` string the source uses. */
    method AddQueryParam(freshId: string)
      modifies this`queryParams
      ensures queryParams == Add(old(queryParams), freshId)
    {
      queryParams := Add(queryParams, freshId);
    }

    method UpdateQueryParam(id: string, u: FieldUpdate)
      modifies this`queryParams
      ensures queryParams == Update(old(queryParams), id, u)
    {
      queryParams := Update(queryParams, id, u);
    }

    method RemoveQueryParam(id: string)
      modifies this`queryParams
      ensures queryParams == Remove(old(queryParams), id)
    {
      queryParams := Remove(queryParams, id);
    }

    method AddRequestHeader(freshId: string)
      modifies this`requestHeaders
      ensures requestHeaders == Add(old(requestHeaders), freshId)
    {
      requestHeaders := Add(requestHeaders, freshId);
    }

    method UpdateRequestHeader(id: string, u: FieldUpdate)
      modifies this`requestHeaders
      ensures requestHeaders == Update(old(requestHeaders), id, u)
    {
      requestHeaders := Update(requestHeaders, id, u);
    }

    method RemoveRequestHeader(id: string)
      modifies this`requestHeaders
      ensures requestHeaders == Remove(old(requestHeaders), id)
    {
      requestHeaders := Remove(requestHeaders, id);
    }

    method SetQueryParams(rows: seq<KeyValuePair>)
      modifies this`queryParams
      ensures queryParams == rows
    {
      queryParams := rows;
    }

    method SetRequestHeaders(rows: seq<KeyValuePair>)
      modifies this`requestHeaders
      ensures requestHeaders == rows
    {
      requestHeaders := rows;
    }

    /** `sendRequest`. A blank URL changes nothing. Otherwise the send ends
        not loading, with the URL's own query (if any) as the new query
        rows, and with the response `SendOutcome` gives for the rows as
        they were when the send started: the final URL is built from the
        composer's rows of that moment, because the replacement of the
        rows takes effect only after the send. */
    method SendRequest(httpMethod: string, url: string, bodyType: Option<BodyType>, bodyContent: Option<BodyContent>,
                       env: Platform, reply: Reply, elapsed: int)
      modifies this`isLoading, this`response, this`queryParams
      ensures IsBlank(url) ==> isLoading == old(isLoading) && response == old(response) && queryParams == old(queryParams)
      ensures !IsBlank(url) ==>
                !isLoading
                && queryParams == ParamsAfterSend(env, url, old(queryParams))
                && response == Some(SendOutcome(env, httpMethod, url, bodyType, bodyContent,
                                                old(queryParams), requestHeaders, reply, elapsed))
    {
      if IsBlank(url) {
        return;
      }
      isLoading := true;
      var staleParams := queryParams;
      var outcome: Result<Response>;
      var parsed := env.parseUrl(url);
      if parsed.Ok? && |parsed.value| > 0 {
        queryParams := UrlParams(parsed.value);
      }
      match parsed {
        case Err(e) =>
          outcome := Err(e);
        case Ok(urlQuery) =>
          var finalQuery := AppendActive(urlQuery, staleParams);
          var finalUrl := env.serializeUrl(url, finalQuery);
          var headers := ActiveHeaders(requestHeaders);
          var requestBody := BuildRequestBody(httpMethod, bodyType, bodyContent);
          var dispatch := Route(httpMethod, finalUrl, headers, requestBody);
          outcome := Deliver(env, httpMethod, finalUrl, dispatch, reply, elapsed);
      }
      match outcome {
        case Ok(r) =>
          response := Some(r);
        case Err(e) =>
          response := Some(Failure(httpMethod, url, e, elapsed));
      }
      isLoading := false;
    }
  }
}
