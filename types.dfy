/** The records the user interface passes around (`types/types.ts`). */
module Types {
  import opened Wrappers
  import opened JsValues

  /** A toggle-able name/value row used for query parameters, headers and
      form fields; `id` only identifies the row in the editor. */
  datatype KeyValuePair = KeyValuePair(id: string, key: string, value: string, enabled: bool)

  /** The `(field, newValue)` argument of an update: one of the three
      editable fields with a value of that field's type. */
  datatype FieldUpdate = SetKey(newKey: string) | SetValue(newValue: string) | SetEnabled(newEnabled: bool)

  datatype BodyType = NoneBody | FormData | UrlEncoded | Raw | Binary

  /** The editor's body state: a raw string, a list of form rows, or an
      already built `FormData`/`URLSearchParams` object. */
  datatype BodyContent = Text(text: string) | Entries(items: seq<KeyValuePair>) | FormObject

  /** JavaScript truthiness of a body: only the empty string is falsy. */
  predicate BodyTruthy(c: BodyContent) {
    !(c.Text? && c.text == "")
  }

  datatype ResponseType = TextType | ImageType | JsonType | HtmlType | PdfType

  /** The tabs of the request/response panel. */
  datatype ResponseTab = ParamsTab | HeadersTab | BodyTab | RawTab | PreviewTab

  /** The response shown in the panel. `rtype` is absent on the paths that
      do not classify the content type. */
  datatype Response = Response(
    httpMethod: string,
    url: string,
    status: int,
    statusText: string,
    headers: map<string, string>,
    body: JsValue,
    time: int,
    rtype: Option<ResponseType>)

  /** A request as the composer hands it to the store, before the backend
      has given it an id. */
  datatype RequestDraft = RequestDraft(
    name: string,
    httpMethod: string,
    url: string,
    queryParams: seq<KeyValuePair>,
    headers: seq<KeyValuePair>,
    bodyType: Option<BodyType>,
    bodyContent: Option<BodyContent>,
    collectionId: int)

  datatype SavedRequest = SavedRequest(
    id: string,
    name: string,
    httpMethod: string,
    url: string,
    queryParams: seq<KeyValuePair>,
    headers: seq<KeyValuePair>,
    bodyType: Option<BodyType>,
    bodyContent: Option<BodyContent>,
    collectionId: int)

  /** `{ ...draft, id }`. */
  function WithId(d: RequestDraft, id: string): (r: SavedRequest)
    ensures r.id == id && r.name == d.name && r.httpMethod == d.httpMethod && r.url == d.url
    ensures r.queryParams == d.queryParams && r.headers == d.headers
    ensures r.bodyType == d.bodyType && r.bodyContent == d.bodyContent && r.collectionId == d.collectionId
  {
    SavedRequest(id, d.name, d.httpMethod, d.url, d.queryParams, d.headers, d.bodyType, d.bodyContent, d.collectionId)
  }

  /** A named, ordered group of saved requests; `isOpen` may be unset. */
  datatype Collection = Collection(id: int, name: string, isOpen: Option<bool>, requests: seq<SavedRequest>)
}
