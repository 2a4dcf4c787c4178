/** The request editor (`components/MainContent.tsx`): it loads a selected
    request into the composer, sends the request being edited, and builds
    the request to save or update. The request handed in by the sidebar is
    whatever the backend returned, so its fields may be missing or have
    another shape than the editor's own. */
module MainContent {
  import opened Wrappers
  import opened JsText
  import opened Types
  import opened Seqs
  import opened KeyValues
  import Requests
  import ResponseView
  import RequestStore

  const SelectCollectionMessage := "Please select a collection to save the request"

  /** A header value of a request as the backend stores it. */
  datatype HeaderValue = Single(value: string) | Several(values: seq<string>)

  /** The headers of a loaded request: the editor's own rows, or the
      backend's object of header values (in its key order), or none. */
  datatype LoadedHeaders =
    | HeaderRows(rows: seq<KeyValuePair>)
    | HeaderObject(entries: seq<(string, HeaderValue)>)
    | HeadersMissing

  /** The active request as the editor receives it. */
  datatype LoadedRequest = LoadedRequest(
    id: string,
    name: string,
    httpMethod: string,
    url: Option<string>,
    uri: Option<string>,
    headers: LoadedHeaders,
    queryParams: Option<seq<KeyValuePair>>,
    bodyType: Option<BodyType>,
    bodyContent: Option<BodyContent>,
    body: Option<BodyContent>,
    collectionId: Option<int>)

  predicate TruthyText(s: Option<string>) {
    s.Some? && s.value != ""
  }

  /** `url || uri || ""`. */
  function LoadedUrl(r: LoadedRequest): (u: string)
    ensures TruthyText(r.url) ==> u == r.url.value
    ensures !TruthyText(r.url) && TruthyText(r.uri) ==> u == r.uri.value
    ensures !TruthyText(r.url) && !TruthyText(r.uri) ==> u == ""
  {
    if TruthyText(r.url) then r.url.value else if TruthyText(r.uri) then r.uri.value else ""
  }

  /** `Array.isArray(value) ? value[0] : value`. */
  function FirstValue(v: HeaderValue): string {
    match v
    case Single(s) => s
    case Several(vs) => if |vs| > 0 then vs[0] else ""
  }

  /** The header rows of a loaded request: rows are kept as they are, and
      each entry of a header object becomes an enabled row with a fresh id
      and the (first) value. */
  function HeaderRowsOf(h: LoadedHeaders, freshId: nat -> string): (rows: seq<KeyValuePair>)
    ensures h.HeaderRows? ==> rows == h.rows
    ensures h.HeadersMissing? ==> rows == []
    ensures h.HeaderObject? ==> |rows| == |h.entries|
    ensures h.HeaderObject? ==> forall i :: 0 <= i < |rows| ==>
              rows[i] == KeyValuePair(freshId(i), h.entries[i].0, FirstValue(h.entries[i].1), true)
  {
    match h
    case HeaderRows(rs) => rs
    case HeaderObject(es) => seq(|es|, i requires 0 <= i < |es| => KeyValuePair(freshId(i), es[i].0, FirstValue(es[i].1), true))
    case HeadersMissing => []
  }

  /** `bodyContent || body || ""`. */
  function LoadedBody(r: LoadedRequest): (c: BodyContent)
    ensures r.bodyContent.Some? && BodyTruthy(r.bodyContent.value) ==> c == r.bodyContent.value
    ensures !(r.bodyContent.Some? && BodyTruthy(r.bodyContent.value)) && r.body.Some? && BodyTruthy(r.body.value) ==> c == r.body.value
    ensures BodyTruthy(c) || c == Text("")
  {
    if r.bodyContent.Some? && BodyTruthy(r.bodyContent.value) then r.bodyContent.value
    else if r.body.Some? && BodyTruthy(r.body.value) then r.body.value
    else Text("")
  }

  /** The request `handleSaveConfirm` builds: only the active query and
      header rows, unchanged, in order; the method defaults to GET. */
  function SaveDraft(name: string, httpMethod: string, url: string, queryParams: seq<KeyValuePair>,
                     headers: seq<KeyValuePair>, bodyType: BodyType, bodyContent: BodyContent, collectionId: int): (d: RequestDraft)
    ensures d.name == name && d.url == url && d.collectionId == collectionId
    ensures d.httpMethod != "" && (httpMethod != "" ==> d.httpMethod == httpMethod)
    ensures forall i :: 0 <= i < |d.headers| ==> IsActive(d.headers[i]) && d.headers[i] in headers
    ensures forall i :: 0 <= i < |headers| && IsActive(headers[i]) ==> headers[i] in d.headers
    ensures forall i :: 0 <= i < |d.queryParams| ==> IsActive(d.queryParams[i]) && d.queryParams[i] in queryParams
    ensures forall i :: 0 <= i < |queryParams| && IsActive(queryParams[i]) ==> queryParams[i] in d.queryParams
    ensures d.bodyType == Some(bodyType) && d.bodyContent == Some(bodyContent)
    ensures d.headers == Filter(headers, IsActive) && d.queryParams == Filter(queryParams, IsActive)
  {
    RequestDraft(name, if httpMethod != "" then httpMethod else "GET", url,
                 Filter(queryParams, IsActive), Filter(headers, IsActive), Some(bodyType), Some(bodyContent), collectionId)
  }

  class Editor {
    var httpMethod: string
    var url: string
    var isSaveDialogOpen: bool
    var bodyType: BodyType
    var bodyContent: BodyContent
    var saveError: Option<string>
    const composer: Requests.RequestComposer
    const view: ResponseView.TabState

    constructor ()
      ensures httpMethod == "GET" && url == "" && !isSaveDialogOpen
      ensures bodyType == NoneBody && bodyContent == Text("") && saveError == None
      ensures fresh(composer) && fresh(view)
      ensures !composer.isLoading && composer.response == None
      ensures composer.queryParams == [KeyValuePair("1", "", "", false)]
      ensures composer.requestHeaders == [KeyValuePair("1", "Content-Type", Requests.JsonMime, true),
                                          KeyValuePair("2", "Accept", Requests.JsonMime, true)]
      ensures view.activeTab == ParamsTab && view.lastResponseTab == BodyTab
    {
      httpMethod := "GET";
      url := "";
      isSaveDialogOpen := false;
      bodyType := NoneBody;
      bodyContent := Text("");
      saveError := None;
      composer := new Requests.RequestComposer();
      view := new ResponseView.TabState();
    }

    method SetBodyType(t: BodyType)
      modifies this`bodyType
      ensures bodyType == t
    {
      bodyType := t;
    }

    /** The body editor's change callback. */
    method SetBodyContent(c: BodyContent)
      modifies this`bodyContent
      ensures bodyContent == c
    {
      bodyContent := c;
    }

    /** `handleSaveRequest`: the save button opens the dialog. */
    method OpenSaveDialog()
      modifies this`isSaveDialogOpen
      ensures isSaveDialogOpen
    {
      isSaveDialogOpen := true;
    }

    /** The dialog's close callback: closes it and clears the error. */
    method CloseSaveDialog()
      modifies this`isSaveDialogOpen, this`saveError
      ensures !isSaveDialogOpen && saveError == None
    {
      isSaveDialogOpen := false;
      saveError := None;
    }

    /** The effect run when the active request changes: a selected request
        is copied into the editor and the composer; `freshId(i)` is the id
        the `i`-th entry of a header object receives. */
    method LoadActiveRequest(active: Option<LoadedRequest>, freshId: nat -> string)
      modifies this`httpMethod, this`url, this`bodyType, this`bodyContent
      modifies composer`queryParams, composer`requestHeaders
      ensures active.None? ==>
                httpMethod == old(httpMethod) && url == old(url) && bodyType == old(bodyType) && bodyContent == old(bodyContent)
                && composer.queryParams == old(composer.queryParams) && composer.requestHeaders == old(composer.requestHeaders)
      ensures active.Some? ==>
                httpMethod == active.value.httpMethod && url == LoadedUrl(active.value)
                && composer.queryParams == active.value.queryParams.GetOr([])
                && composer.requestHeaders == HeaderRowsOf(active.value.headers, freshId)
                && bodyType == active.value.bodyType.GetOr(NoneBody) && bodyContent == LoadedBody(active.value)
    {
      if active.Some? {
        var r := active.value;
        httpMethod := r.httpMethod;
        url := LoadedUrl(r);
        var headersArray := HeaderRowsOf(r.headers, freshId);
        composer.SetQueryParams(r.queryParams.GetOr([]));
        composer.SetRequestHeaders(headersArray);
        bodyType := r.bodyType.GetOr(NoneBody);
        bodyContent := LoadedBody(r);
      }
    }

    /** `handleSendRequest`. A blank URL does nothing. Otherwise the method
        and URL are recorded, the composer sends with the editor's body,
        and the view shows the response tab it showed last. */
    method HandleSendRequest(requestMethod: string, requestUrl: string, env: Requests.Platform, reply: Requests.Reply,
                             elapsed: int)
      modifies this`httpMethod, this`url, composer`isLoading, composer`response, composer`queryParams, view
      ensures IsBlank(requestUrl) ==>
                httpMethod == old(httpMethod) && url == old(url)
                && composer.isLoading == old(composer.isLoading) && composer.response == old(composer.response)
                && composer.queryParams == old(composer.queryParams)
                && view.activeTab == old(view.activeTab) && view.lastResponseTab == old(view.lastResponseTab)
      ensures !IsBlank(requestUrl) ==>
                httpMethod == requestMethod && url == requestUrl
                && !composer.isLoading
                && composer.queryParams == Requests.ParamsAfterSend(env, requestUrl, old(composer.queryParams))
                && composer.response == Some(Requests.SendOutcome(env, requestMethod, requestUrl, Some(bodyType), Some(bodyContent),
                                                                  old(composer.queryParams), composer.requestHeaders, reply, elapsed))
                && view.activeTab == old(view.lastResponseTab) && view.lastResponseTab == old(view.lastResponseTab)
    {
      if IsBlank(requestUrl) {
        return;
      }
      httpMethod := requestMethod;
      url := requestUrl;
      composer.SendRequest(requestMethod, requestUrl, Some(bodyType), Some(bodyContent), env, reply, elapsed);
      view.SwitchToTab(view.lastResponseTab, true);
    }

    /** `handleSaveConfirm`. Without a collection it only reports an error.
        Otherwise it builds the request from the editor and the composer,
        updates the active request (under its id) or saves a new one, and
        closes the dialog on success or reports the thrown message. */
    method HandleSaveConfirm(name: string, collectionId: int, active: Option<LoadedRequest>,
                             store: RequestStore.Store, reply: RequestStore.ApiReply<SavedRequest>)
      returns (call: Option<RequestStore.ApiCall>)
      modifies this`saveError, this`isSaveDialogOpen
      modifies store`savedRequests, store`activeRequest, store`loading, store`error
      ensures collectionId == 0 ==>
                saveError == Some(SelectCollectionMessage) && isSaveDialogOpen == old(isSaveDialogOpen) && call.None?
                && store.savedRequests == old(store.savedRequests) && store.activeRequest == old(store.activeRequest)
                && store.loading == old(store.loading) && store.error == old(store.error)
      ensures collectionId != 0 ==>
                var draft := SaveDraft(name, httpMethod, url, composer.queryParams, composer.requestHeaders,
                                       bodyType, bodyContent, collectionId);
                var outcome := RequestStore.ReplyOutcome(if active.Some? then RequestStore.UpdateFailedMessage
                                                         else RequestStore.SaveFailedMessage, reply);
                saveError == (if outcome.Err? then Some(outcome.error) else None)
                && isSaveDialogOpen == (if outcome.Ok? then false else old(isSaveDialogOpen))
                && !store.loading
                && (active.Some? ==>
                      var request := WithId(draft, active.value.id);
                      call == Some(RequestStore.ApiCall("PUT", RequestStore.RequestUrl(request.id),
                                                        Some(RequestStore.UpdatePayload(request))))
                      && store.savedRequests == (if reply.Accepted? then RequestStore.ReplaceById(old(store.savedRequests), reply.body)
                                                 else old(store.savedRequests))
                      && store.activeRequest == (if reply.Accepted? then RequestStore.ReplaceActive(old(store.activeRequest), reply.body)
                                                 else old(store.activeRequest))
                      && store.error == (if reply.Accepted? then None else Some(RequestStore.UpdateFailedMessage)))
                && (active.None? ==>
                      call == Some(RequestStore.ApiCall("POST", RequestStore.CollectionRequestsUrl(collectionId),
                                                        Some(RequestStore.SavePayload(draft, collectionId))))
                      && store.savedRequests == (if reply.Accepted? then old(store.savedRequests) + [reply.body]
                                                 else old(store.savedRequests))
                      && store.activeRequest == old(store.activeRequest)
                      && store.error == (if outcome.Err? then Some(outcome.error) else None))
    {
      saveError := None;
      if collectionId == 0 {
        saveError := Some(SelectCollectionMessage);
        call := None;
        return;
      }
      var draft := SaveDraft(name, httpMethod, url, composer.queryParams, composer.requestHeaders,
                             bodyType, bodyContent, collectionId);
      var result: Result<SavedRequest>;
      if active.Some? {
        var c;
        result, c := store.UpdateRequest(WithId(draft, active.value.id), reply);
        call := Some(c);
      } else {
        result, call := store.SaveRequest(draft, Some(collectionId), reply);
      }
      match result {
        case Ok(_) =>
          isSaveDialogOpen := false;
        case Err(m) =>
          saveError := Some(m);
      }
    }
  }

  // ---------------------------------------------------------------------
  // Saving and loading

  /** The backend's header object for the saved rows, in some key order
      (each key once). */
  function HeaderObjectOf(m: map<string, seq<string>>, keys: seq<string>): (es: seq<(string, HeaderValue)>)
    requires forall i :: 0 <= i < |keys| ==> keys[i] in m
    ensures |es| == |keys| && forall i :: 0 <= i < |keys| ==> es[i] == (keys[i], Several(m[keys[i]]))
  {
    seq(|keys|, i requires 0 <= i < |keys| => (keys[i], Several(m[keys[i]])))
  }

  /** A saved request's headers come back from the backend as an object of
      one-element lists; loading that object and saving again serialises
      to the same header map, whatever the object's key order. */
  lemma ReloadedHeadersReserialize(hs: seq<KeyValuePair>, keys: seq<string>, freshId: nat -> string)
    requires forall i :: 0 <= i < |keys| ==> keys[i] in RequestStore.SerializeHeaders(hs)
    requires forall k :: k in RequestStore.SerializeHeaders(hs) ==> k in keys
    requires forall i, j :: 0 <= i < j < |keys| ==> keys[i] != keys[j]
    ensures RequestStore.SerializeHeaders(HeaderRowsOf(HeaderObject(HeaderObjectOf(RequestStore.SerializeHeaders(hs), keys)), freshId))
            == RequestStore.SerializeHeaders(hs)
  {
    var m := RequestStore.SerializeHeaders(hs);
    var c := Collect(hs, HasKeyAndValue);
    var rows := HeaderRowsOf(HeaderObject(HeaderObjectOf(m, keys)), freshId);
    var c' := Collect(rows, HasKeyAndValue);
    // Each row carries a key and the collected value for it, never empty.
    forall i | 0 <= i < |rows|
      ensures rows[i].key == keys[i] && rows[i].value == c[keys[i]] && HasKeyAndValue(rows[i])
    {
      CollectValueFrom(hs, HasKeyAndValue, keys[i]);
    }
    forall k ensures k in c' <==> k in c {
      CollectKeys(rows, HasKeyAndValue, k);
      if k in c {
        var i :| 0 <= i < |keys| && keys[i] == k;
        assert rows[i].key == k;
      }
    }
    forall k | k in c ensures c'[k] == c[k] {
      var i :| 0 <= i < |keys| && keys[i] == k;
      CollectLastWins(rows, HasKeyAndValue, i);
    }
    assert c' == c;
  }
}
