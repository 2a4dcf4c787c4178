/** The saved-request store (`hooks/useRequestStore.ts`): how a request is
    serialised for the backend, and how the local list of saved requests,
    the active request and the loading/error flags change with the
    backend's reply. The reply is a parameter; the HTTP exchange itself is
    not modelled. */
module RequestStore {
  import opened Wrappers
  import opened JsText
  import opened JsValues
  import opened Types
  import opened Seqs
  import opened KeyValues
  import Requests

  const ApiUrl := "https://supsi-ticket.cloudns.org/supsi-http-client/bff"
  const ApiKey := "adel"
  const MissingCollectionMessage := "Collection ID is required to save a request"
  const SaveFailedMessage := "Failed to save request"
  const UpdateFailedMessage := "Failed to update request"
  const DeleteFailedMessage := "Failed to delete request"
  const LoadFailedMessage := "Failed to load request"

  /** What the backend answered: a thrown `Error` (the network failed, or
      the body did not parse), a non-ok status with the body parsed as
      JSON when it parses, or an ok status with the decoded body. */
  datatype ApiReply<T> =
    | NetworkError(message: string)
    | Rejected(status: int, statusText: string, errorBody: Option<JsValue>)
    | Accepted(body: T)

  /** The JSON object sent to the backend. `id` and `queryParams` are
      present only on an update. */
  datatype ApiRequest = ApiRequest(
    id: Option<string>,
    name: string,
    uri: string,
    httpMethod: string,
    headers: map<string, seq<string>>,
    body: BodyContent,
    collectionId: int,
    queryParams: Option<map<string, string>>)

  /** One HTTP call to the backend. */
  datatype ApiCall = ApiCall(verb: string, url: string, payload: Option<ApiRequest>)

  /** The endpoint a request is saved to. */
  function CollectionRequestsUrl(collectionId: int): string {
    ApiUrl + "/collections/" + IntToString(collectionId) + "/requests?apiKey=" + ApiKey
  }

  /** The endpoint of one saved request. */
  function RequestUrl(requestId: string): string {
    ApiUrl + "/requests/" + requestId + "?apiKey=" + ApiKey
  }

  // ---------------------------------------------------------------------
  // Serialisation

  /** The header rows as the backend stores them: rows with a key and a
      value (whether enabled or not), the last one of a key winning, each
      value as a one-element list. */
  function SerializeHeaders(hs: seq<KeyValuePair>): (m: map<string, seq<string>>)
    ensures forall k :: k in m ==> k != "" && |m[k]| == 1 && m[k][0] != ""
  {
    var c := Collect(hs, HasKeyAndValue);
    forall k | k in c
      ensures k != "" && c[k] != ""
    {
      CollectValueFrom(hs, HasKeyAndValue, k);
    }
    Requests.WrapValues(c)
  }

  /** The query rows as the update sends them: rows with a key and a value,
      values as plain strings. */
  function SerializeParams(ps: seq<KeyValuePair>): (m: map<string, string>)
    ensures forall k :: k in m ==> k != "" && m[k] != ""
  {
    var c := Collect(ps, HasKeyAndValue);
    forall k | k in c
      ensures k != "" && c[k] != ""
    {
      CollectValueFrom(ps, HasKeyAndValue, k);
    }
    c
  }

  /** `bodyContent || ""`. */
  function BodyOrEmpty(c: Option<BodyContent>): (r: BodyContent)
    ensures BodyTruthy(r) ==> c == Some(r)
    ensures c.Some? && BodyTruthy(c.value) ==> r == c.value
    ensures !BodyTruthy(r) ==> r == Text("")
  {
    if c.Some? && BodyTruthy(c.value) then c.value else Text("")
  }

  /** The request `saveRequest` posts, with its defaults: a nameless draft
      is saved as "New Request" and a method-less one as "GET". */
  function SavePayload(d: RequestDraft, collectionId: int): (r: ApiRequest)
    ensures r.name != "" && (d.name != "" ==> r.name == d.name) && (d.name == "" ==> r.name == "New Request")
    ensures r.httpMethod != "" && (d.httpMethod != "" ==> r.httpMethod == d.httpMethod)
    ensures d.httpMethod == "" ==> r.httpMethod == "GET"
    ensures r.uri == d.url && r.collectionId == collectionId
    ensures r.id.None? && r.queryParams.None?
    ensures r.headers == SerializeHeaders(d.headers) && r.body == BodyOrEmpty(d.bodyContent)
    ensures d.bodyContent.None? ==> r.body == Text("")
  {
    ApiRequest(None, if d.name != "" then d.name else "New Request", d.url,
               if d.httpMethod != "" then d.httpMethod else "GET",
               SerializeHeaders(d.headers), BodyOrEmpty(d.bodyContent), collectionId, None)
  }

  /** The request `updateRequest` puts: the fields as they are, plus the id
      and the serialised query rows. */
  function UpdatePayload(r: SavedRequest): (a: ApiRequest)
    ensures a.id == Some(r.id) && a.name == r.name && a.uri == r.url && a.httpMethod == r.httpMethod
    ensures a.collectionId == r.collectionId && a.queryParams == Some(SerializeParams(r.queryParams))
    ensures a.headers == SerializeHeaders(r.headers) && a.body == BodyOrEmpty(r.bodyContent)
  {
    ApiRequest(Some(r.id), r.name, r.url, r.httpMethod, SerializeHeaders(r.headers), BodyOrEmpty(r.bodyContent),
               r.collectionId, Some(SerializeParams(r.queryParams)))
  }

  /** The message of the `Error` thrown for a non-ok reply: the backend's
      own `message` when it sent a truthy one, else `<prefix>: <status> <statusText>`. */
  function RejectionMessage(prefix: string, status: int, statusText: string, errorBody: Option<JsValue>): (m: string)
    ensures (errorBody.None? || !Truthy(Field(errorBody.value, "message"))) ==>
              m == prefix + ": " + IntToString(status) + " " + statusText
    ensures errorBody.Some? && Truthy(Field(errorBody.value, "message")) ==> m == StringOf(Field(errorBody.value, "message"))
  {
    var message := if errorBody.Some? && !IsNullish(errorBody.value) then Field(errorBody.value, "message") else Undefined;
    if Truthy(message) then StringOf(message) else prefix + ": " + IntToString(status) + " " + statusText
  }

  /** What a save or an update returns for a reply: the decoded body, or
      the message of the `Error` it throws. */
  function ReplyOutcome<T>(prefix: string, reply: ApiReply<T>): (r: Result<T>)
    ensures r.Ok? <==> reply.Accepted?
    ensures reply.Accepted? ==> r.value == reply.body
    ensures reply.NetworkError? ==> r.error == reply.message
    ensures reply.Rejected? ==> r.error == RejectionMessage(prefix, reply.status, reply.statusText, reply.errorBody)
  {
    match reply
    case Accepted(body) => Ok(body)
    case Rejected(status, statusText, errorBody) => Err(RejectionMessage(prefix, status, statusText, errorBody))
    case NetworkError(m) => Err(m)
  }

  /** `prev.map(r => r.id === updated.id ? updated : r)`. */
  function ReplaceById(s: seq<SavedRequest>, updated: SavedRequest): (r: seq<SavedRequest>)
    ensures |r| == |s|
    ensures forall i :: 0 <= i < |s| ==> r[i] == if s[i].id == updated.id then updated else s[i]
  {
    seq(|s|, i requires 0 <= i < |s| => if s[i].id == updated.id then updated else s[i])
  }

  function OtherRequest(id: string): SavedRequest -> bool {
    (r: SavedRequest) => r.id != id
  }

  /** `prev.filter(r => r.id !== id)`. */
  function DeleteById(s: seq<SavedRequest>, id: string): (r: seq<SavedRequest>)
    ensures |r| <= |s|
    ensures forall i :: 0 <= i < |r| ==> r[i].id != id && r[i] in s
  {
    Filter(s, OtherRequest(id))
  }

  /** `prev?.id === updated.id ? updated : prev`. */
  function ReplaceActive(active: Option<SavedRequest>, updated: SavedRequest): (r: Option<SavedRequest>)
    ensures active.Some? && active.value.id == updated.id ==> r == Some(updated)
    ensures !(active.Some? && active.value.id == updated.id) ==> r == active
  {
    if active.Some? && active.value.id == updated.id then Some(updated) else active
  }

  // ---------------------------------------------------------------------
  // The store's state

  class Store {
    var savedRequests: seq<SavedRequest>
    var activeRequest: Option<SavedRequest>
    var loading: bool
    var error: Option<string>

    constructor ()
      ensures savedRequests == [] && activeRequest == None && !loading && error == None
    {
      savedRequests := [];
      activeRequest := None;
      loading := false;
      error := None;
    }

    method SetActiveRequest(r: Option<SavedRequest>)
      modifies this`activeRequest
      ensures activeRequest == r
    {
      activeRequest := r;
    }

    /** `saveRequest`. A missing or zero collection id fails before any
        call; otherwise the draft is posted, and an accepted reply is
        appended to the list. The error flag holds the message of whatever
        was thrown. */
    method SaveRequest(draft: RequestDraft, collectionId: Option<int>, reply: ApiReply<SavedRequest>)
      returns (result: Result<SavedRequest>, call: Option<ApiCall>)
      modifies this`savedRequests, this`loading, this`error
      ensures !loading
      ensures (collectionId.None? || collectionId.value == 0) ==>
                call.None? && result == Err(MissingCollectionMessage) && error == Some(MissingCollectionMessage)
                && savedRequests == old(savedRequests)
      ensures collectionId.Some? && collectionId.value != 0 ==>
                call == Some(ApiCall("POST", CollectionRequestsUrl(collectionId.value),
                                     Some(SavePayload(draft, collectionId.value))))
                && result == ReplyOutcome(SaveFailedMessage, reply)
                && error == (if result.Err? then Some(result.error) else None)
                && savedRequests == if reply.Accepted? then old(savedRequests) + [reply.body] else old(savedRequests)
    {
      loading := true;
      error := None;
      if collectionId.None? || collectionId.value == 0 {
        call := None;
        result := Err(MissingCollectionMessage);
      } else {
        var cid := collectionId.value;
        var url := CollectionRequestsUrl(cid);
        call := Some(ApiCall("POST", url, Some(SavePayload(draft, cid))));
        match reply {
          case Accepted(saved) =>
            savedRequests := savedRequests + [saved];
            result := Ok(saved);
          case Rejected(status, statusText, body) =>
            result := Err(RejectionMessage(SaveFailedMessage, status, statusText, body));
          case NetworkError(m) =>
            result := Err(m);
        }
      }
      if result.Err? {
        error := Some(result.error);
      }
      loading := false;
    }

    /** `updateRequest`. An accepted reply replaces every saved request with
        the returned id, and the active request when its id matches. On any
        failure the error flag holds the fixed "Failed to update request"
        while the thrown message is returned. */
    method UpdateRequest(request: SavedRequest, reply: ApiReply<SavedRequest>)
      returns (result: Result<SavedRequest>, call: ApiCall)
      modifies this`savedRequests, this`activeRequest, this`loading, this`error
      ensures !loading
      ensures call == ApiCall("PUT", RequestUrl(request.id), Some(UpdatePayload(request)))
      ensures result == ReplyOutcome(UpdateFailedMessage, reply)
      ensures error == if result.Err? then Some(UpdateFailedMessage) else None
      ensures savedRequests == if reply.Accepted? then ReplaceById(old(savedRequests), reply.body) else old(savedRequests)
      ensures activeRequest == if reply.Accepted? then ReplaceActive(old(activeRequest), reply.body) else old(activeRequest)
    {
      loading := true;
      error := None;
      call := ApiCall("PUT", RequestUrl(request.id), Some(UpdatePayload(request)));
      match reply {
        case Accepted(updated) =>
          savedRequests := ReplaceById(savedRequests, updated);
          activeRequest := ReplaceActive(activeRequest, updated);
          result := Ok(updated);
        case Rejected(status, statusText, body) =>
          result := Err(RejectionMessage(UpdateFailedMessage, status, statusText, body));
          error := Some(UpdateFailedMessage);
        case NetworkError(m) =>
          result := Err(m);
          error := Some(UpdateFailedMessage);
      }
      loading := false;
    }

    /** `deleteRequest`. Only an ok reply removes the requests with that id. */
    method DeleteRequest(requestId: string, reply: ApiReply<()>)
      returns (result: Result<()>, call: ApiCall)
      modifies this`savedRequests, this`loading, this`error
      ensures !loading
      ensures call == ApiCall("DELETE", RequestUrl(requestId), None)
      ensures reply.Accepted? ==> result == Ok(()) && error == None && savedRequests == DeleteById(old(savedRequests), requestId)
      ensures reply.Rejected? ==> result == Err(DeleteFailedMessage) && error == Some(DeleteFailedMessage)
                                  && savedRequests == old(savedRequests)
      ensures reply.NetworkError? ==> result == Err(reply.message) && error == Some(DeleteFailedMessage)
                                      && savedRequests == old(savedRequests)
    {
      loading := true;
      error := None;
      call := ApiCall("DELETE", RequestUrl(requestId), None);
      match reply {
        case Accepted(_) =>
          savedRequests := DeleteById(savedRequests, requestId);
          result := Ok(());
        case Rejected(_, _, _) =>
          result := Err(DeleteFailedMessage);
          error := Some(DeleteFailedMessage);
        case NetworkError(m) =>
          result := Err(m);
          error := Some(DeleteFailedMessage);
      }
      loading := false;
    }

    /** `loadRequest`: returns the fetched request and leaves the list alone. */
    method LoadRequest(requestId: string, reply: ApiReply<SavedRequest>)
      returns (result: Result<SavedRequest>, call: ApiCall)
      modifies this`loading, this`error
      ensures !loading
      ensures call == ApiCall("GET", RequestUrl(requestId), None)
      ensures reply.Accepted? ==> result == Ok(reply.body) && error == None
      ensures reply.Rejected? ==> result == Err(LoadFailedMessage) && error == Some(LoadFailedMessage)
      ensures reply.NetworkError? ==> result == Err(reply.message) && error == Some(LoadFailedMessage)
    {
      loading := true;
      error := None;
      call := ApiCall("GET", RequestUrl(requestId), None);
      match reply {
        case Accepted(r) =>
          result := Ok(r);
        case Rejected(_, _, _) =>
          result := Err(LoadFailedMessage);
          error := Some(LoadFailedMessage);
        case NetworkError(m) =>
          result := Err(m);
          error := Some(LoadFailedMessage);
      }
      loading := false;
    }
  }

  // ---------------------------------------------------------------------
  // Properties of the serialisation

  /** The serialised header map: exactly the keys of rows with a non-empty
      key and value, each mapped to a one-element list holding the last
      such row's value. */
  lemma SerializeHeadersSpec(hs: seq<KeyValuePair>)
    ensures forall k :: k in SerializeHeaders(hs) <==> exists i :: 0 <= i < |hs| && HasKeyAndValue(hs[i]) && hs[i].key == k
    ensures forall i :: 0 <= i < |hs| && HasKeyAndValue(hs[i])
              && (forall j :: i < j < |hs| && HasKeyAndValue(hs[j]) ==> hs[j].key != hs[i].key)
              ==> hs[i].key in SerializeHeaders(hs) && SerializeHeaders(hs)[hs[i].key] == [hs[i].value]
  {
    forall k ensures k in SerializeHeaders(hs) <==> exists i :: 0 <= i < |hs| && HasKeyAndValue(hs[i]) && hs[i].key == k {
      CollectKeys(hs, HasKeyAndValue, k);
    }
    forall i | 0 <= i < |hs| && HasKeyAndValue(hs[i]) && (forall j :: i < j < |hs| && HasKeyAndValue(hs[j]) ==> hs[j].key != hs[i].key)
      ensures hs[i].key in SerializeHeaders(hs) && SerializeHeaders(hs)[hs[i].key] == [hs[i].value]
    {
      CollectLastWins(hs, HasKeyAndValue, i);
    }
  }

  /** The same for the query map of an update, with plain string values. */
  lemma SerializeParamsSpec(ps: seq<KeyValuePair>)
    ensures forall k :: k in SerializeParams(ps) <==> exists i :: 0 <= i < |ps| && HasKeyAndValue(ps[i]) && ps[i].key == k
    ensures forall i :: 0 <= i < |ps| && HasKeyAndValue(ps[i])
              && (forall j :: i < j < |ps| && HasKeyAndValue(ps[j]) ==> ps[j].key != ps[i].key)
              ==> ps[i].key in SerializeParams(ps) && SerializeParams(ps)[ps[i].key] == ps[i].value
  {
    forall k ensures k in SerializeParams(ps) <==> exists i :: 0 <= i < |ps| && HasKeyAndValue(ps[i]) && ps[i].key == k {
      CollectKeys(ps, HasKeyAndValue, k);
    }
    forall i | 0 <= i < |ps| && HasKeyAndValue(ps[i]) && (forall j :: i < j < |ps| && HasKeyAndValue(ps[j]) ==> ps[j].key != ps[i].key)
      ensures ps[i].key in SerializeParams(ps) && SerializeParams(ps)[ps[i].key] == ps[i].value
    {
      CollectLastWins(ps, HasKeyAndValue, i);
    }
  }

  /** Serialisation ignores the `enabled` flag and the row ids: two row
      lists with the same keys and values serialise alike. */
  lemma {:induction false} SerializeIgnoresEnabled(a: seq<KeyValuePair>, b: seq<KeyValuePair>)
    requires |a| == |b|
    requires forall i :: 0 <= i < |a| ==> a[i].key == b[i].key && a[i].value == b[i].value
    ensures SerializeParams(a) == SerializeParams(b)
    ensures SerializeHeaders(a) == SerializeHeaders(b)
    decreases |a|
  {
    if a != [] {
      SerializeIgnoresEnabled(a[..|a| - 1], b[..|b| - 1]);
    }
  }

  // ---------------------------------------------------------------------
  // Properties of the list updates

  /** Deleting the id of a just-saved request, when no other saved request
      had that id, restores the list as it was before the save. */
  lemma DeleteUndoesSave(s: seq<SavedRequest>, saved: SavedRequest)
    requires forall i :: 0 <= i < |s| ==> s[i].id != saved.id
    ensures DeleteById(s + [saved], saved.id) == s
  {
    FilterSnoc(s, saved, OtherRequest(saved.id));
    FilterKeepsAll(s, OtherRequest(saved.id));
  }

  /** Delete drops exactly the requests with that id: each request of the
      list is kept, once and in its place, exactly when its id differs. */
  lemma DeleteDropsExactly(s: seq<SavedRequest>, id: string)
    ensures forall i :: 0 <= i < |s| && s[i].id != id ==> s[i] in DeleteById(s, id)
    ensures (forall i :: 0 <= i < |s| ==> s[i].id != id) ==> DeleteById(s, id) == s
    ensures s != [] ==> DeleteById(s, id) == (if s[0].id != id then [s[0]] else []) + DeleteById(s[1..], id)
    ensures forall x :: DeleteById([x], id) == if x.id != id then [x] else []
  {
    forall x ensures DeleteById([x], id) == if x.id != id then [x] else [] {
      assert DeleteById([x], id) == (if x.id != id then [x] else []) + DeleteById([x][1..], id);
    }
    if forall i :: 0 <= i < |s| ==> s[i].id != id {
      FilterKeepsAll(s, OtherRequest(id));
    }
  }

  /** Delete works on each part of a list independently, so the survivors
      keep their order and their number. */
  lemma DeleteDistributes(a: seq<SavedRequest>, b: seq<SavedRequest>, id: string)
    ensures DeleteById(a + b, id) == DeleteById(a, id) + DeleteById(b, id)
  {
    FilterAppend(a, b, OtherRequest(id));
  }

  /** Replacing by id is idempotent, leaves a list without that id alone,
      and a replaced request is deleted like the one it replaced. */
  lemma {:induction false} ReplaceProperties(s: seq<SavedRequest>, updated: SavedRequest)
    ensures ReplaceById(ReplaceById(s, updated), updated) == ReplaceById(s, updated)
    ensures (forall i :: 0 <= i < |s| ==> s[i].id != updated.id) ==> ReplaceById(s, updated) == s
    ensures DeleteById(ReplaceById(s, updated), updated.id) == DeleteById(s, updated.id)
    decreases |s|
  {
    if s != [] {
      ReplaceProperties(s[1..], updated);
      assert ReplaceById(s, updated)[1..] == ReplaceById(s[1..], updated);
    }
  }
}
