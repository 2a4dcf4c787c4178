# Postboy request composer, modelled in Dafny

Postboy is a browser client for composing HTTP requests, sending them
(straight to a demo API, or through a backend proxy) and saving them into
collections. This project models the deterministic core of its user
interface and proves properties of it:

- the request composer (`useRequests.ts`):
  - the query-parameter and header rows;
  - the last-write-wins header map;
  - the body built for each body type;
  - the final URL's query;
  - the routing to a direct call or to one of two proxy envelopes;
  - the content-type classification;
  - the normalisation of every reply and every failure into the response shown;
- the response view (`useResponseView.ts`): its tab state, the header-first type detection, `formatResponse` and the status colour bands;
- the saved-request store (`useRequestStore.ts`): how requests are serialised, and how the saved list, the active request and the loading and error flags react to the backend's reply;
- the state logic of the components:
  - loading, sending and saving in the editor (`MainContent.tsx`);
  - the body-row edits (`RequestBodyEditor.tsx`);
  - search, delete and toggle in the sidebar (`Sidebar.tsx`);
  - the save dialog's selection and guard (`useSaveRequestDialog.ts`);
  - the status badge (`ResponseInfo.tsx`).

The modules follow the source files:

| module | file | source |
|---|---|---|
| `Wrappers` | wrappers.dfy | `Option`, `Result` |
| `JsText` | js_text.dfy | the string built-ins the core calls: `startsWith`, `endsWith`, `includes`, ASCII `toLowerCase`, `trim`, integer rendering |
| `JsValues` | js_values.dfy | untyped JavaScript values: truthiness, `\|\|`, property reads, `String(v)` |
| `Seqs` | seqs.dfy | `Array.prototype.filter` |
| `Types` | types.dfy | `types/types.ts` |
| `KeyValues` | key_values.dfy | the row edits and the reduction of rows to a map, as shared by the hooks |
| `Requests` | requests.dfy | `hooks/useRequests.ts`, class `RequestComposer` |
| `ResponseView` | response_view.dfy | `hooks/useResponseView.ts`, class `TabState` |
| `RequestStore` | request_store.dfy | `hooks/useRequestStore.ts`, class `Store` |
| `MainContent` | main_content.dfy | `components/MainContent.tsx`, class `Editor` |
| `BodyEditor` | body_editor.dfy | `components/RequestBodyEditor.tsx` |
| `Sidebar` | sidebar.dfy | `components/Sidebar.tsx`, class `SidebarState` |
| `SaveDialog` | save_dialog.dfy | `hooks/useSaveRequestDialog.ts`, class `DialogState` |
| `ResponseInfo` | response_info.dfy | `components/ResponseInfo.tsx` |

State that React keeps in `useState` is a class with fields. Each setter
sequence is a method with a `modifies` frame that names the fields it
changes. Replies from the network are method parameters.

Browser services that are not written out form the `Requests.Platform`
record of functions, which each send receives:
- `JSON.parse`, or the `SyntaxError` it throws;
- `new URL(u).searchParams`, or the `TypeError` it throws;
- the serialisation of the URL after its query entries are appended;
- the message of the `TypeError` for reading a property of `null`.

The same goes for `btoa` in `ResponseView.FormatResponse` and for the fresh
row ids (`Date.now()`).

### Where the model follows the code over its comments

- The final URL. Near `postboy/src/hooks/useRequests.ts:85`, the comment says the URL's query
  parameters replace the composer's rows. The code does set them
  (`:86-89`), but `buildUrlWithParams` (`:58-66`) reads the rows captured
  when the send started, because the state update takes effect only
  afterwards. So the sent URL carries the URL's own query FOLLOWED BY the
  previous active rows. `Requests.RequestComposer.SendRequest` builds it
  from `old(queryParams)`. `Requests.RepeatedSendRepeatsQuery` shows the
  consequence: sending the same URL twice sends its query twice. Read as the
  comment puts it, a URL `https://x/y?a=1` with a composed row `b=2`
  would be sent with `a=1` only. Under the code it is sent with
  `a=1&b=2` (`Requests.StaleRowsAreAppended`).
- There are two status colour bands. The badge in `ResponseInfo.tsx` colours
  3xx yellow and 4xx red, while the response view colours 3xx blue and
  4xx yellow. Both are modelled as written; `ResponseInfo.BandingsDiffer`
  states where they disagree.

## Model

| member | source | states |
|---|---|---|
| `JsText.ContainsIff` | postboy/src/hooks/useResponseView.ts:20-28 | `includes` holds exactly when the needle starts at some position of the string |
| `JsText.ToLower` | postboy/src/hooks/useResponseView.ts:18 | lower-casing keeps the length and folds each ASCII capital, leaving other characters alone |
| `JsText.ToLowerIdempotent` | postboy/src/components/Sidebar.tsx:36 | lower-casing an already lower-cased string changes nothing |
| `JsText.ToLowerKeepsBlank` | postboy/src/components/Sidebar.tsx:32-36 | a term is blank exactly when its lower-cased form is |
| `JsText.IsBlankIff` | postboy/src/hooks/useRequests.ts:78 | `!s.trim()` holds exactly when every character is ECMAScript whitespace |
| `JsText.NatToString` | postboy/src/hooks/useRequests.ts:47 | the decimal rendering is non-empty, all digits, without a leading zero, and its digits denote the number |
| `JsText.NatToStringInjective` | postboy/src/hooks/useRequests.ts:47 | distinct numbers render as distinct strings |
| `JsValues.Or` | postboy/src/hooks/useRequests.ts:390-393 | `a \|\| b` is `a` when truthy, else `b` |
| `JsValues.StringMapValue` | postboy/src/hooks/useRequests.ts:365 | `Object.fromEntries` of string headers has the same keys, each bound to its string |
| `Seqs.Filter` | postboy/src/hooks/useRequests.ts:26 | the filtered list is no longer than the input, holds only kept elements of the input, and holds every kept element |
| `Seqs.FilterAppend` | postboy/src/hooks/useRequests.ts:60-64 | filtering preserves the relative order: it distributes over concatenation |
| `Seqs.FilterIdempotent` | postboy/src/components/MainContent.tsx:113-129 | filtering the rows a second time, as re-saving a loaded request does, keeps the same rows |
| `Types.WithId` | postboy/src/components/MainContent.tsx:143-146 | `{ ...draft, id }` keeps every field of the draft and sets the id |
| `KeyValues.Add` | postboy/src/hooks/useRequests.ts:15-17 | adding keeps every old row in place and appends exactly one empty, enabled row with the fresh id |
| `KeyValues.AddThenRemove` | postboy/src/hooks/useRequests.ts:39-41 | removing the id of a freshly added row restores the list |
| `KeyValues.RemoveAbsentId` | postboy/src/hooks/useRequests.ts:25-27 | removing an id that no row has leaves the list unchanged |
| `KeyValues.Remove` | postboy/src/hooks/useRequests.ts:25-27 | remove keeps only rows of the input with another id, and every such row |
| `KeyValues.RemoveDistributes` | postboy/src/hooks/useRequests.ts:39-41 | remove keeps the survivors in order |
| `KeyValues.Update` | postboy/src/hooks/useRequests.ts:19-23 | update keeps length and order; matching rows get only the named field set, every other row is unchanged |
| `KeyValues.UpdateThenRemove` | postboy/src/hooks/useRequests.ts:33-41 | updating a row and then removing it equals removing it |
| `KeyValues.CollectKeys` | postboy/src/hooks/useRequests.ts:71-74 | the keys of a reduced map are exactly the keys of the kept rows |
| `KeyValues.CollectLastWins` | postboy/src/hooks/useRequests.ts:71-74 | each key of a reduced map holds the value of the last kept row with that key |
| `KeyValues.CollectValueFrom` | postboy/src/hooks/useRequestStore.ts:43-48 | every value of a reduced map comes from a kept row with that key |
| `KeyValues.ActiveHeadersSpec` | postboy/src/hooks/useRequests.ts:68-75 | the active-header map has exactly the keys of enabled rows with a non-empty key, each bound to the last such row's value |
| `KeyValues.ActiveHeaders` | postboy/src/hooks/useRequests.ts:68-75 | no header name is empty, and every value is that of an enabled row with that name |
| `KeyValues.ActivePairs` | postboy/src/hooks/useRequests.ts:60-64 | at most one pair per row, none with an empty key |
| `KeyValues.ActivePairsDistributes` | postboy/src/hooks/useRequests.ts:60-64 | the active pairs of a list are those of its parts in order; one row contributes its pair exactly when enabled with a key |
| `KeyValues.ActivePairsMembers` | postboy/src/hooks/useRequests.ts:60-64 | every active pair comes from an active row and every active row contributes its pair |
| `KeyValues.ActivePairFrom` | postboy/src/hooks/useRequests.ts:60-64 | the pair at any position is the key and value of an active row |
| `Requests.AppendActive` | postboy/src/hooks/useRequests.ts:60-64 | the append loop produces the starting entries followed by the active rows' pairs in order |
| `Requests.UrlParams` | postboy/src/hooks/useRequests.ts:43-56 | the URL query becomes as many enabled rows, with its keys and values in order |
| `Requests.UrlParamsSpec` | postboy/src/hooks/useRequests.ts:46-47 | the rows are numbered "1", "2", ... in order, so no two share an id |
| `Requests.FinalQuery` | postboy/src/hooks/useRequests.ts:58-66 | the sent query starts with the URL's own entries unchanged; every later entry is the key and value of an active composer row |
| `Requests.RepeatedSendRepeatsQuery` | postboy/src/hooks/useRequests.ts:85-91 | with the stale rows, re-sending a URL whose query replaced the rows sends its query twice |
| `Requests.StaleRowsAreAppended` | postboy/src/hooks/useRequests.ts:58-66 | a URL with its own query `a=1` and a composed row `b=2` is sent with both entries, the URL's first |
| `Requests.BuildRequestBody` | postboy/src/hooks/useRequests.ts:94-123 | the switch builds the body `ExpectedBody` describes |
| `Requests.ExpectedBody` | postboy/src/hooks/useRequests.ts:94-123 | a body is built only for a non-GET send with a body type and a truthy body; raw, multipart and urlencoded bodies each come only from their own body type |
| `Requests.BodyCases` | postboy/src/hooks/useRequests.ts:95-123 | no body for GET or a missing or empty body; raw passes through; form bodies hold the active rows in order, and nothing for non-list content; no body for none and binary |
| `Requests.WrapValues` | postboy/src/hooks/useRequests.ts:307-310 | each header value becomes a one-element list under the same key |
| `Requests.Route` | postboy/src/hooks/useRequests.ts:125-312 | every route targets the final URL with the requested method |
| `Requests.RouteSpec` | postboy/src/hooks/useRequests.ts:125-312 | a demo URL with one of the four methods is called directly with exactly Accept: application/json, plus Content-Type: application/json except for GET; any other GET gets the envelope with only Accept: [application/json] and no body; the rest get every active header wrapped and the built body, as the envelope object before `JSON.stringify` |
| `Requests.ClassifyContentType` | postboy/src/hooks/useRequests.ts:333-345 | the content type gives pdf, else image, else json, else html, else text, each exactly under its condition |
| `Requests.BinaryCoversPdfAndImage` | postboy/src/hooks/useRequests.ts:351-353 | pdf and image replies are read as binary; any other binary reply is an octet stream |
| `Requests.HeadersField` | postboy/src/hooks/useRequests.ts:392 | the response headers are string-valued entries of the payload's headers object, and every string-valued entry of it |
| `Requests.Normalize` | postboy/src/hooks/useRequests.ts:387-396 | reading fails exactly for a null payload; otherwise method, final URL, time and type are kept, the status is non-zero unless the proxy's was 0, and the body is truthy or "" |
| `Requests.Deliver` | postboy/src/hooks/useRequests.ts:125-396 | a rejected fetch throws its message; a delivered response carries the method, the final URL and the time, and a content-type class exactly on the full-envelope path |
| `Requests.SendOutcome` | postboy/src/hooks/useRequests.ts:84-408 | the response keeps the method and time; with a parsable URL it is the delivered response, or, for any error the delivery throws, the failure response (status 0, "Failed", no headers, the message, the URL as typed); an unparsable URL gives the failure response too |
| `Requests.ParamsAfterSend` | postboy/src/hooks/useRequests.ts:86-89 | a non-empty URL query replaces the rows by enabled rows with its entries; otherwise the rows stay |
| `Requests.FailuresNormalised` | postboy/src/hooks/useRequests.ts:398-408 | each throw reaching the catch gives the failure response with its message and the URL as typed: an unparsable URL, a rejected fetch, a non-ok direct or GET-envelope reply, a direct reply that is not JSON, a null GET-envelope payload, a falsy full-envelope payload |
| `Requests.NonOkReplies` | postboy/src/hooks/useRequests.ts:137-138 | a non-ok direct or GET-proxy reply throws "HTTP error! status: n"; the full envelope keeps the proxy's status and the classification |
| `Requests.BinaryReply` | postboy/src/hooks/useRequests.ts:354-367 | a binary reply keeps the proxy's status, status text and headers and carries the data URL |
| `Requests.RequestComposer.constructor` | postboy/src/hooks/useRequests.ts:5-13 | not loading, no response, one disabled empty query row, the two JSON headers |
| `Requests.RequestComposer.AddQueryParam` | postboy/src/hooks/useRequests.ts:15-17 | the query rows become `Add` of the old ones |
| `Requests.RequestComposer.UpdateQueryParam` | postboy/src/hooks/useRequests.ts:19-23 | the query rows become `Update` of the old ones |
| `Requests.RequestComposer.RemoveQueryParam` | postboy/src/hooks/useRequests.ts:25-27 | the query rows become `Remove` of the old ones |
| `Requests.RequestComposer.AddRequestHeader` | postboy/src/hooks/useRequests.ts:29-31 | the header rows become `Add` of the old ones |
| `Requests.RequestComposer.UpdateRequestHeader` | postboy/src/hooks/useRequests.ts:33-37 | the header rows become `Update` of the old ones |
| `Requests.RequestComposer.RemoveRequestHeader` | postboy/src/hooks/useRequests.ts:39-41 | the header rows become `Remove` of the old ones |
| `Requests.RequestComposer.SetQueryParams` | postboy/src/hooks/useRequests.ts:426 | replaces the query rows |
| `Requests.RequestComposer.SetRequestHeaders` | postboy/src/hooks/useRequests.ts:427 | replaces the header rows |
| `Requests.RequestComposer.SendRequest` | postboy/src/hooks/useRequests.ts:77-411 | a blank URL changes nothing; otherwise the send ends not loading, the rows replaced by a non-empty URL query, and the response built from the rows at the start of the send |
| `ResponseView.TabState.constructor` | postboy/src/hooks/useResponseView.ts:6-7 | the params tab is active, the body tab is the last response tab |
| `ResponseView.TabState.SwitchToTab` | postboy/src/hooks/useResponseView.ts:9-14 | the tab is always shown; it is remembered only for a response tab |
| `ResponseView.HeaderType` | postboy/src/hooks/useResponseView.ts:18-28 | image, else html, else json, else text, each exactly under its condition, never pdf |
| `ResponseView.SniffType` | postboy/src/hooks/useResponseView.ts:31-47 | a non-string is text; image exactly for an image data URL string; json only for a string that parses; never pdf |
| `ResponseView.DetectResponseType` | postboy/src/hooks/useResponseView.ts:16-48 | a recognised content type decides; otherwise the sniff decides; never pdf |
| `ResponseView.FormatResponse` | postboy/src/hooks/useResponseView.ts:50-80 | nullish data is empty text; it fails only for a json-classified string that does not parse; image content is a string; never pdf |
| `ResponseView.HeaderDecidesAlone` | postboy/src/hooks/useResponseView.ts:16-28 | a recognised content type decides whatever the data |
| `ResponseView.DataUrlIsNotMarkup` | postboy/src/hooks/useResponseView.ts:33-37 | an image data URL never starts with `<` |
| `ResponseView.SniffOrder` | postboy/src/hooks/useResponseView.ts:31-47 | without a recognised header: an image data URL is image, markup is html, other parsable strings json, the rest and every non-string text |
| `ResponseView.NullishIsEmptyText` | postboy/src/hooks/useResponseView.ts:51-53 | `null` and `undefined` format as empty text |
| `ResponseView.FormatFollowsDetection` | postboy/src/hooks/useResponseView.ts:55-79 | the rendered type is the detected one; formatting throws exactly for a json-headed string that does not parse |
| `ResponseView.FormatContent` | postboy/src/hooks/useResponseView.ts:70-78 | html and non-string json pass through, json strings are parsed, text is `String(data)` |
| `ResponseView.FormatImage` | postboy/src/hooks/useResponseView.ts:58-69 | an image is always a data URL: a given image data URL unchanged, other strings prefixed with the content type or image/png |
| `ResponseView.GetStatusClass` | postboy/src/hooks/useResponseView.ts:82-88 | 2xx green, 3xx blue, 4xx yellow, 500 and above red, below 200 gray, each exactly |
| `RequestStore.BodyOrEmpty` | postboy/src/hooks/useRequestStore.ts:49 | a truthy body is kept; a missing or empty one becomes "" |
| `RequestStore.SavePayload` | postboy/src/hooks/useRequestStore.ts:39-51 | the saved name and method are never empty, defaulting to "New Request" and "GET"; uri and collection as given; the serialised header rows; the body, or "" when missing or empty |
| `RequestStore.UpdatePayload` | postboy/src/hooks/useRequestStore.ts:81-100 | an update sends the fields unchanged with the id, the serialised header rows, the serialised query map and the body or "" |
| `RequestStore.RejectionMessage` | postboy/src/hooks/useRequestStore.ts:60-61 | the backend's truthy message, else "prefix: status statusText" |
| `RequestStore.ReplyOutcome` | postboy/src/hooks/useRequestStore.ts:59-66 | success exactly for an ok reply, carrying its body; otherwise the thrown message |
| `RequestStore.ReplaceById` | postboy/src/hooks/useRequestStore.ts:120-122 | same length; entries with the id become the update, others are kept |
| `RequestStore.ReplaceActive` | postboy/src/hooks/useRequestStore.ts:124-126 | the active request is replaced only when its id matches |
| `RequestStore.Store.constructor` | postboy/src/hooks/useRequestStore.ts:20-23 | nothing saved, nothing active, not loading, no error |
| `RequestStore.Store.SetActiveRequest` | postboy/src/hooks/useRequestStore.ts:185 | sets the active request |
| `RequestStore.Store.SaveRequest` | postboy/src/hooks/useRequestStore.ts:25-74 | a falsy collection id fails with "Collection ID is required to save a request" before any call; otherwise posts the payload, appends exactly the accepted request, records the thrown message; never loading afterwards |
| `RequestStore.Store.UpdateRequest` | postboy/src/hooks/useRequestStore.ts:76-136 | puts the payload; success replaces by id in the list and the matching active request; failure records "Failed to update request" and returns the thrown message |
| `RequestStore.Store.DeleteRequest` | postboy/src/hooks/useRequestStore.ts:138-158 | only an ok reply removes the requests with the id; a failure keeps the list and records "Failed to delete request" |
| `RequestStore.Store.LoadRequest` | postboy/src/hooks/useRequestStore.ts:160-177 | returns the fetched request, or fails with "Failed to load request"; the list is untouched |
| `RequestStore.SerializeHeadersSpec` | postboy/src/hooks/useRequestStore.ts:43-48 | the header map has exactly the keys of rows with key and value, each bound to the last such value as a one-element list |
| `RequestStore.SerializeParamsSpec` | postboy/src/hooks/useRequestStore.ts:94-99 | the query map has exactly the keys of rows with key and value, each bound to the last such value |
| `RequestStore.SerializeHeaders` | postboy/src/hooks/useRequestStore.ts:43-48 | every serialised header has a non-empty name and exactly one non-empty value |
| `RequestStore.SerializeParams` | postboy/src/hooks/useRequestStore.ts:94-99 | every serialised query entry has a non-empty key and value |
| `RequestStore.SerializeIgnoresEnabled` | postboy/src/hooks/useRequestStore.ts:86-91 | serialisation ignores the enabled flag and the ids |
| `RequestStore.DeleteUndoesSave` | postboy/src/hooks/useRequestStore.ts:150 | deleting a just-saved request with a fresh id restores the list |
| `RequestStore.DeleteById` | postboy/src/hooks/useRequestStore.ts:150 | the remaining requests are requests of the list without that id |
| `RequestStore.DeleteDropsExactly` | postboy/src/hooks/useRequestStore.ts:150 | each request is kept, once and in its place, exactly when its id differs: the head is kept or dropped by its id and the rest is deleted alike; a one-request list keeps it iff its id differs; nothing changes when no request has the id |
| `RequestStore.DeleteDistributes` | postboy/src/hooks/useRequestStore.ts:150 | delete works on each part of a list independently, so the survivors keep their order and number |
| `RequestStore.ReplaceProperties` | postboy/src/hooks/useRequestStore.ts:120-122 | replacing is idempotent, changes nothing without a match, and commutes with deletion of the id |
| `BodyEditor.OnAdd` | postboy/src/components/RequestBodyEditor.tsx:44-55 | the old rows (none for non-list content) followed by one empty enabled row |
| `BodyEditor.OnUpdate` | postboy/src/components/RequestBodyEditor.tsx:56-61 | same length; matching rows get only the named field, others unchanged |
| `BodyEditor.OnRemove` | postboy/src/components/RequestBodyEditor.tsx:62-67 | keeps exactly the rows with another id |
| `BodyEditor.RawText` | postboy/src/components/RequestBodyEditor.tsx:35 | the raw editor shows string content, else "" |
| `BodyEditor.NonListIsEmpty` | postboy/src/components/RequestBodyEditor.tsx:43 | non-list content is edited as the empty list |
| `BodyEditor.AddThenRemoveRow` | postboy/src/components/RequestBodyEditor.tsx:62-67 | removing a freshly added row restores the rows |
| `BodyEditor.AddedRowIsNotSent` | postboy/src/components/RequestBodyEditor.tsx:44-55 | a freshly added row adds nothing to the form body a send builds |
| `ResponseInfo.StatusClass` | postboy/src/components/ResponseInfo.tsx:11-17 | 2xx green, 3xx yellow, 400 and above red, below 200 gray, each exactly |
| `ResponseInfo.BandingsDiffer` | postboy/src/components/ResponseInfo.tsx:13-14 | the badge agrees with the response view exactly outside 300-499 |
| `Sidebar.SearchResult` | postboy/src/components/Sidebar.tsx:32-38 | a blank term shows all collections; otherwise exactly those whose name contains the term, ignoring case, never more than there are |
| `Sidebar.DeleteRequestIn` | postboy/src/components/Sidebar.tsx:42-53 | same collections in order; only the matching collection loses the requests with that id |
| `Sidebar.Flip` | postboy/src/components/Sidebar.tsx:109 | `!isOpen`: a set flag is negated, an unset one opens |
| `Sidebar.ToggleById` | postboy/src/components/Sidebar.tsx:106-111 | only collections with the id have their flag flipped |
| `Sidebar.SidebarState.constructor` | postboy/src/components/Sidebar.tsx:28-29 | shows the given collections with an empty term |
| `Sidebar.SidebarState.RunSearchEffect` | postboy/src/components/Sidebar.tsx:31-40 | recomputes the shown list from the full list and the term only |
| `Sidebar.SidebarState.SetSearchTerm` | postboy/src/components/Sidebar.tsx:31-40 | a new term is followed by the recomputed list |
| `Sidebar.SidebarState.SetCollections` | postboy/src/components/Sidebar.tsx:31-40 | new collections are followed by the recomputed list |
| `Sidebar.SidebarState.HandleRequestDelete` | postboy/src/components/Sidebar.tsx:42-53 | edits the shown list by `DeleteRequestIn` |
| `Sidebar.SidebarState.OnToggle` | postboy/src/components/Sidebar.tsx:106-111 | edits the shown list by `ToggleById` |
| `Sidebar.SearchIgnoresCase` | postboy/src/components/Sidebar.tsx:36 | lower-casing the term does not change the result |
| `Sidebar.SearchKeepsOrder` | postboy/src/components/Sidebar.tsx:35-37 | the shown list keeps the collections' order |
| `Sidebar.ToggleTwice` | postboy/src/components/Sidebar.tsx:106-111 | toggling twice restores set flags and leaves an unset one closed |
| `Sidebar.DeleteAbsentRequest` | postboy/src/components/Sidebar.tsx:42-53 | deleting a request the collection does not hold changes nothing |
| `SaveDialog.DefaultSelection` | postboy/src/hooks/useSaveRequestDialog.ts:22-24 | a truthy initial id, else the first collection's id, else none |
| `SaveDialog.DialogState.constructor` | postboy/src/hooks/useSaveRequestDialog.ts:21-24 | the initial name and the default selection |
| `SaveDialog.DialogState.OpenEffect` | postboy/src/hooks/useSaveRequestDialog.ts:26-33 | opening resets the name and the selection; otherwise nothing changes |
| `SaveDialog.DialogState.SetRequestName` | postboy/src/hooks/useSaveRequestDialog.ts:49 | sets the name |
| `SaveDialog.DialogState.SetSelectedCollectionId` | postboy/src/hooks/useSaveRequestDialog.ts:51 | sets the selection |
| `SaveDialog.DialogState.HandleSave` | postboy/src/hooks/useSaveRequestDialog.ts:35-39 | fires exactly when the name is not blank and a truthy collection is selected, with the untrimmed name |
| `MainContent.LoadedUrl` | postboy/src/components/MainContent.tsx:66 | `url`, else `uri`, else "" |
| `MainContent.HeaderRowsOf` | postboy/src/components/MainContent.tsx:68-75 | header rows are kept; each entry of a header object becomes an enabled row with its (first) value |
| `MainContent.LoadedBody` | postboy/src/components/MainContent.tsx:80 | `bodyContent`, else `body`, else "" |
| `MainContent.SaveDraft` | postboy/src/components/MainContent.tsx:113-140 | the saved rows are exactly the active rows, unchanged and in order; the method defaults to GET |
| `MainContent.HeaderObjectOf` | postboy/src/components/MainContent.tsx:70 | the backend's header object lists each saved key with its value list |
| `MainContent.Editor.constructor` | postboy/src/components/MainContent.tsx:32-53 | GET, empty URL, closed dialog, no body, and a fresh composer with its initial rows (one disabled empty query row, the two JSON headers) and a fresh view |
| `MainContent.Editor.SetBodyType` | postboy/src/components/MainContent.tsx:35 | sets the body type |
| `MainContent.Editor.SetBodyContent` | postboy/src/components/MainContent.tsx:36 | sets the body content |
| `MainContent.Editor.OpenSaveDialog` | postboy/src/components/MainContent.tsx:101-103 | opens the dialog |
| `MainContent.Editor.CloseSaveDialog` | postboy/src/components/MainContent.tsx:164-167 | closes the dialog and clears the error |
| `MainContent.Editor.LoadActiveRequest` | postboy/src/components/MainContent.tsx:62-82 | a selected request sets method, URL, the composer's rows, body type (default none) and body; no selection changes nothing |
| `MainContent.Editor.HandleSendRequest` | postboy/src/components/MainContent.tsx:84-99 | a blank URL does nothing; otherwise records method and URL, sends with the editor's body and shows the last response tab |
| `MainContent.Editor.HandleSaveConfirm` | postboy/src/components/MainContent.tsx:105-156 | without a collection: "Please select a collection to save the request", no call and the store untouched; otherwise updates the active request under its id (the store replacing the list entry and the active request on success, recording "Failed to update request" otherwise) or saves (appending on success, the active request kept, the thrown message recorded otherwise), closing the dialog only on success |
| `MainContent.ReloadedHeadersReserialize` | postboy/src/components/MainContent.tsx:68-75 | headers saved, returned as an object and loaded back serialise to the same map |

## Left out

- Every `fetch` is left out: the proxy, the direct calls and the store's calls. The reply is a parameter (`Requests.Reply`, `RequestStore.ApiReply`), and the call a store method would make is returned as an `ApiCall` value.
- `JSON.parse`, `JSON.stringify`, `URL`, `URLSearchParams`, `FormData`, `FileReader`, `btoa` and `String.fromCharCode` are browser services. They are left to the `Platform` functions and parameters; their own behaviour is not modelled.
- `Date.now()` and `Math.random()` are left out. Times and fresh ids are parameters.
- `console.log` and `console.error` are left out.
- Concurrency is left out: overlapping sends, the `async` interleavings, and React's deferred state updates beyond the stale rows of a send.
- Numbers are integers. Fractional numbers and NaN are not modelled.
- `toLowerCase` folds only ASCII letters.
- `Requests.RequestComposer.SendRequest`: a payload `status`, `statusText` or `headers` that is truthy but of an unexpected JSON type (a string status, say) is read as absent. The source would store it as it is; the model's response fields are typed.
- `Requests.RouteSpec`: the full envelope is described as the object built before `JSON.stringify` (`useRequests.ts:324`). Stringifying turns a `FormData` or `URLSearchParams` body into `{}`, so the form fields that RouteSpec places in the envelope never reach the proxy; that serialisation is not modelled.
- `Requests.HeadersField`: an entry of a payload's `headers` object whose value is not a string (a list, say) is dropped. The source keeps the whole object as it is; the model's response headers are a string map.
- `ResponseView.FormatResponse`: every value that is not a string and is classified as an image is rendered as a data URL through `base64Of`. In the source, `new Uint8Array(data)` throws for some such values (a negative number), and that exception is not modelled.
- `MainContent.HeaderRowsOf`: a header object entry whose value is an empty list becomes the value "", where the source would store `undefined`.
- `MainContent.Editor.LoadActiveRequest`: the `method` of a loaded request is a string. A missing method, which the source would store as `undefined`, is not distinguished from "".
- `RequestStore.Store.SaveRequest`: a thrown value that is not an `Error` would be recorded as "Failed to save request". Every failure here is an `Error`, so that fallback is not modelled. The same holds for the thrown values `Requests.Failure` would render as "Unknown error".
- `RequestStore.Store.LoadRequest`: the store's replies are typed as `SavedRequest`. The backend's own shape is modelled only where the editor reads it (`MainContent.LoadedRequest`).
- In `MainContent.Editor.HandleSendRequest`, the `catch` branch (`MainContent.tsx:96-98`) is not modelled: `sendRequest` catches every error itself, so it never runs.
- `useApp.ts` is not part of this model: `fetchCollections` with its fan-out, and the wrappers that refetch after a save or update.
- `useRequestItem.ts` is not part of this model: its DOM listeners and its delete call.
- `useURLEditor.ts` is not part of this model: a dropdown toggle and a colour switch.
- The rendering components are not part of this model: ResponseContent, ResponseTabs, RequestTabs, KeyValueEditor, CollectionItem, CollectionRequests, HTTPClient, SearchBar, RequestConfig, URLEditorProps and App.
