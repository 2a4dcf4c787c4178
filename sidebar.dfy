/** The collection sidebar (`components/Sidebar.tsx`): the list shown is
    recomputed from the full collection list and the search term whenever
    either changes, and request deletion and the open/closed toggle edit
    the shown list in place. */
module Sidebar {
  import opened Wrappers
  import opened JsText
  import opened Types
  import opened Seqs

  /** `collection.name.toLowerCase().includes(term.toLowerCase())`. */
  predicate NameMatches(term: string, c: Collection) {
    Contains(ToLower(c.name), ToLower(term))
  }

  function Matcher(term: string): Collection -> bool {
    (c: Collection) => NameMatches(term, c)
  }

  /** The shown list for a search term: every collection when the term is
      blank, else those whose name contains the (untrimmed) term, ignoring
      ASCII case. */
  function SearchResult(collections: seq<Collection>, term: string): (r: seq<Collection>)
    ensures IsBlank(term) ==> r == collections
    ensures |r| <= |collections|
    ensures !IsBlank(term) ==> forall i :: 0 <= i < |r| ==> r[i] in collections && NameMatches(term, r[i])
    ensures !IsBlank(term) ==> forall i :: 0 <= i < |collections| && NameMatches(term, collections[i]) ==> collections[i] in r
  {
    if IsBlank(term) then collections else Filter(collections, Matcher(term))
  }

  function OtherRequest(id: string): SavedRequest -> bool {
    (r: SavedRequest) => r.id != id
  }

  /** `handleRequestDelete`: the request leaves only the collection with
      the given id. */
  function DeleteRequestIn(cs: seq<Collection>, collectionId: int, requestId: string): (r: seq<Collection>)
    ensures |r| == |cs|
    ensures forall i :: 0 <= i < |cs| ==>
              r[i].id == cs[i].id && r[i].name == cs[i].name && r[i].isOpen == cs[i].isOpen
              && r[i].requests == if cs[i].id == collectionId then Filter(cs[i].requests, OtherRequest(requestId)) else cs[i].requests
  {
    seq(|cs|, i requires 0 <= i < |cs| =>
      if cs[i].id == collectionId then cs[i].(requests := Filter(cs[i].requests, OtherRequest(requestId))) else cs[i])
  }

  /** `!c.isOpen`: an unset flag counts as closed, so it opens. */
  function Flip(isOpen: Option<bool>): (r: Option<bool>)
    ensures r.Some? && (isOpen.Some? ==> r.value == !isOpen.value) && (isOpen.None? ==> r.value)
  {
    Some(!(isOpen.Some? && isOpen.value))
  }

  /** `onToggle`: flips the flag of the collection with the given id. */
  function ToggleById(cs: seq<Collection>, id: int): (r: seq<Collection>)
    ensures |r| == |cs|
    ensures forall i :: 0 <= i < |cs| ==> r[i] == if cs[i].id == id then cs[i].(isOpen := Flip(cs[i].isOpen)) else cs[i]
  {
    seq(|cs|, i requires 0 <= i < |cs| => if cs[i].id == id then cs[i].(isOpen := Flip(cs[i].isOpen)) else cs[i])
  }

  class SidebarState {
    var collections: seq<Collection>
    var filteredCollections: seq<Collection>
    var searchTerm: string

    /** The shown list starts as the given collections, with no search. */
    constructor (initial: seq<Collection>)
      ensures collections == initial && filteredCollections == initial && searchTerm == ""
    {
      collections := initial;
      filteredCollections := initial;
      searchTerm := "";
    }

    /** The search effect: the shown list is recomputed from the full list,
        whatever it showed before. */
    method RunSearchEffect()
      modifies this`filteredCollections
      ensures filteredCollections == SearchResult(collections, searchTerm)
    {
      if IsBlank(searchTerm) {
        filteredCollections := collections;
      } else {
        filteredCollections := Filter(collections, Matcher(searchTerm));
      }
    }

    /** Typing in the search bar, followed by the effect it triggers. */
    method SetSearchTerm(term: string)
      modifies this`searchTerm, this`filteredCollections
      ensures searchTerm == term && filteredCollections == SearchResult(collections, term)
    {
      searchTerm := term;
      RunSearchEffect();
    }

    /** New collections from the parent, followed by the effect. */
    method SetCollections(cs: seq<Collection>)
      modifies this`collections, this`filteredCollections
      ensures collections == cs && filteredCollections == SearchResult(cs, searchTerm)
    {
      collections := cs;
      RunSearchEffect();
    }

    method HandleRequestDelete(collectionId: int, requestId: string)
      modifies this`filteredCollections
      ensures filteredCollections == DeleteRequestIn(old(filteredCollections), collectionId, requestId)
    {
      filteredCollections := DeleteRequestIn(filteredCollections, collectionId, requestId);
    }

    method OnToggle(id: int)
      modifies this`filteredCollections
      ensures filteredCollections == ToggleById(old(filteredCollections), id)
    {
      filteredCollections := ToggleById(filteredCollections, id);
    }
  }

  // ---------------------------------------------------------------------
  // Properties

  /** The search ignores the ASCII case of the term. */
  lemma SearchIgnoresCase(collections: seq<Collection>, term: string)
    ensures SearchResult(collections, ToLower(term)) == SearchResult(collections, term)
  {
    ToLowerKeepsBlank(term);
    ToLowerIdempotent(term);
    FilterSamePredicate(collections, Matcher(ToLower(term)), Matcher(term));
  }

  /** The search keeps the order of the full list: it works on each part
      of the list independently. */
  lemma SearchKeepsOrder(a: seq<Collection>, b: seq<Collection>, term: string)
    ensures SearchResult(a + b, term) == SearchResult(a, term) + SearchResult(b, term)
  {
    if !IsBlank(term) {
      FilterAppend(a, b, Matcher(term));
    }
  }

  /** Toggling the same collection twice restores every flag that was set,
      and leaves an unset flag closed. */
  lemma ToggleTwice(cs: seq<Collection>, id: int)
    ensures forall i :: 0 <= i < |cs| && cs[i].isOpen.Some? ==> ToggleById(ToggleById(cs, id), id)[i] == cs[i]
    ensures forall i :: 0 <= i < |cs| && cs[i].isOpen.None? && cs[i].id == id ==>
              ToggleById(ToggleById(cs, id), id)[i] == cs[i].(isOpen := Some(false))
    ensures (forall i :: 0 <= i < |cs| ==> cs[i].isOpen.Some?) ==> ToggleById(ToggleById(cs, id), id) == cs
  {
  }

  /** Deleting a request from a collection that does not hold it changes
      nothing. */
  lemma DeleteAbsentRequest(cs: seq<Collection>, collectionId: int, requestId: string)
    requires forall i, j :: 0 <= i < |cs| && cs[i].id == collectionId && 0 <= j < |cs[i].requests| ==> cs[i].requests[j].id != requestId
    ensures DeleteRequestIn(cs, collectionId, requestId) == cs
  {
    forall i | 0 <= i < |cs| && cs[i].id == collectionId
      ensures Filter(cs[i].requests, OtherRequest(requestId)) == cs[i].requests
    {
      FilterKeepsAll(cs[i].requests, OtherRequest(requestId));
    }
  }
}
