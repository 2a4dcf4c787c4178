/** The body editor (`components/RequestBodyEditor.tsx`): the edits of
    the form-body rows, each handed to the parent as the new content, and
    the text the raw editor shows. Content that is not a row list is
    edited as if it were the empty list. */
module BodyEditor {
  import opened Types
  import opened KeyValues
  import Requests

  /** `onAdd`: the rows with a fresh empty, enabled row appended. */
  function OnAdd(c: BodyContent, freshId: string): (r: BodyContent)
    ensures r.Entries?
    ensures |r.items| == |Requests.RowsOf(c)| + 1 && r.items[..|Requests.RowsOf(c)|] == Requests.RowsOf(c)
    ensures r.items[|r.items| - 1] == KeyValuePair(freshId, "", "", true)
  {
    Entries(Add(Requests.RowsOf(c), freshId))
  }

  /** `onUpdate`: the named field set on the rows with that id. */
  function OnUpdate(c: BodyContent, id: string, u: FieldUpdate): (r: BodyContent)
    ensures r.Entries? && |r.items| == |Requests.RowsOf(c)|
    ensures forall i :: 0 <= i < |r.items| && Requests.RowsOf(c)[i].id == id ==> UpdatedBy(Requests.RowsOf(c)[i], r.items[i], u)
    ensures forall i :: 0 <= i < |r.items| && Requests.RowsOf(c)[i].id != id ==> r.items[i] == Requests.RowsOf(c)[i]
  {
    Entries(Update(Requests.RowsOf(c), id, u))
  }

  /** `onRemove`: the rows without that id. */
  function OnRemove(c: BodyContent, id: string): (r: BodyContent)
    ensures r.Entries? && |r.items| <= |Requests.RowsOf(c)|
    ensures forall i :: 0 <= i < |r.items| ==> r.items[i].id != id && r.items[i] in Requests.RowsOf(c)
    ensures forall i :: 0 <= i < |Requests.RowsOf(c)| && Requests.RowsOf(c)[i].id != id ==> Requests.RowsOf(c)[i] in r.items
  {
    Entries(Remove(Requests.RowsOf(c), id))
  }

  /** The raw editor's text: the content when it is a string, else "". */
  function RawText(c: BodyContent): (r: string)
    ensures c.Text? ==> r == c.text
    ensures !c.Text? ==> r == ""
  {
    if c.Text? then c.text else ""
  }

  /** Content that is not a row list is edited as the empty list. */
  lemma NonListIsEmpty(c: BodyContent, id: string, u: FieldUpdate)
    requires !c.Entries?
    ensures OnAdd(c, id) == Entries([KeyValuePair(id, "", "", true)])
    ensures OnUpdate(c, id, u) == Entries([])
    ensures OnRemove(c, id) == Entries([])
  {
  }

  /** Removing a freshly added row gives back the rows as they were. */
  lemma AddThenRemoveRow(c: BodyContent, id: string)
    requires forall i :: 0 <= i < |Requests.RowsOf(c)| ==> Requests.RowsOf(c)[i].id != id
    ensures OnRemove(OnAdd(c, id), id) == Entries(Requests.RowsOf(c))
  {
    AddThenRemove(Requests.RowsOf(c), id);
  }

  /** A freshly added row has no key, so it adds nothing to the form body
      a send builds. */
  lemma AddedRowIsNotSent(c: BodyContent, id: string)
    ensures ActivePairs(OnAdd(c, id).items) == ActivePairs(Requests.RowsOf(c))
  {
    ActivePairsDistributes(Requests.RowsOf(c), [NewEntry(id)]);
  }
}
