/** The save dialog's state (`hooks/useSaveRequestDialog.ts`): the name
    and the collection selected, reset whenever the dialog opens, and the
    guard in front of the save callback. */
module SaveDialog {
  import opened Wrappers
  import opened JsText
  import opened Types

  /** `initialCollectionId || collections[0]?.id`: the given id when it is
      truthy, else the first collection's id, else none. */
  function DefaultSelection(initial: Option<int>, collections: seq<Collection>): (r: Option<int>)
    ensures initial.Some? && initial.value != 0 ==> r == initial
    ensures !(initial.Some? && initial.value != 0) && |collections| > 0 ==> r == Some(collections[0].id)
    ensures !(initial.Some? && initial.value != 0) && |collections| == 0 ==> r.None?
  {
    if initial.Some? && initial.value != 0 then initial
    else if |collections| > 0 then Some(collections[0].id)
    else None
  }

  /** JavaScript truthiness of the selection: set and not 0. */
  predicate Selected(id: Option<int>) {
    id.Some? && id.value != 0
  }

  /** The arguments of the save callback. */
  datatype SaveCall = SaveCall(name: string, collectionId: int)

  class DialogState {
    var requestName: string
    var selectedCollectionId: Option<int>

    constructor (initialName: string, initialCollectionId: Option<int>, collections: seq<Collection>)
      ensures requestName == initialName
      ensures selectedCollectionId == DefaultSelection(initialCollectionId, collections)
    {
      requestName := initialName;
      selectedCollectionId := DefaultSelection(initialCollectionId, collections);
    }

    /** The effect that runs when the dialog's inputs change: while open,
        the name and the selection are reset. */
    method OpenEffect(isOpen: bool, initialName: string, initialCollectionId: Option<int>, collections: seq<Collection>)
      modifies this
      ensures isOpen ==> requestName == initialName && selectedCollectionId == DefaultSelection(initialCollectionId, collections)
      ensures !isOpen ==> requestName == old(requestName) && selectedCollectionId == old(selectedCollectionId)
    {
      if isOpen {
        requestName := initialName;
        selectedCollectionId := DefaultSelection(initialCollectionId, collections);
      }
    }

    method SetRequestName(name: string)
      modifies this`requestName
      ensures requestName == name
    {
      requestName := name;
    }

    method SetSelectedCollectionId(id: Option<int>)
      modifies this`selectedCollectionId
      ensures selectedCollectionId == id
    {
      selectedCollectionId := id;
    }

    /** `handleSave`: the callback fires, with the name as typed (not
        trimmed), exactly when the name is not blank and a collection is
        selected. */
    method HandleSave() returns (call: Option<SaveCall>)
      ensures call.Some? <==> !IsBlank(requestName) && Selected(selectedCollectionId)
      ensures call.Some? ==> call.value.name == requestName && call.value.collectionId == selectedCollectionId.value
      ensures call.Some? ==> call.value.collectionId != 0
    {
      if !IsBlank(requestName) && Selected(selectedCollectionId) {
        call := Some(SaveCall(requestName, selectedCollectionId.value));
      } else {
        call := None;
      }
    }
  }
}
