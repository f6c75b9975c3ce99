/** One column of the board view: the drop index computed from the pointer
    while a card is dragged over the column, the drop it reports to the
    board, and the add-card form. The column's midpoints are the vertical
    midpoints of its rendered cards, top to bottom, supplied by the layout. */
module ColumnComponent {
  import opened KanbanTypes
  import opened TextInput

  /** The raw drop index: the least `i` with `pointerY < mids[i]`, or `|mids|`
      (append) when the pointer is below every midpoint. */
  function FirstBelow(mids: seq<int>, pointerY: int): (r: nat)
    ensures r <= |mids|
    ensures forall j :: 0 <= j < r ==> mids[j] <= pointerY
    ensures r < |mids| ==> pointerY < mids[r]
  {
    if |mids| == 0 then 0
    else if pointerY < mids[0] then 0
    else 1 + FirstBelow(mids[1..], pointerY)
  }

  /** Over the card's own column and past its own position, the index is
      lowered by one (`Math.max(0, index - 1)`): the dragged card is still
      rendered there, but the move removes it before inserting. */
  function AdjustDropIndex(raw: nat, item: DragItem, columnId: string): (r: nat)
    ensures r <= raw && raw <= r + 1
    ensures r < raw <==> item.sourceColumnId == columnId && item.sourceIndex < raw
  {
    if item.sourceColumnId == columnId && item.sourceIndex < raw then
      (if raw - 1 > 0 then raw - 1 else 0)
    else raw
  }

  /** The drop index while hovering: the raw index, then adjusted. Over
      another column it is the raw index; over the card's own column it is one
      less exactly when the card sits above the raw index. */
  function DropIndex(item: DragItem, columnId: string, mids: seq<int>, pointerY: int): (r: nat)
    ensures item.sourceColumnId != columnId ==> r == FirstBelow(mids, pointerY)
    ensures item.sourceColumnId == columnId ==>
      (r + 1 == FirstBelow(mids, pointerY) <==> item.sourceIndex < FirstBelow(mids, pointerY))
    ensures item.sourceColumnId == columnId && FirstBelow(mids, pointerY) <= item.sourceIndex ==>
      r == FirstBelow(mids, pointerY)
  {
    AdjustDropIndex(FirstBelow(mids, pointerY), item, columnId)
  }

  /** The scan of `handleDragOver`: the first card whose midpoint is below the
      pointer, else the append position. */
  method ScanDropIndex(mids: seq<int>, pointerY: int) returns (index: nat)
    ensures index <= |mids|
    ensures forall j :: 0 <= j < index ==> mids[j] <= pointerY
    ensures index < |mids| ==> pointerY < mids[index]
    ensures index == FirstBelow(mids, pointerY)
  {
    index := |mids|;
    for i := 0 to |mids|
      invariant index == |mids|
      invariant forall j :: 0 <= j < i ==> mids[j] <= pointerY
    {
      if pointerY < mids[i] {
        index := i;
        break;
      }
    }
  }

  /** The drop index stays within the column: in `[0, |mids|]`. */
  lemma DropIndexInRange(item: DragItem, columnId: string, mids: seq<int>, pointerY: int)
    ensures DropIndex(item, columnId, mids, pointerY) <= |mids|
  {
  }

  /** Over an empty column the drop index is 0, before and after adjustment. */
  lemma EmptyColumnDropIndex(item: DragItem, columnId: string, pointerY: int)
    ensures FirstBelow([], pointerY) == 0
    ensures DropIndex(item, columnId, [], pointerY) == 0
  {
  }

  /** Over the source column, from source index 2 a raw index of 4 becomes 3. */
  lemma SameColumnAdjustExample(cardId: string, columnId: string)
    ensures AdjustDropIndex(4, DragItem(cardId, columnId, 2), columnId) == 3
  {
  }

  /** The `addCard` call the add form issues for this text, if any: the trimmed
      title, and only when it is not empty. */
  function AddCardRequest(columnId: string, title: string): (r: Option<StoreCall>)
    ensures r.Some? <==> !AllWhitespace(title)
    ensures r.Some? ==> r.value == AddCardCall(columnId, Trim(title)) && r.value.title != []
  {
    TrimEmptyIff(title);
    if Trim(title) != [] then Some(AddCardCall(columnId, Trim(title))) else None
  }

  /** The state of one column component. */
  class ColumnView {
    var showAddCard: bool
    var newCardTitle: string
    var dropIndex: Option<nat>

    constructor ()
      ensures !showAddCard && newCardTitle == [] && dropIndex == None
    {
      showAddCard, newCardTitle, dropIndex := false, [], None;
    }

    /** The "Add a card" button opens the form. */
    method OpenAddForm()
      modifies this`showAddCard
      ensures showAddCard
    {
      showAddCard := true;
    }

    /** Typing in the form. */
    method SetNewCardTitle(value: string)
      modifies this`newCardTitle
      ensures newCardTitle == value
    {
      newCardTitle := value;
    }

    /** `handleAddCard`: a title with text is added trimmed, then the form is
      cleared and closed; a whitespace-only title changes nothing. */
    method HandleAddCard(column: Column) returns (call: Option<StoreCall>)
      modifies this`showAddCard, this`newCardTitle
      ensures call == AddCardRequest(column.id, old(newCardTitle))
      ensures call.Some? ==> newCardTitle == [] && !showAddCard
      ensures call.None? ==> newCardTitle == old(newCardTitle) && showAddCard == old(showAddCard)
    {
      var trimmed := Trim(newCardTitle);
      TrimEmptyIff(newCardTitle);
      if trimmed != [] {
        call := Some(AddCardCall(column.id, trimmed));
        newCardTitle := [];
        showAddCard := false;
      } else {
        call := None;
      }
    }

    /** Enter without Shift submits the form; Escape closes and clears it
        without adding; any other key does nothing. */
    method HandleKeyDown(column: Column, key: Key, shiftKey: bool) returns (call: Option<StoreCall>)
      modifies this`showAddCard, this`newCardTitle
      ensures key == Enter && !shiftKey ==>
        call == AddCardRequest(column.id, old(newCardTitle)) &&
        (call.Some? ==> newCardTitle == [] && !showAddCard) &&
        (call.None? ==> newCardTitle == old(newCardTitle) && showAddCard == old(showAddCard))
      ensures key == Escape ==> call == None && !showAddCard && newCardTitle == []
      ensures key == OtherKey || (key == Enter && shiftKey) ==>
        call == None && newCardTitle == old(newCardTitle) && showAddCard == old(showAddCard)
    {
      if key == Enter && !shiftKey {
        call := HandleAddCard(column);
      } else if key == Escape {
        showAddCard := false;
        newCardTitle := [];
        call := None;
      } else {
        call := None;
      }
    }

    /** The Cancel button: close and clear the form. */
    method CancelAddForm()
      modifies this`showAddCard, this`newCardTitle
      ensures !showAddCard && newCardTitle == []
    {
      showAddCard := false;
      newCardTitle := [];
    }

    /** `handleDragOver`. Without a drag item, or when the column has no cards
        container, the drop index is left alone; otherwise it becomes the
        adjusted index for the pointer. */
    method HandleDragOver(dragItem: Option<DragItem>, column: Column,
                          cardMids: Option<seq<int>>, pointerY: int)
      modifies this`dropIndex
      ensures dragItem.None? || cardMids.None? ==> dropIndex == old(dropIndex)
      ensures dragItem.Some? && cardMids.Some? ==>
        dropIndex == Some(DropIndex(dragItem.value, column.id, cardMids.value, pointerY))
    {
      if dragItem.None? {
        return;
      }
      if cardMids.None? {
        return;
      }
      var item := dragItem.value;
      var newDropIndex := ScanDropIndex(cardMids.value, pointerY);
      if item.sourceColumnId == column.id && item.sourceIndex < newDropIndex {
        newDropIndex := if newDropIndex - 1 > 0 then newDropIndex - 1 else 0;
      }
      dropIndex := Some(newDropIndex);
    }

    /** `handleDragLeave`: forget the drop index. */
    method HandleDragLeave()
      modifies this`dropIndex
      ensures dropIndex == None
    {
      dropIndex := None;
    }

    /** `handleDrop`: without a drag item nothing is reported; otherwise the
        column reports itself and the last drop index, the column's length
        when there is none, and forgets the index. */
    method HandleDrop(dragItem: Option<DragItem>, column: Column) returns (drop: Option<DropTarget>)
      modifies this`dropIndex
      ensures dragItem.None? ==> drop == None && dropIndex == old(dropIndex)
      ensures dragItem.Some? ==>
        drop == Some(DropTarget(column.id, old(dropIndex).GetOr(|column.cards|))) && dropIndex == None
    {
      if dragItem.None? {
        return None;
      }
      var finalIndex := dropIndex.GetOr(|column.cards|);
      drop := Some(DropTarget(column.id, finalIndex));
      dropIndex := None;
    }
  }
}
