/** The board view: the drag session. It remembers the drag item from drag
    start to drag end and turns a column's drop into a move. */
module KanbanBoardComponent {
  import opened KanbanTypes

  /** The `moveCard` call a drop issues, if any: none without a drag item,
      none for a drop onto the card's own position, and otherwise a move of
      the dragged card from its source column to the drop target. */
  function DropRequest(dragItem: Option<DragItem>, targetColumnId: string, targetIndex: nat)
    : (r: Option<StoreCall>)
    ensures r.Some? <==>
      (dragItem.Some? &&
       !(dragItem.value.sourceColumnId == targetColumnId && dragItem.value.sourceIndex == targetIndex))
    ensures r.Some? ==> r.value == MoveCardCall(dragItem.value.sourceColumnId, targetColumnId,
                                                dragItem.value.cardId, targetIndex)
  {
    match dragItem
    case None => None
    case Some(item) =>
      if item.sourceColumnId == targetColumnId && item.sourceIndex == targetIndex then None
      else Some(MoveCardCall(item.sourceColumnId, targetColumnId, item.cardId, targetIndex))
  }

  class BoardView {
    var dragItem: Option<DragItem>

    constructor ()
      ensures dragItem == None
    {
      dragItem := None;
    }

    /** `handleDragStart`: the given item becomes the active drag item. */
    method HandleDragStart(item: DragItem)
      modifies this
      ensures dragItem == Some(item)
    {
      dragItem := Some(item);
    }

    /** `handleDragEnd`: there is no active drag item any more, whether or not
        a drop happened. */
    method HandleDragEnd()
      modifies this
      ensures dragItem == None
    {
      dragItem := None;
    }

    /** `handleDrop`: issues at most one move and leaves the drag item alone. */
    method HandleDrop(targetColumnId: string, targetIndex: nat) returns (call: Option<StoreCall>)
      ensures call == DropRequest(dragItem, targetColumnId, targetIndex)
    {
      if dragItem.None? {
        return None;
      }
      var item := dragItem.value;
      if item.sourceColumnId == targetColumnId && item.sourceIndex == targetIndex {
        return None;
      }
      call := Some(MoveCardCall(item.sourceColumnId, targetColumnId, item.cardId, targetIndex));
    }
  }
}
