/** One card of the board view: inline editing of its title, deletion, and
    the drag item it hands over when a drag starts. */
module CardComponent {
  import opened KanbanTypes
  import opened TextInput

  /** The `editCard` call saving the edit box issues, if any: the trimmed text,
      and only when the trimmed text is not empty and the untrimmed text
      differs from the card's title. */
  function SaveRequest(card: Card, columnId: string, editValue: string): (r: Option<StoreCall>)
    ensures r.Some? <==> !AllWhitespace(editValue) && editValue != card.title
    ensures r.Some? ==> r.value == EditCardCall(columnId, card.id, Trim(editValue)) && r.value.newTitle != []
  {
    TrimEmptyIff(editValue);
    if Trim(editValue) != [] && editValue != card.title then
      Some(EditCardCall(columnId, card.id, Trim(editValue)))
    else None
  }

  /** The drag item a card hands over: its id, its column and its position. */
  function DragItemOf(card: Card, columnId: string, index: nat): (item: DragItem)
    ensures item.cardId == card.id && item.sourceColumnId == columnId && item.sourceIndex == index
  {
    DragItem(card.id, columnId, index)
  }

  /** The state of one card component. */
  class CardView {
    var isEditing: bool
    var editValue: string

    constructor (card: Card)
      ensures !isEditing && editValue == card.title && Draggable()
    {
      isEditing, editValue := false, card.title;
    }

    /** Only a card that is not being edited can be dragged. */
    predicate Draggable()
      reads this
    {
      !isEditing
    }

    /** Double-click enters edit mode with the current title. */
    method HandleDoubleClick(card: Card)
      modifies this
      ensures isEditing && editValue == card.title && !Draggable()
    {
      isEditing := true;
      editValue := card.title;
    }

    /** The edit button enters edit mode with the current title. */
    method HandleEditClick(card: Card)
      modifies this
      ensures isEditing && editValue == card.title && !Draggable()
    {
      isEditing := true;
      editValue := card.title;
    }

    /** Typing in the edit box. */
    method SetEditValue(value: string)
      modifies this`editValue
      ensures editValue == value
    {
      editValue := value;
    }

    /** `handleSave`: issue the edit if there is one, and always leave edit mode. */
    method HandleSave(card: Card, columnId: string) returns (call: Option<StoreCall>)
      modifies this`isEditing
      ensures call == SaveRequest(card, columnId, editValue)
      ensures !isEditing && Draggable()
    {
      var trimmed := Trim(editValue);
      TrimEmptyIff(editValue);
      if trimmed != [] && editValue != card.title {
        call := Some(EditCardCall(columnId, card.id, trimmed));
      } else {
        call := None;
      }
      isEditing := false;
    }

    /** Enter without Shift saves; Escape leaves edit mode and restores the
        title without editing; any other key does nothing. */
    method HandleKeyDown(card: Card, columnId: string, key: Key, shiftKey: bool)
      returns (call: Option<StoreCall>)
      modifies this
      ensures key == Enter && !shiftKey ==>
        call == SaveRequest(card, columnId, old(editValue)) && !isEditing && editValue == old(editValue)
      ensures key == Escape ==> call == None && !isEditing && Draggable() && editValue == card.title
      ensures key == OtherKey || (key == Enter && shiftKey) ==>
        call == None && isEditing == old(isEditing) && editValue == old(editValue)
    {
      if key == Enter && !shiftKey {
        call := HandleSave(card, columnId);
      } else if key == Escape {
        isEditing := false;
        editValue := card.title;
        call := None;
      } else {
        call := None;
      }
    }

    /** `handleDelete`: delete this card from its column. */
    method HandleDelete(card: Card, columnId: string) returns (call: StoreCall)
      ensures call == DeleteCardCall(columnId, card.id)
    {
      call := DeleteCardCall(columnId, card.id);
    }

    /** `handleDragStart`: hand over this card's drag item. */
    method HandleDragStart(card: Card, columnId: string, index: nat) returns (item: DragItem)
      ensures item == DragItemOf(card, columnId, index)
    {
      item := DragItem(card.id, columnId, index);
    }
  }
}
