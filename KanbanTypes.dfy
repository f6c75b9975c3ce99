/** The entities of the kanban board: cards, columns, the board, the drag item
    captured when a drag gesture starts, and the four store operations a
    component can issue. */
module KanbanTypes {

  datatype Option<T> = None | Some(value: T) {
    /** The value, or `default` when there is none (JavaScript's `??`). */
    function GetOr(default: T): T {
      match this
      case Some(v) => v
      case None => default
    }
  }

  /** A card. `createdAt` stands for the creation timestamp as an opaque number. */
  datatype Card = Card(id: string, title: string, description: Option<string>, createdAt: int)

  /** A column: its cards in on-screen top-to-bottom order. */
  datatype Column = Column(id: string, title: string, cards: seq<Card>)

  /** The board: its columns in display order. */
  datatype Board = Board(columns: seq<Column>)

  /** The card being dragged and where it came from. */
  datatype DragItem = DragItem(cardId: string, sourceColumnId: string, sourceIndex: nat)

  /** A call into the board store, one constructor per store operation. */
  datatype StoreCall =
    | AddCardCall(columnId: string, title: string)
    | DeleteCardCall(columnId: string, cardId: string)
    | EditCardCall(columnId: string, cardId: string, newTitle: string)
    | MoveCardCall(sourceColumnId: string, targetColumnId: string, cardId: string, targetIndex: nat)

  /** What a column hands to the board's drop handler: the column and the index. */
  datatype DropTarget = DropTarget(columnId: string, index: nat)
}
