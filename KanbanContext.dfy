/** The provider that owns the one mutable board: it starts from the seed
    board and every operation replaces the board by the store's transition
    of it. The object invariant is the board invariant. */
module KanbanContext {
  import opened KanbanTypes
  import BoardStore
  import MockData

  class KanbanProvider {
    var board: Board

    ghost predicate Valid()
      reads this
    {
      BoardStore.WellFormed(board)
    }

    constructor ()
      ensures board == MockData.InitialBoard() && Valid()
    {
      board := MockData.InitialBoard();
      MockData.InitialBoardWellFormed();
    }

    /** `addCard`; `newId` is the generated id, fresh on the board. */
    method AddCard(columnId: string, title: string, newId: string, createdAt: int)
      requires Valid() && newId !in BoardStore.BoardIds(board.columns)
      modifies this
      ensures Valid()
      ensures board == BoardStore.AddCard(old(board), columnId, title, newId, createdAt)
    {
      BoardStore.ApplyKeepsWellFormed(board, AddCardCall(columnId, title), newId, createdAt);
      board := BoardStore.AddCard(board, columnId, title, newId, createdAt);
    }

    method DeleteCard(columnId: string, cardId: string)
      requires Valid()
      modifies this
      ensures Valid()
      ensures board == BoardStore.DeleteCard(old(board), columnId, cardId)
    {
      BoardStore.DeleteCardKeepsWellFormed(board, columnId, cardId);
      board := BoardStore.DeleteCard(board, columnId, cardId);
    }

    method EditCard(columnId: string, cardId: string, newTitle: string)
      requires Valid()
      modifies this
      ensures Valid()
      ensures board == BoardStore.EditCard(old(board), columnId, cardId, newTitle)
    {
      BoardStore.EditCardKeepsIds(board, columnId, cardId, newTitle);
      board := BoardStore.EditCard(board, columnId, cardId, newTitle);
    }

    method MoveCard(sourceColumnId: string, targetColumnId: string, cardId: string, targetIndex: nat)
      requires Valid()
      modifies this
      ensures Valid()
      ensures board == BoardStore.MoveCard(old(board), sourceColumnId, targetColumnId, cardId, targetIndex)
    {
      BoardStore.MoveCardKeepsWellFormed(board, sourceColumnId, targetColumnId, cardId, targetIndex);
      board := BoardStore.MoveCard(board, sourceColumnId, targetColumnId, cardId, targetIndex);
    }
  }
}
