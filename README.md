# Kanban board: board store and drag-and-drop, modelled in Dafny

The project models a single-page kanban board. The board is a sequence of
columns, and each column holds a sequence of cards. One provider owns the
board, and four store operations replace it: `addCard`, `deleteCard`,
`editCard` and `moveCard`. Three components issue those operations:

- **The column** runs the add-card form. While a card is dragged over it, it
  also computes a drop index from the vertical midpoints of its cards and
  the pointer position, and on drop it reports that index.
- **The board view** keeps the drag item from drag start to drag end. It
  turns a drop into a `moveCard` call, unless the drop is onto the card's
  own position.
- **The card** edits its title inline, deletes itself, and hands over its
  drag item when a drag starts.

How the source maps to the files:

- The store transitions are pure functions over a `Board` value
  (`BoardStore.dfy`). Their sequence building blocks (`find`, `filter`,
  `splice`) are in `CardSeq.dfy`.
- The provider's one mutable board is a class field that each method
  replaces (`KanbanContext.dfy`). The seed board is `MockData.dfy`.
- Each component's React state cells are fields of a class (`Column.dfy`,
  `Card.dfy`, `KanbanBoard.dfy`).
  - A handler that calls into the store returns that call as a `StoreCall`
    value.
  - A column's drop is returned as a `DropTarget`.
  - `Interaction.dfy` composes the component requests with the store.
- The whitespace trimming both input forms rely on is `TextInput.dfy`.

The board invariant `BoardStore.WellFormed` says two things: column ids are
distinct, and every card id occurs exactly once on the board. The seed board
satisfies it, and every store call preserves it, provided the id `addCard`
generates is fresh. On a well-formed board, a move between two existing
columns keeps the multiset of card ids, and a move onto the card's own index
is the identity.

## Model

| member | source | states |
|---|---|---|
| TextInput.Trim | src/components/KanbanBoard/Column.tsx:34-35 | `trim()`: the result is a slice of the input, everything outside it is whitespace, and it neither starts nor ends with whitespace |
| TextInput.TrimEmptyIff | src/components/KanbanBoard/Column.tsx:34 | the guard `if (title.trim())` fails exactly when the text is whitespace only |
| TextInput.TrimIdempotent | src/components/KanbanBoard/Column.tsx:35 | trimming the already-trimmed title again changes nothing |
| CardSeq.FirstIndexOf | src/context/KanbanContext.tsx:80-81 | `columns.find` and `cards.find` by id, over the column ids or the card ids: the index of the first element with that id, or none when no element has it |
| CardSeq.FilterOut | src/context/KanbanContext.tsx:49 | `filter(card => card.id !== cardId)` keeps exactly the cards with another id, and never grows the sequence |
| CardSeq.FilterOutCount | src/context/KanbanContext.tsx:91 | filtering by id removes every occurrence of that id and keeps every other id's count |
| CardSeq.FilterOutUniqueAt | src/context/KanbanContext.tsx:91 | with unique ids, filtering out the id of the card at `k` removes exactly position `k`, and the rest keep their order |
| CardSeq.Splice | src/context/KanbanContext.tsx:108 | `splice(i, 0, x)` with `i >= 0`: one element longer, `x` at `min(i, len)`, and the old sequence around it |
| CardSeq.ReinsertBefore | src/components/KanbanBoard/Column.tsx:76-78 | taking an element out and splicing it back at the adjusted index puts it right before the element that was at the raw index, or last, with the others in order |
| CardSeq.SpliceRemoved | src/context/KanbanContext.tsx:104-108 | splicing a removed element back at its old index restores the sequence |
| BoardStore.AddCard | src/context/KanbanContext.tsx:27-42 | the matching columns get the new card (given id, title and timestamp, no description) appended at the end; other columns and all column ids and titles are unchanged |
| BoardStore.AddCardUnknownColumn | src/context/KanbanContext.tsx:36-40 | `addCard` to a column id that matches no column leaves the board as it is |
| BoardStore.AddCardKeepsWellFormed | src/context/KanbanContext.tsx:34-41 | with a fresh id, the board gains exactly that one id and stays well formed |
| BoardStore.DeleteCardUndoesAddCard | src/context/KanbanContext.tsx:27-53 | deleting the card that `addCard` just added, with a fresh id, gives back the previous board |
| BoardStore.RemoveFromColumns | src/context/KanbanContext.tsx:86-95 | the first pass of `moveCard` (and the body of `deleteCard`): the columns keep their ids and titles, a column with the source id keeps exactly its cards of another id, and every other column is unchanged |
| BoardStore.DeleteCard | src/context/KanbanContext.tsx:44-53 | a matching column keeps exactly its cards of another id; other columns and the column ids and titles are unchanged |
| BoardStore.DeleteCardAbsentNoop | src/context/KanbanContext.tsx:47-51 | deleting an id that the named column does not hold leaves the board as it is |
| BoardStore.DeleteCardKeepsOrder | src/context/KanbanContext.tsx:49 | on a well-formed board, deleting the card at `k` leaves the other cards of its column in their order |
| BoardStore.DeleteCardKeepsWellFormed | src/context/KanbanContext.tsx:44-53 | the board stays well formed, and the count of every other card id is unchanged |
| BoardStore.Retitle | src/context/KanbanContext.tsx:62-64 | the inner `cards.map` of `editCard`: same length, a card with the id is the same card with the new title, and every other card is unchanged |
| BoardStore.EditCard | src/context/KanbanContext.tsx:55-69 | only the title of the matching cards in the matching columns becomes `newTitle`; ids, order, descriptions, timestamps and other columns are unchanged, and the title is not checked |
| BoardStore.EditCardKeepsIds | src/context/KanbanContext.tsx:58-67 | every card id stays where it was, so a well-formed board stays well formed |
| BoardStore.EditCardSameTitleNoop | src/context/KanbanContext.tsx:62-64 | setting the title a card already has leaves the board as it is |
| BoardStore.InsertIntoColumns | src/context/KanbanContext.tsx:100-112 | the second pass of `moveCard`: the columns keep their ids and titles, every column without the target id is unchanged, and in a column with it the card sits at `min(targetIndex, length)` with the column's other cards in their order around it, whether or not the same-column `Math.min` applied |
| BoardStore.MoveCard | src/context/KanbanContext.tsx:71-117 | the columns keep their number, ids and titles |
| BoardStore.MoveCardNoSourceCard | src/context/KanbanContext.tsx:80-83 | when no column with the source id holds the card, the board is returned as it is |
| BoardStore.MoveCardAcross | src/context/KanbanContext.tsx:86-112 | between two columns: the source loses exactly the card's position; the target gets the card at `min(targetIndex, len)`; every other column is unchanged |
| BoardStore.MoveCardWithin | src/context/KanbanContext.tsx:104-108 | within one column: the card is taken out and put back at `min(targetIndex, len - 1)`; the other columns are unchanged |
| BoardStore.MoveCardToOwnIndex | src/context/KanbanContext.tsx:104-108 | moving a card to the index it already has leaves the board as it is |
| BoardStore.MoveCardToMissingColumn | src/context/KanbanContext.tsx:86-112 | when the target column is missing, the card is removed and never put back: the board loses exactly that id and stays well formed |
| BoardStore.MoveCardConservesCards | src/context/KanbanContext.tsx:86-112 | when both columns exist, the multiset of card ids is unchanged and the board stays well formed |
| BoardStore.MoveCardKeepsWellFormed | src/context/KanbanContext.tsx:71-117 | for any arguments, a move keeps a well-formed board well formed |
| BoardStore.ApplyKeepsWellFormed | src/context/KanbanContext.tsx:27-117 | each of the four store operations keeps the board invariant, given a fresh id for `addCard` |
| BoardStore.SameColumnMoveExample | src/context/KanbanContext.tsx:104-108 | `[A, B, C, D]`: moving A to 3 gives `[B, C, D, A]` |
| BoardStore.AdjacentMoveExample | src/context/KanbanContext.tsx:104-108 | `[A, B, C, D]`: moving A to 1 gives `[B, A, C, D]` |
| BoardStore.CrossColumnMoveExample | src/context/KanbanContext.tsx:86-112 | `[A, B, C]`, `[X, Y]`: moving B to 0 gives `[A, C]`, `[B, X, Y]` |
| MockData.InitialBoardWellFormed | src/data/mockData.ts:3-59 | the seed board of seven cards in three columns satisfies the board invariant |
| KanbanContext.KanbanProvider.constructor | src/context/KanbanContext.tsx:25 | the board starts as the seed board, which is well formed |
| KanbanContext.KanbanProvider.AddCard | src/context/KanbanContext.tsx:27-42 | the board becomes `addCard` of the old board, and stays well formed |
| KanbanContext.KanbanProvider.DeleteCard | src/context/KanbanContext.tsx:44-53 | the board becomes `deleteCard` of the old board, and stays well formed |
| KanbanContext.KanbanProvider.EditCard | src/context/KanbanContext.tsx:55-69 | the board becomes `editCard` of the old board, and stays well formed |
| KanbanContext.KanbanProvider.MoveCard | src/context/KanbanContext.tsx:71-117 | the board becomes `moveCard` of the old board, and stays well formed |
| ColumnComponent.FirstBelow | src/components/KanbanBoard/Column.tsx:62-73 | the raw drop index is the least `i` with `pointerY < mids[i]`, or the number of cards when there is none |
| ColumnComponent.ScanDropIndex | src/components/KanbanBoard/Column.tsx:62-73 | the `for` loop with `break` computes exactly that least index |
| ColumnComponent.AdjustDropIndex | src/components/KanbanBoard/Column.tsx:76-78 | the index is lowered by one exactly when the card comes from this column at a position before the raw index; otherwise it is kept |
| ColumnComponent.DropIndex | src/components/KanbanBoard/Column.tsx:62-78 | the index `handleDragOver` stores: over another column it is the scan's raw index; over the card's own column it is one less exactly when the card sits above the raw index, and the raw index otherwise |
| ColumnComponent.DropIndexInRange | src/components/KanbanBoard/Column.tsx:62-78 | the adjusted drop index lies in `[0, number of cards]` |
| ColumnComponent.EmptyColumnDropIndex | src/components/KanbanBoard/Column.tsx:62 | over an empty column the drop index is 0 before and after adjustment |
| ColumnComponent.SameColumnAdjustExample | src/components/KanbanBoard/Column.tsx:76-78 | from source index 2, a raw index of 4 becomes 3 |
| ColumnComponent.AddCardRequest | src/components/KanbanBoard/Column.tsx:33-39 | `addCard` is called exactly when the title is not whitespace only, with the trimmed, non-empty title |
| ColumnComponent.ColumnView.constructor | src/components/KanbanBoard/Column.tsx:22-24 | the form is closed, the input is empty and there is no drop index |
| ColumnComponent.ColumnView.OpenAddForm | src/components/KanbanBoard/Column.tsx:173 | the "Add a card" button opens the form |
| ColumnComponent.ColumnView.SetNewCardTitle | src/components/KanbanBoard/Column.tsx:153 | typing replaces the input text |
| ColumnComponent.ColumnView.HandleAddCard | src/components/KanbanBoard/Column.tsx:33-39 | with text, the trimmed title is added, and the input is cleared and the form closed; with a whitespace-only title nothing changes |
| ColumnComponent.ColumnView.HandleKeyDown | src/components/KanbanBoard/Column.tsx:41-49 | Enter without Shift submits; Escape closes and clears the form without adding; other keys change nothing |
| ColumnComponent.ColumnView.CancelAddForm | src/components/KanbanBoard/Column.tsx:163-166 | Cancel closes and clears the form |
| ColumnComponent.ColumnView.HandleDragOver | src/components/KanbanBoard/Column.tsx:51-81 | with no drag item, or no cards container, the drop index is unchanged; otherwise it becomes the adjusted index for the pointer |
| ColumnComponent.ColumnView.HandleDragLeave | src/components/KanbanBoard/Column.tsx:83-85 | the drop index is reset to none |
| ColumnComponent.ColumnView.HandleDrop | src/components/KanbanBoard/Column.tsx:87-94 | with no drag item there is no drop; otherwise the column reports its id and the drop index, or its card count when there is none, and resets the index |
| KanbanBoardComponent.DropRequest | src/components/KanbanBoard/KanbanBoard.tsx:31-51 | no move without a drag item or onto the card's own position; otherwise exactly `moveCard(sourceColumnId, targetColumnId, cardId, targetIndex)` |
| KanbanBoardComponent.BoardView.constructor | src/components/KanbanBoard/KanbanBoard.tsx:9 | no drag is active at first |
| KanbanBoardComponent.BoardView.HandleDragStart | src/components/KanbanBoard/KanbanBoard.tsx:11-12 | the given item becomes the active drag item |
| KanbanBoardComponent.BoardView.HandleDragEnd | src/components/KanbanBoard/KanbanBoard.tsx:23-24 | there is no active drag item any more, whether or not a drop happened |
| KanbanBoardComponent.BoardView.HandleDrop | src/components/KanbanBoard/KanbanBoard.tsx:31-51 | issues the drop's move, if any, and changes no state |
| CardComponent.SaveRequest | src/components/KanbanBoard/Card.tsx:37-42 | `editCard` is called exactly when the edit text is not whitespace only and, untrimmed, differs from the title; the call carries the trimmed, non-empty text |
| CardComponent.DragItemOf | src/components/KanbanBoard/Card.tsx:59-65 | the drag item is the card's id, its column id and its index |
| CardComponent.CardView.Draggable | src/components/KanbanBoard/Card.tsx:70 | `draggable={!isEditing}`: a card can be dragged exactly when it is not being edited; the handlers' contracts say which of them turn this off and back on |
| CardComponent.CardView.constructor | src/components/KanbanBoard/Card.tsx:21-22 | not editing, so the card is draggable, and the edit text is the title |
| CardComponent.CardView.HandleDoubleClick | src/components/KanbanBoard/Card.tsx:32-35 | enters edit mode with the current title, so the card is no longer draggable |
| CardComponent.CardView.HandleEditClick | src/components/KanbanBoard/Card.tsx:93-97 | enters edit mode with the current title, so the card is no longer draggable |
| CardComponent.CardView.SetEditValue | src/components/KanbanBoard/Card.tsx:80 | typing replaces the edit text |
| CardComponent.CardView.HandleSave | src/components/KanbanBoard/Card.tsx:37-42 | issues the edit, if any, and always leaves edit mode, so the card is draggable again |
| CardComponent.CardView.HandleKeyDown | src/components/KanbanBoard/Card.tsx:44-52 | Enter without Shift saves; Escape leaves edit mode and restores the title without an edit; other keys change nothing |
| CardComponent.CardView.HandleDelete | src/components/KanbanBoard/Card.tsx:54-57 | issues `deleteCard(columnId, card.id)` |
| CardComponent.CardView.HandleDragStart | src/components/KanbanBoard/Card.tsx:59-65 | hands over the card's drag item |
| Interaction.DropFilterIsOptimization | src/components/KanbanBoard/KanbanBoard.tsx:36-41 | skipping a drop onto the card's own position gives the same board as calling `moveCard` for it |
| Interaction.SameColumnDropLandsBeforePointedCard | src/components/KanbanBoard/Column.tsx:62-78 | within its own column the card lands right before the card whose midpoint is below the pointer, or last; the other cards keep their order and no other column changes |
| Interaction.CrossColumnDropLandsBeforePointedCard | src/components/KanbanBoard/Column.tsx:62-80 | in another column the card lands right before the card whose midpoint is below the pointer, or last; the source column loses exactly that card |
| Interaction.SaveOfPaddedTitleChangesNothing | src/components/KanbanBoard/Card.tsx:38-39 | saving the title with only whitespace added around it, or unchanged, leaves the board as it is |
| Interaction.DragAndDropExample | src/components/KanbanBoard/Column.tsx:51-94 | midpoints 10, 20, 30, 40 and the pointer at 25: dragging A out of `[A, B, C, D]` gives `[B, A, C, D]` |
| Interaction.DragAndDrop | src/components/KanbanBoard/KanbanBoard.tsx:11-51 | drag start, drag over, drop and drag end together amount to the store's move for the hovered drop index; both drag cells end cleared |

## Left out

- Rendering, CSS, `getColumnHeaderColor` and the drop-placeholder conditions are presentational (`Column.tsx:96-143`).
- DOM queries and the card rectangles are not modelled. The column's card midpoints arrive as a `seq<int>`, top to bottom, one per rendered `.kanban-card`. A missing cards container is `None`.
- `setTimeout`, `classList` and `dataTransfer` in the board view are browser side effects (`KanbanBoard.tsx:13-20, 26-28`).
- `preventDefault`, `stopPropagation` and the `useEffect` focus handling have no effect on state.
- `generateId` (`Date.now`, `Math.random`) and `new Date()` are not modelled. The new card's id is a parameter, and transitions that need an invariant require it to be fresh. `createdAt` is an opaque `int`.
- The React context, `useKanban` with its throw, `useCallback` and App wiring are plumbing.
- Each `setBoard` updater runs on the current board. No two updates are modelled as racing.
- TextInput.Trim: whitespace is space, tab, line feed, vertical tab, form feed and carriage return. It is not JavaScript's full Unicode whitespace set.
- CardSeq.Splice: covers `splice` only for non-negative indices, which are the only ones the components produce.
- BoardStore.DeleteCardKeepsOrder: relative order after a delete is stated for a well-formed board, where the deleted id occurs once. Without that, `DeleteCard` is only characterized by which cards remain.
- BoardStore.MoveCard: its own contract states only that the column shape is kept. What a move does is stated by `MoveCardNoSourceCard`, `MoveCardAcross`, `MoveCardWithin` and `MoveCardToMissingColumn`, on a well-formed board.
- Interaction.DragAndDrop: the drag item comes from the card's own handler. A stale drag item that no longer names the card at its index is not modelled.

Validation and trimming happen in the components, not in the store:

- The store does no title validation. The non-empty check and the "title changed" check are in the card's save handler. That handler compares the untrimmed edit text with the title but saves the trimmed text.
- Trimming the new card's title happens in the column's add handler, not in `addCard`.
- A move whose target column id matches no column removes the card from the board.
