/** The components wired together: the drop index a column computes, the move
    the board view issues for it, and the board the store makes of it. */
module Interaction {
  import opened KanbanTypes
  import opened CardSeq
  import opened BoardStore
  import opened ColumnComponent
  import opened KanbanBoardComponent
  import opened CardComponent
  import KanbanContext

  /** The board after a component's store call, if it issued one. */
  function Commit(b: Board, call: Option<StoreCall>, newId: string, createdAt: int): Board {
    match call
    case None => b
    case Some(c) => Apply(b, c, newId, createdAt)
  }

  /** The drag item names the card at its source index in column `si`, as the
      column hands it to each card it renders. */
  predicate DraggedFrom(b: Board, item: DragItem, si: nat) {
    si < |b.columns| && b.columns[si].id == item.sourceColumnId &&
    item.sourceIndex < |b.columns[si].cards| &&
    b.columns[si].cards[item.sourceIndex].id == item.cardId
  }

  /** The board view's same-position filter only saves a store call: the store
      itself leaves the board alone for a move onto the card's own index. */
  lemma DropFilterIsOptimization(b: Board, item: DragItem, si: nat, targetColumnId: string, targetIndex: nat,
                                 newId: string, createdAt: int)
    requires WellFormed(b) && DraggedFrom(b, item, si)
    ensures Commit(b, DropRequest(Some(item), targetColumnId, targetIndex), newId, createdAt)
         == MoveCard(b, item.sourceColumnId, targetColumnId, item.cardId, targetIndex)
  {
    if item.sourceColumnId == targetColumnId && item.sourceIndex == targetIndex {
      MoveCardToOwnIndex(b, si, item.sourceIndex);
    }
  }

  /** Dropping a card back into its own column: it lands immediately before
      the card whose midpoint the pointer was above (at the end when the
      pointer is below every card), the other cards keep their order, and no
      other column changes. */
  lemma SameColumnDropLandsBeforePointedCard(b: Board, item: DragItem, si: nat, mids: seq<int>, pointerY: int,
                                             newId: string, createdAt: int)
    requires WellFormed(b) && DraggedFrom(b, item, si) && |mids| == |b.columns[si].cards|
    ensures var cards, s := b.columns[si].cards, item.sourceIndex;
      var raw := FirstBelow(mids, pointerY);
      var idx := DropIndex(item, item.sourceColumnId, mids, pointerY);
      var r := Commit(b, DropRequest(Some(item), item.sourceColumnId, idx), newId, createdAt);
      |r.columns| == |b.columns| &&
      r.columns == b.columns[si := b.columns[si].(cards := r.columns[si].cards)] &&
      var moved := r.columns[si].cards;
      |moved| == |cards| && idx < |cards| && moved[idx] == cards[s] &&
      moved[..idx] + moved[idx + 1..] == cards[..s] + cards[s + 1..] &&
      (raw < |cards| && raw != s ==> idx + 1 < |cards| && moved[idx + 1] == cards[raw]) &&
      (raw == |cards| ==> idx == |cards| - 1)
  {
    var c := b.columns[si];
    var cards, s := c.cards, item.sourceIndex;
    var raw := FirstBelow(mids, pointerY);
    var idx := DropIndex(item, item.sourceColumnId, mids, pointerY);
    assert idx == if s < raw then raw - 1 else raw;
    var rest := cards[..s] + cards[s + 1..];
    DropFilterIsOptimization(b, item, si, c.id, idx, newId, createdAt);
    MoveCardWithin(b, si, s, idx);
    assert Min(idx, |rest|) == idx;
    ReinsertBefore(cards, s, raw, idx, Splice(rest, idx, cards[s]));
  }

  /** Dropping a card into another column: it lands immediately before the
      card whose midpoint the pointer was above there (at the end when the
      pointer is below every card), and it leaves its source column. */
  lemma CrossColumnDropLandsBeforePointedCard(b: Board, item: DragItem, si: nat, ti: nat,
                                              mids: seq<int>, pointerY: int, newId: string, createdAt: int)
    requires WellFormed(b) && DraggedFrom(b, item, si)
    requires ti < |b.columns| && ti != si && |mids| == |b.columns[ti].cards|
    ensures var src, tgt := b.columns[si], b.columns[ti];
      var raw := FirstBelow(mids, pointerY);
      var idx := DropIndex(item, tgt.id, mids, pointerY);
      var r := Commit(b, DropRequest(Some(item), tgt.id, idx), newId, createdAt);
      var k := item.sourceIndex;
      idx == raw && |r.columns| == |b.columns| &&
      r.columns[si] == src.(cards := src.cards[..k] + src.cards[k + 1..]) &&
      (forall i :: 0 <= i < |b.columns| && i != si && i != ti ==> r.columns[i] == b.columns[i]) &&
      var landed := r.columns[ti].cards;
      r.columns[ti] == tgt.(cards := landed) &&
      |landed| == |tgt.cards| + 1 && landed[idx] == src.cards[k] &&
      landed[..idx] + landed[idx + 1..] == tgt.cards &&
      (raw < |tgt.cards| ==> landed[idx + 1] == tgt.cards[raw]) &&
      (raw == |tgt.cards| ==> idx == |landed| - 1)
  {
    var src, tgt, k := b.columns[si], b.columns[ti], item.sourceIndex;
    assert tgt.id != src.id;
    var idx := DropIndex(item, tgt.id, mids, pointerY);
    assert idx == FirstBelow(mids, pointerY);
    DropFilterIsOptimization(b, item, si, tgt.id, idx, newId, createdAt);
    MoveCardAcross(b, si, k, ti, idx);
    AcrossFacts(b.columns, si, k, ti, idx);
  }

  /** The columns after a move across: the source without position `k`, the
      target with the card spliced in at `idx`, which is immediately before
      the target's card `idx`, or last. */
  lemma AcrossFacts(columns: seq<Column>, si: nat, k: nat, ti: nat, idx: nat)
    requires si < |columns| && ti < |columns| && si != ti
    requires k < |columns[si].cards| && idx <= |columns[ti].cards|
    ensures var src, tgt := columns[si], columns[ti];
      var landed := Splice(tgt.cards, idx, src.cards[k]);
      var r := columns[si := src.(cards := src.cards[..k] + src.cards[k + 1..])][ti := tgt.(cards := landed)];
      |r| == |columns| &&
      r[si] == src.(cards := src.cards[..k] + src.cards[k + 1..]) &&
      (forall i :: 0 <= i < |columns| && i != si && i != ti ==> r[i] == columns[i]) &&
      r[ti] == tgt.(cards := landed) &&
      |landed| == |tgt.cards| + 1 && landed[idx] == src.cards[k] &&
      landed[..idx] + landed[idx + 1..] == tgt.cards &&
      (idx < |tgt.cards| ==> landed[idx + 1] == tgt.cards[idx]) &&
      (idx == |tgt.cards| ==> idx == |landed| - 1)
  {
    SpliceAt(columns[ti].cards, idx, columns[si].cards[k]);
  }

  /** Saving an edit that only adds surrounding whitespace to the title, or
      changes nothing, leaves the board as it is (the store is called with the
      same trimmed title in the first case and not at all in the second). */
  lemma SaveOfPaddedTitleChangesNothing(b: Board, card: Card, columnId: string, editValue: string,
                                        newId: string, createdAt: int)
    requires WellFormed(b)
    requires forall i, k ::
      0 <= i < |b.columns| && b.columns[i].id == columnId &&
      0 <= k < |b.columns[i].cards| && b.columns[i].cards[k].id == card.id
      ==> b.columns[i].cards[k] == card
    requires TextInput.Trim(editValue) == card.title
    ensures Commit(b, SaveRequest(card, columnId, editValue), newId, createdAt) == b
  {
    var call := SaveRequest(card, columnId, editValue);
    if call.Some? {
      EditCardSameTitleNoop(b, columnId, card.id, card.title);
    }
  }

  /** Column `[A, B, C, D]` with card midpoints at 10, 20, 30 and 40: dragging
      A and dropping it with the pointer at 25 (above C's midpoint) gives
      `[B, A, C, D]`. */
  lemma DragAndDropExample()
    ensures var a, cardB, c, d := ExampleCard("A"), ExampleCard("B"), ExampleCard("C"), ExampleCard("D");
      var b := Board([Column("todo", "Todo", [a, cardB, c, d])]);
      var item := DragItemOf(a, "todo", 0);
      var idx := DropIndex(item, "todo", [10, 20, 30, 40], 25);
      idx == 1 &&
      Commit(b, DropRequest(Some(item), "todo", idx), "", 0)
        == Board([Column("todo", "Todo", [cardB, a, c, d])])
  {
    var a := ExampleCard("A");
    var item := DragItemOf(a, "todo", 0);
    ExampleDropIndex(item);
    assert DropRequest(Some(item), "todo", 1) == Some(MoveCardCall("todo", "todo", "A", 1));
    AdjacentMoveExample();
  }

  lemma ExampleDropIndex(item: DragItem)
    requires item.sourceColumnId == "todo" && item.sourceIndex == 0
    ensures DropIndex(item, "todo", [10, 20, 30, 40], 25) == 1
  {
    var mids: seq<int> := [10, 20, 30, 40];
    assert mids[1..] == [20, 30, 40];
    assert mids[1..][1..] == [30, 40];
    assert FirstBelow(mids, 25) == 2;
  }

  /** One complete gesture: the drag starts on the card at `index` of column
      `si`, the pointer moves over column `ti` (whose card midpoints are
      `mids`), the card is dropped there and the drag ends. The store ends
      up with the move of the hovered drop index, and the drag session and
      the column's drop index are cleared. */
  method DragAndDrop(provider: KanbanContext.KanbanProvider, boardView: BoardView, columnView: ColumnView,
                     si: nat, index: nat, ti: nat, mids: seq<int>, pointerY: int)
    requires provider.Valid()
    requires si < |provider.board.columns| && index < |provider.board.columns[si].cards|
    requires ti < |provider.board.columns|
    modifies provider, boardView, columnView
    ensures provider.Valid()
    ensures var b := old(provider.board);
      var item := DragItemOf(b.columns[si].cards[index], b.columns[si].id, index);
      var idx := DropIndex(item, b.columns[ti].id, mids, pointerY);
      provider.board == Commit(b, DropRequest(Some(item), b.columns[ti].id, idx), "", 0)
    ensures boardView.dragItem == None && columnView.dropIndex == None
  {
    var b := provider.board;
    var card, source, target := b.columns[si].cards[index], b.columns[si], b.columns[ti];
    var cardView := new CardView(card);
    var item := cardView.HandleDragStart(card, source.id, index);
    boardView.HandleDragStart(item);
    columnView.HandleDragOver(boardView.dragItem, target, Some(mids), pointerY);
    var drop := columnView.HandleDrop(boardView.dragItem, target);
    var call := boardView.HandleDrop(drop.value.columnId, drop.value.index);
    if call.Some? {
      var m := call.value;
      provider.MoveCard(m.sourceColumnId, m.targetColumnId, m.cardId, m.targetIndex);
    }
    boardView.HandleDragEnd();
  }
}
