/** The four state transitions of the board store: each takes the previous
    board and returns the next one. The card id and the timestamp that
    `addCard` generates are parameters. */
module BoardStore {
  import opened KanbanTypes
  import opened CardSeq

  /** The ids of every card on the board, column by column. */
  function BoardIds(columns: seq<Column>): seq<string> {
    if |columns| == 0 then [] else Ids(columns[0].cards) + BoardIds(columns[1..])
  }

  predicate DistinctColumnIds(columns: seq<Column>) {
    forall i, j :: 0 <= i < j < |columns| ==> columns[i].id != columns[j].id
  }

  /** The board invariant: columns have distinct ids, and every card id occurs
      exactly once on the whole board. */
  predicate WellFormed(b: Board) {
    DistinctColumnIds(b.columns) && NoDuplicates(BoardIds(b.columns))
  }

  /** The same columns, with the same ids and titles, in the same order. */
  predicate SameShape(b: Board, r: Board) {
    |r.columns| == |b.columns| &&
    forall i :: 0 <= i < |b.columns| ==>
      r.columns[i].id == b.columns[i].id && r.columns[i].title == b.columns[i].title
  }

  // ---------------------------------------------------------------------------
  // The transitions

  /** `addCard`: a card with the given id, title and timestamp and no
      description goes at the end of every column with id `columnId`. */
  function AddCard(b: Board, columnId: string, title: string, newId: string, createdAt: int): (r: Board)
    ensures SameShape(b, r)
    ensures forall i :: 0 <= i < |b.columns| && b.columns[i].id != columnId ==>
      r.columns[i] == b.columns[i]
    ensures forall i :: 0 <= i < |b.columns| && b.columns[i].id == columnId ==>
      var cards := r.columns[i].cards;
      |cards| == |b.columns[i].cards| + 1 &&
      cards[..|cards| - 1] == b.columns[i].cards &&
      cards[|cards| - 1] == Card(newId, title, None, createdAt)
  {
    var newCard := Card(newId, title, None, createdAt);
    Board(seq(|b.columns|, i requires 0 <= i < |b.columns| =>
      var c := b.columns[i];
      if c.id == columnId then c.(cards := c.cards + [newCard]) else c))
  }

  /** `deleteCard`: every card with id `cardId` leaves the columns with id
      `columnId`; the cards that remain there are exactly the others. */
  function DeleteCard(b: Board, columnId: string, cardId: string): (r: Board)
    ensures SameShape(b, r)
    ensures forall i :: 0 <= i < |b.columns| && b.columns[i].id != columnId ==>
      r.columns[i] == b.columns[i]
    ensures forall i, c :: 0 <= i < |b.columns| && b.columns[i].id == columnId ==>
      (c in r.columns[i].cards <==> c in b.columns[i].cards && c.id != cardId)
  {
    Board(RemoveFromColumns(b.columns, columnId, cardId))
  }

  /** `editCard`: in the columns with id `columnId`, the cards with id `cardId`
      get the title `newTitle`; nothing else about any card changes, and the
      title is not checked. */
  function EditCard(b: Board, columnId: string, cardId: string, newTitle: string): (r: Board)
    ensures SameShape(b, r)
    ensures forall i :: 0 <= i < |b.columns| && b.columns[i].id != columnId ==>
      r.columns[i] == b.columns[i]
    ensures forall i :: 0 <= i < |b.columns| ==> |r.columns[i].cards| == |b.columns[i].cards|
    ensures forall i, k :: 0 <= i < |b.columns| && 0 <= k < |b.columns[i].cards| ==>
      var was, now := b.columns[i].cards[k], r.columns[i].cards[k];
      now.id == was.id && now.description == was.description && now.createdAt == was.createdAt &&
      now.title == (if b.columns[i].id == columnId && was.id == cardId then newTitle else was.title)
  {
    Board(seq(|b.columns|, i requires 0 <= i < |b.columns| =>
      var c := b.columns[i];
      if c.id == columnId then c.(cards := Retitle(c.cards, cardId, newTitle)) else c))
  }

  /** The inner `cards.map` of `editCard`: the cards with id `cardId` take the
      new title, in place; every other card, and every other field, stays. */
  function Retitle(cards: seq<Card>, cardId: string, newTitle: string): (r: seq<Card>)
    ensures |r| == |cards|
    ensures forall k :: 0 <= k < |cards| && cards[k].id != cardId ==> r[k] == cards[k]
    ensures forall k :: 0 <= k < |cards| && cards[k].id == cardId ==>
      r[k] == cards[k].(title := newTitle)
  {
    seq(|cards|, k requires 0 <= k < |cards| =>
      if cards[k].id == cardId then cards[k].(title := newTitle) else cards[k])
  }

  /** The first pass of `moveCard`, and all of `deleteCard`: the card leaves
      every column with id `sourceColumnId`. */
  function RemoveFromColumns(columns: seq<Column>, sourceColumnId: string, cardId: string): (r: seq<Column>)
    ensures |r| == |columns|
    ensures forall i :: 0 <= i < |columns| ==>
      r[i].id == columns[i].id && r[i].title == columns[i].title
    ensures forall i :: 0 <= i < |columns| && columns[i].id != sourceColumnId ==> r[i] == columns[i]
    ensures forall i, c :: 0 <= i < |columns| && columns[i].id == sourceColumnId ==>
      (c in r[i].cards <==> c in columns[i].cards && c.id != cardId)
  {
    seq(|columns|, i requires 0 <= i < |columns| =>
      var c := columns[i];
      if c.id == sourceColumnId then c.(cards := FilterOut(c.cards, cardId)) else c)
  }

  /** The second pass of `moveCard`: `card` is spliced into every column with
      id `targetColumnId`; within one column the index is first limited to the
      column's length. */
  function InsertIntoColumns(columns: seq<Column>, targetColumnId: string, card: Card,
                             targetIndex: nat, sameColumn: bool): (r: seq<Column>)
    ensures |r| == |columns|
    ensures forall i :: 0 <= i < |columns| ==>
      r[i].id == columns[i].id && r[i].title == columns[i].title
    ensures forall i :: 0 <= i < |columns| && columns[i].id != targetColumnId ==> r[i] == columns[i]
    // Whether or not the index is first limited, the card lands at
    // `min(targetIndex, length)` and the column's other cards keep their order.
    ensures forall i :: 0 <= i < |columns| && columns[i].id == targetColumnId ==>
      var p := Min(targetIndex, |columns[i].cards|);
      |r[i].cards| == |columns[i].cards| + 1 && r[i].cards[p] == card &&
      r[i].cards[..p] + r[i].cards[p + 1..] == columns[i].cards
  {
    seq(|columns|, i requires 0 <= i < |columns| =>
      var c := columns[i];
      if c.id == targetColumnId then
        var adjustedIndex := if sameColumn then Min(targetIndex, |c.cards|) else targetIndex;
        c.(cards := Splice(c.cards, adjustedIndex, card))
      else c)
  }

  /** `moveCard`: find the first column with id `sourceColumnId` and in it the
      first card with id `cardId`; if either is missing the board is returned
      as it is; otherwise remove the card from the source and splice it into
      the target. */
  function MoveCard(b: Board, sourceColumnId: string, targetColumnId: string,
                    cardId: string, targetIndex: nat): (r: Board)
    ensures SameShape(b, r)
  {
    match FirstIndexOf(ColumnIds(b.columns), sourceColumnId)
    case None => b
    case Some(si) =>
      match FirstIndexOf(Ids(b.columns[si].cards), cardId)
      case None => b
      case Some(k) =>
        var cardToMove := b.columns[si].cards[k];
        var newColumns := RemoveFromColumns(b.columns, sourceColumnId, cardId);
        Board(InsertIntoColumns(newColumns, targetColumnId, cardToMove, targetIndex,
                                sourceColumnId == targetColumnId))
  }

  /** A store call applied to a board; `newId` and `createdAt` are what
      `addCard` would generate. */
  function Apply(b: Board, call: StoreCall, newId: string, createdAt: int): Board {
    match call
    case AddCardCall(columnId, title) => AddCard(b, columnId, title, newId, createdAt)
    case DeleteCardCall(columnId, cardId) => DeleteCard(b, columnId, cardId)
    case EditCardCall(columnId, cardId, newTitle) => EditCard(b, columnId, cardId, newTitle)
    case MoveCardCall(src, tgt, cardId, targetIndex) => MoveCard(b, src, tgt, cardId, targetIndex)
  }

  // ---------------------------------------------------------------------------
  // The card-id multiset of a board

  lemma {:induction false} ColumnIdsInBoard(columns: seq<Column>, i: nat)
    requires i < |columns|
    ensures multiset(Ids(columns[i].cards)) <= multiset(BoardIds(columns))
  {
    if i > 0 {
      ColumnIdsInBoard(columns[1..], i - 1);
    }
  }

  lemma NoDuplicatesSub(xs: seq<string>, ys: seq<string>)
    requires NoDuplicates(xs) && multiset(ys) <= multiset(xs)
    ensures NoDuplicates(ys)
  {
    forall x | x in ys ensures multiset(ys)[x] == 1 {
      assert x in multiset(xs);
    }
  }

  lemma NoDuplicatesAdd(xs: seq<string>, ys: seq<string>, y: string)
    requires NoDuplicates(xs) && y !in xs && multiset(ys) == multiset(xs) + multiset{y}
    ensures NoDuplicates(ys)
  {
    forall x | x in ys ensures multiset(ys)[x] == 1 {
      assert x in multiset(ys);
      if x != y { assert x in multiset(xs); }
    }
  }

  lemma NoDuplicatesRemove(xs: seq<string>, ys: seq<string>, y: string)
    requires NoDuplicates(xs) && multiset(ys) + multiset{y} == multiset(xs)
    ensures NoDuplicates(ys)
  {
    forall x | x in ys ensures multiset(ys)[x] == 1 {
      assert multiset(xs)[x] == multiset(ys)[x] + multiset{y}[x];
      assert x in multiset(xs);
    }
  }

  /** Each column of a well-formed board has unique card ids. */
  lemma ColumnNoDuplicates(b: Board, i: nat)
    requires WellFormed(b) && i < |b.columns|
    ensures NoDuplicates(Ids(b.columns[i].cards))
  {
    ColumnIdsInBoard(b.columns, i);
    NoDuplicatesSub(BoardIds(b.columns), Ids(b.columns[i].cards));
  }

  // ---------------------------------------------------------------------------
  // addCard

  /** An unknown column id leaves the board as it is. */
  lemma AddCardUnknownColumn(b: Board, columnId: string, title: string, newId: string, createdAt: int)
    requires forall i :: 0 <= i < |b.columns| ==> b.columns[i].id != columnId
    ensures AddCard(b, columnId, title, newId, createdAt) == b
  {
    var r := AddCard(b, columnId, title, newId, createdAt);
    assert r.columns == b.columns;
  }

  /** With a fresh id, adding to an existing column adds exactly that id to the
      board, and the board stays well formed. */
  lemma AddCardKeepsWellFormed(b: Board, columnId: string, title: string, newId: string, createdAt: int, i: nat)
    requires WellFormed(b) && newId !in BoardIds(b.columns)
    requires i < |b.columns| && b.columns[i].id == columnId
    ensures multiset(BoardIds(AddCard(b, columnId, title, newId, createdAt).columns))
         == multiset(BoardIds(b.columns)) + multiset{newId}
    ensures WellFormed(AddCard(b, columnId, title, newId, createdAt))
  {
    var r := AddCard(b, columnId, title, newId, createdAt);
    var c := b.columns[i];
    var c' := c.(cards := c.cards + [Card(newId, title, None, createdAt)]);
    assert r.columns == b.columns[i := c'];
    IdsConcat(c.cards, [Card(newId, title, None, createdAt)]);
    assert multiset(Ids(c'.cards)) == multiset(Ids(c.cards)) + multiset{newId};
    ReplaceColumnIds(b.columns, i, c', multiset{newId}, multiset{});
    NoDuplicatesAdd(BoardIds(b.columns), BoardIds(r.columns), newId);
  }

  /** Deleting the card just added, by its fresh id, gives back the board. */
  lemma DeleteCardUndoesAddCard(b: Board, columnId: string, title: string, newId: string, createdAt: int)
    requires newId !in BoardIds(b.columns)
    ensures DeleteCard(AddCard(b, columnId, title, newId, createdAt), columnId, newId) == b
  {
    var a := AddCard(b, columnId, title, newId, createdAt);
    var r := DeleteCard(a, columnId, newId);
    forall i | 0 <= i < |b.columns| ensures r.columns[i] == b.columns[i] {
      if b.columns[i].id == columnId {
        var cards := b.columns[i].cards;
        var x := Card(newId, title, None, createdAt);
        NotInBoardNotInColumn(b.columns, i, newId);
        FilterOutConcat(cards, [x], newId);
        FilterOutAbsent(cards, newId);
        assert FilterOut([x], newId) == [] by { assert [x][1..] == []; }
        assert a.columns[i].cards == cards + [x];
      }
    }
    assert r.columns == b.columns;
  }

  lemma NotInBoardNotInColumn(columns: seq<Column>, i: nat, id: string)
    requires i < |columns| && id !in BoardIds(columns)
    ensures id !in Ids(columns[i].cards)
  {
    ColumnIdsInBoard(columns, i);
    assert multiset(BoardIds(columns))[id] == 0;
    assert multiset(Ids(columns[i].cards))[id] == 0;
  }

  // ---------------------------------------------------------------------------
  // deleteCard

  /** Deleting an id that the column does not hold leaves the board as it is. */
  lemma DeleteCardAbsentNoop(b: Board, columnId: string, cardId: string)
    requires forall i :: 0 <= i < |b.columns| && b.columns[i].id == columnId ==>
      cardId !in Ids(b.columns[i].cards)
    ensures DeleteCard(b, columnId, cardId) == b
  {
    var r := DeleteCard(b, columnId, cardId);
    forall i | 0 <= i < |b.columns| ensures r.columns[i] == b.columns[i] {
      if b.columns[i].id == columnId {
        FilterOutAbsent(b.columns[i].cards, cardId);
      }
    }
    assert r.columns == b.columns;
  }

  /** On a well-formed board, deleting the card at position `k` of column `i`
      removes exactly that position: the other cards keep their order. */
  lemma DeleteCardKeepsOrder(b: Board, i: nat, k: nat)
    requires WellFormed(b) && i < |b.columns| && k < |b.columns[i].cards|
    ensures var cards := b.columns[i].cards;
      DeleteCard(b, b.columns[i].id, cards[k].id).columns[i].cards == cards[..k] + cards[k + 1..]
  {
    ColumnNoDuplicates(b, i);
    FilterOutUniqueAt(b.columns[i].cards, k);
  }

  /** Deleting keeps the board well formed and removes no id other than `cardId`. */
  lemma DeleteCardKeepsWellFormed(b: Board, columnId: string, cardId: string)
    requires WellFormed(b)
    ensures var r := DeleteCard(b, columnId, cardId);
      WellFormed(r) &&
      forall x :: x != cardId ==> multiset(BoardIds(r.columns))[x] == multiset(BoardIds(b.columns))[x]
  {
    var r := DeleteCard(b, columnId, cardId);
    SameShapeDistinct(b, r);
    match FirstIndexOf(ColumnIds(b.columns), columnId)
    case None =>
      ColumnNotFound(b.columns, columnId);
      DeleteCardAbsentNoop(b, columnId, cardId);
    case Some(i) =>
      var c := b.columns[i];
      var c' := c.(cards := FilterOut(c.cards, cardId));
      DeleteCardAt(b, columnId, cardId, i);
      forall x ensures multiset(BoardIds(r.columns))[x] <= multiset(BoardIds(b.columns))[x]
                    && (x != cardId ==> multiset(BoardIds(r.columns))[x] == multiset(BoardIds(b.columns))[x]) {
        FilterOutCount(c.cards, cardId, x);
        ReplaceColumnCount(b.columns, i, c', x);
      }
      NoDuplicatesSub(BoardIds(b.columns), BoardIds(r.columns));
  }

  lemma DeleteCardAt(b: Board, columnId: string, cardId: string, i: nat)
    requires DistinctColumnIds(b.columns) && i < |b.columns| && b.columns[i].id == columnId
    ensures var c := b.columns[i];
      DeleteCard(b, columnId, cardId).columns == b.columns[i := c.(cards := FilterOut(c.cards, cardId))]
  {
  }

  lemma SameShapeDistinct(b: Board, r: Board)
    requires SameShape(b, r) && DistinctColumnIds(b.columns)
    ensures DistinctColumnIds(r.columns)
  {
  }

  /** Replacing column `i` by `c` changes the count of each id on the board
      by exactly the difference between its counts in the old and new column. */
  lemma {:induction false} ReplaceColumnCount(columns: seq<Column>, i: nat, c: Column, x: string)
    requires i < |columns|
    ensures multiset(BoardIds(columns[i := c]))[x] + multiset(Ids(columns[i].cards))[x]
         == multiset(BoardIds(columns))[x] + multiset(Ids(c.cards))[x]
  {
    var updated := columns[i := c];
    assert BoardIds(updated) == Ids(updated[0].cards) + BoardIds(updated[1..]);
    assert BoardIds(columns) == Ids(columns[0].cards) + BoardIds(columns[1..]);
    if i == 0 {
      assert updated[1..] == columns[1..];
    } else {
      assert updated[1..] == columns[1..][i - 1 := c];
      ReplaceColumnCount(columns[1..], i - 1, c, x);
    }
  }

  lemma UnionEmpty(m: multiset<string>)
    ensures m + multiset{} == m
  {
    assert forall x :: (m + multiset{})[x] == m[x];
  }

  /** Replacing column `i` by `c`, whose ids are the old column's with `added`
      put in and `removed` taken out, does the same to the board's ids. */
  lemma ReplaceColumnIds(columns: seq<Column>, i: nat, c: Column,
                         added: multiset<string>, removed: multiset<string>)
    requires i < |columns|
    requires multiset(Ids(c.cards)) + removed == multiset(Ids(columns[i].cards)) + added
    ensures multiset(BoardIds(columns[i := c])) + removed == multiset(BoardIds(columns)) + added
  {
    forall x ensures (multiset(BoardIds(columns[i := c])) + removed)[x]
                  == (multiset(BoardIds(columns)) + added)[x] {
      ReplaceColumnCount(columns, i, c, x);
      assert (multiset(Ids(c.cards)) + removed)[x] == (multiset(Ids(columns[i].cards)) + added)[x];
    }
  }

  // ---------------------------------------------------------------------------
  // editCard

  /** Editing never changes which ids are where, so the board stays well formed. */
  lemma EditCardKeepsIds(b: Board, columnId: string, cardId: string, newTitle: string)
    ensures BoardIds(EditCard(b, columnId, cardId, newTitle).columns) == BoardIds(b.columns)
    ensures WellFormed(b) ==> WellFormed(EditCard(b, columnId, cardId, newTitle))
  {
    var r := EditCard(b, columnId, cardId, newTitle);
    forall i | 0 <= i < |b.columns| ensures Ids(r.columns[i].cards) == Ids(b.columns[i].cards) {
    }
    SameIdsSameBoardIds(b.columns, r.columns);
  }

  lemma {:induction false} SameIdsSameBoardIds(xs: seq<Column>, ys: seq<Column>)
    requires |xs| == |ys|
    requires forall i :: 0 <= i < |xs| ==> Ids(xs[i].cards) == Ids(ys[i].cards)
    ensures BoardIds(xs) == BoardIds(ys)
  {
    if |xs| > 0 {
      SameIdsSameBoardIds(xs[1..], ys[1..]);
    }
  }

  /** Giving the cards the title they already have leaves the board as it is. */
  lemma EditCardSameTitleNoop(b: Board, columnId: string, cardId: string, newTitle: string)
    requires forall i, k ::
      0 <= i < |b.columns| && b.columns[i].id == columnId &&
      0 <= k < |b.columns[i].cards| && b.columns[i].cards[k].id == cardId
      ==> b.columns[i].cards[k].title == newTitle
    ensures EditCard(b, columnId, cardId, newTitle) == b
  {
    var r := EditCard(b, columnId, cardId, newTitle);
    forall i | 0 <= i < |b.columns| ensures r.columns[i] == b.columns[i] {
      assert r.columns[i].cards == b.columns[i].cards;
    }
    assert r.columns == b.columns;
  }

  // ---------------------------------------------------------------------------
  // moveCard

  /** When the source column is missing or does not hold the card, the board
      is returned as it is. */
  lemma MoveCardNoSourceCard(b: Board, src: string, tgt: string, cardId: string, targetIndex: nat)
    requires forall i :: 0 <= i < |b.columns| && b.columns[i].id == src ==>
      cardId !in Ids(b.columns[i].cards)
    ensures MoveCard(b, src, tgt, cardId, targetIndex) == b
  {
    match FirstIndexOf(ColumnIds(b.columns), src)
    case None =>
    case Some(si) =>
      var cards := b.columns[si].cards;
      forall j | 0 <= j < |cards| ensures cards[j].id != cardId {
        assert Ids(cards)[j] == cards[j].id;
      }
  }

  /** The column holding `cardId` as the first match, with its position. */
  lemma FindsOnWellFormed(b: Board, si: nat, k: nat)
    requires WellFormed(b) && si < |b.columns| && k < |b.columns[si].cards|
    ensures FirstIndexOf(ColumnIds(b.columns), b.columns[si].id) == Some(si)
    ensures FirstIndexOf(Ids(b.columns[si].cards), b.columns[si].cards[k].id) == Some(k)
  {
    var fc := FirstIndexOf(ColumnIds(b.columns), b.columns[si].id);
    assert ColumnIds(b.columns)[si] == b.columns[si].id;
    assert fc.Some?;
    var cards := b.columns[si].cards;
    assert Ids(cards)[k] == cards[k].id;
    ColumnNoDuplicates(b, si);
    OnlyOccurrence(cards, k);
    forall j | 0 <= j < k ensures cards[j].id != cards[k].id {
      assert Ids(cards[..k])[j] == cards[j].id;
    }
  }

  /** Moving between two different columns: the source loses exactly the
      card's position, the target gets the card spliced in at `targetIndex`
      (at its end when past it), and every other column is unchanged. */
  lemma MoveCardAcross(b: Board, si: nat, k: nat, ti: nat, targetIndex: nat)
    requires WellFormed(b) && si < |b.columns| && ti < |b.columns| && si != ti
    requires k < |b.columns[si].cards|
    ensures var s, t := b.columns[si], b.columns[ti];
      MoveCard(b, s.id, t.id, s.cards[k].id, targetIndex).columns
        == b.columns[si := s.(cards := s.cards[..k] + s.cards[k + 1..])]
                    [ti := t.(cards := Splice(t.cards, targetIndex, s.cards[k]))]
  {
    var s, t := b.columns[si], b.columns[ti];
    FindsOnWellFormed(b, si, k);
    RemovePass(b, si, k);
    var removed := b.columns[si := s.(cards := s.cards[..k] + s.cards[k + 1..])];
    assert removed[ti] == t;
    InsertPass(removed, ti, s.cards[k], targetIndex, false);
  }

  /** Moving within one column: the card is taken out and spliced back in at
      `targetIndex`, limited to the length after removal; every other column
      is unchanged. */
  lemma MoveCardWithin(b: Board, si: nat, k: nat, targetIndex: nat)
    requires WellFormed(b) && si < |b.columns| && k < |b.columns[si].cards|
    ensures var s := b.columns[si];
      var rest := s.cards[..k] + s.cards[k + 1..];
      MoveCard(b, s.id, s.id, s.cards[k].id, targetIndex).columns
        == b.columns[si := s.(cards := Splice(rest, Min(targetIndex, |rest|), s.cards[k]))]
  {
    var s := b.columns[si];
    FindsOnWellFormed(b, si, k);
    RemovePass(b, si, k);
    var removed := b.columns[si := s.(cards := s.cards[..k] + s.cards[k + 1..])];
    InsertPass(removed, si, s.cards[k], targetIndex, true);
  }

  /** The removal pass of a move on a well-formed board takes exactly the
      card's position out of its column. */
  lemma RemovePass(b: Board, si: nat, k: nat)
    requires WellFormed(b) && si < |b.columns| && k < |b.columns[si].cards|
    ensures var s := b.columns[si];
      var removed := b.columns[si := s.(cards := s.cards[..k] + s.cards[k + 1..])];
      RemoveFromColumns(b.columns, s.id, s.cards[k].id) == removed && DistinctColumnIds(removed)
  {
    var s := b.columns[si];
    ColumnNoDuplicates(b, si);
    FilterOutUniqueAt(s.cards, k);
  }

  /** The insertion pass of a move into a column whose id is unique splices
      the card into that column only. */
  lemma InsertPass(columns: seq<Column>, ti: nat, card: Card, targetIndex: nat, sameColumn: bool)
    requires DistinctColumnIds(columns) && ti < |columns|
    ensures var t := columns[ti];
      var adjustedIndex := if sameColumn then Min(targetIndex, |t.cards|) else targetIndex;
      InsertIntoColumns(columns, t.id, card, targetIndex, sameColumn)
        == columns[ti := t.(cards := Splice(t.cards, adjustedIndex, card))]
  {
  }

  /** Moving a card to the index it already has leaves the board as it is. */
  lemma MoveCardToOwnIndex(b: Board, si: nat, k: nat)
    requires WellFormed(b) && si < |b.columns| && k < |b.columns[si].cards|
    ensures MoveCard(b, b.columns[si].id, b.columns[si].id, b.columns[si].cards[k].id, k) == b
  {
    var s := b.columns[si];
    MoveCardWithin(b, si, k, k);
    SpliceRemoved(s.cards, k);
    assert b.columns[si := s] == b.columns;
  }

  /** When the target column is missing, the card is removed and never put
      back: it disappears from the board. */
  lemma MoveCardToMissingColumn(b: Board, si: nat, k: nat, tgt: string, targetIndex: nat)
    requires WellFormed(b) && si < |b.columns| && k < |b.columns[si].cards|
    requires forall i :: 0 <= i < |b.columns| ==> b.columns[i].id != tgt
    ensures var s := b.columns[si];
      var r := MoveCard(b, s.id, tgt, s.cards[k].id, targetIndex);
      r.columns == b.columns[si := s.(cards := s.cards[..k] + s.cards[k + 1..])] &&
      multiset(BoardIds(r.columns)) + multiset{s.cards[k].id} == multiset(BoardIds(b.columns)) &&
      WellFormed(r)
  {
    var s := b.columns[si];
    var id := s.cards[k].id;
    var r := MoveCard(b, s.id, tgt, id, targetIndex);
    var s' := s.(cards := s.cards[..k] + s.cards[k + 1..]);
    MoveCardRemoves(b, si, k, tgt, targetIndex);
    assert r.columns == b.columns[si := s'];
    ColumnNoDuplicates(b, si);
    RemoveAtNoDuplicates(s.cards, k);
    ReplaceColumnIds(b.columns, si, s', multiset{}, multiset{id});
    NoDuplicatesRemove(BoardIds(b.columns), BoardIds(r.columns), id);
    SameShapeDistinct(b, r);
  }

  /** The removal pass of a move that finds its card, and its insertion pass
      when the target matches no column. */
  lemma MoveCardRemoves(b: Board, si: nat, k: nat, tgt: string, targetIndex: nat)
    requires WellFormed(b) && si < |b.columns| && k < |b.columns[si].cards|
    ensures var s := b.columns[si];
      var removed := b.columns[si := s.(cards := s.cards[..k] + s.cards[k + 1..])];
      RemoveFromColumns(b.columns, s.id, s.cards[k].id) == removed &&
      ((forall i :: 0 <= i < |b.columns| ==> b.columns[i].id != tgt) ==>
        MoveCard(b, s.id, tgt, s.cards[k].id, targetIndex).columns == removed)
  {
    FindsOnWellFormed(b, si, k);
    RemovePass(b, si, k);
  }

  /** When both columns exist, a move keeps the board well formed and keeps
      the multiset of card ids: every card is still in exactly one column. */
  lemma MoveCardConservesCards(b: Board, si: nat, k: nat, ti: nat, targetIndex: nat)
    requires WellFormed(b) && si < |b.columns| && ti < |b.columns| && k < |b.columns[si].cards|
    ensures var s, t := b.columns[si], b.columns[ti];
      var r := MoveCard(b, s.id, t.id, s.cards[k].id, targetIndex);
      multiset(BoardIds(r.columns)) == multiset(BoardIds(b.columns)) && WellFormed(r)
  {
    var s, t := b.columns[si], b.columns[ti];
    var r := MoveCard(b, s.id, t.id, s.cards[k].id, targetIndex);
    if si == ti {
      MoveWithinConserves(b, si, k, targetIndex);
    } else {
      MoveAcrossConserves(b, si, k, ti, targetIndex);
    }
    NoDuplicatesSub(BoardIds(b.columns), BoardIds(r.columns));
    SameShapeDistinct(b, r);
  }

  lemma MoveWithinConserves(b: Board, si: nat, k: nat, targetIndex: nat)
    requires WellFormed(b) && si < |b.columns| && k < |b.columns[si].cards|
    ensures var s := b.columns[si];
      var r := MoveCard(b, s.id, s.id, s.cards[k].id, targetIndex);
      multiset(BoardIds(r.columns)) == multiset(BoardIds(b.columns))
  {
    var s := b.columns[si];
    var x := s.cards[k];
    var r := MoveCard(b, s.id, s.id, x.id, targetIndex);
    var rest := s.cards[..k] + s.cards[k + 1..];
    ColumnNoDuplicates(b, si);
    RemoveAtNoDuplicates(s.cards, k);
    MoveCardWithin(b, si, k, targetIndex);
    var s' := s.(cards := Splice(rest, Min(targetIndex, |rest|), x));
    assert r.columns == b.columns[si := s'];
    SpliceIds(rest, Min(targetIndex, |rest|), x);
    assert multiset(Ids(s'.cards)) == multiset(Ids(s.cards));
    ReplaceColumnIds(b.columns, si, s', multiset{}, multiset{});
    UnionEmpty(multiset(BoardIds(r.columns)));
    UnionEmpty(multiset(BoardIds(b.columns)));
  }

  lemma MoveAcrossConserves(b: Board, si: nat, k: nat, ti: nat, targetIndex: nat)
    requires WellFormed(b) && si < |b.columns| && ti < |b.columns| && si != ti
    requires k < |b.columns[si].cards|
    ensures var s, t := b.columns[si], b.columns[ti];
      var r := MoveCard(b, s.id, t.id, s.cards[k].id, targetIndex);
      multiset(BoardIds(r.columns)) == multiset(BoardIds(b.columns))
  {
    var s, t := b.columns[si], b.columns[ti];
    var x := s.cards[k];
    var r := MoveCard(b, s.id, t.id, x.id, targetIndex);
    var rest := s.cards[..k] + s.cards[k + 1..];
    ColumnNoDuplicates(b, si);
    RemoveAtNoDuplicates(s.cards, k);
    MoveCardAcross(b, si, k, ti, targetIndex);
    var s' := s.(cards := rest);
    var t' := t.(cards := Splice(t.cards, targetIndex, x));
    var mid := b.columns[si := s'];
    assert r.columns == mid[ti := t'];
    assert mid[ti] == t;
    SpliceIds(t.cards, targetIndex, x);
    UnionEmpty(multiset(Ids(s'.cards)) + multiset{x.id});
    ReplaceColumnIds(b.columns, si, s', multiset{}, multiset{x.id});
    UnionEmpty(multiset(Ids(t'.cards)));
    ReplaceColumnIds(mid, ti, t', multiset{x.id}, multiset{});
    UnionEmpty(multiset(BoardIds(r.columns)));
  }

  /** Whatever the arguments, a move keeps a well-formed board well formed. */
  lemma MoveCardKeepsWellFormed(b: Board, src: string, tgt: string, cardId: string, targetIndex: nat)
    requires WellFormed(b)
    ensures WellFormed(MoveCard(b, src, tgt, cardId, targetIndex))
  {
    match FirstIndexOf(ColumnIds(b.columns), src)
    case None =>
    case Some(si) =>
      match FirstIndexOf(Ids(b.columns[si].cards), cardId)
      case None =>
      case Some(k) =>
        match FirstIndexOf(ColumnIds(b.columns), tgt)
        case None =>
          ColumnNotFound(b.columns, tgt);
          MoveCardToMissingColumn(b, si, k, tgt, targetIndex);
        case Some(ti) =>
          MoveCardConservesCards(b, si, k, ti, targetIndex);
  }

  /** Every store call keeps a well-formed board well formed, provided the id
      an added card gets is fresh. */
  lemma ApplyKeepsWellFormed(b: Board, call: StoreCall, newId: string, createdAt: int)
    requires WellFormed(b) && newId !in BoardIds(b.columns)
    ensures WellFormed(Apply(b, call, newId, createdAt))
  {
    match call
    case AddCardCall(columnId, title) =>
      var found := FirstIndexOf(ColumnIds(b.columns), columnId);
      if found.Some? {
        AddCardKeepsWellFormed(b, columnId, title, newId, createdAt, found.value);
      } else {
        ColumnNotFound(b.columns, columnId);
        AddCardUnknownColumn(b, columnId, title, newId, createdAt);
      }
    case DeleteCardCall(columnId, cardId) => DeleteCardKeepsWellFormed(b, columnId, cardId);
    case EditCardCall(columnId, cardId, newTitle) => EditCardKeepsIds(b, columnId, cardId, newTitle);
    case MoveCardCall(src, tgt, cardId, targetIndex) => MoveCardKeepsWellFormed(b, src, tgt, cardId, targetIndex);
  }

  // ---------------------------------------------------------------------------
  // Worked examples

  function ExampleCard(id: string): Card {
    Card(id, id, None, 0)
  }

  /** Column `[A, B, C, D]`: moving A to index 3 gives `[B, C, D, A]`. */
  lemma SameColumnMoveExample()
    ensures var a, cardB, c, d := ExampleCard("A"), ExampleCard("B"), ExampleCard("C"), ExampleCard("D");
      MoveCard(Board([Column("todo", "Todo", [a, cardB, c, d])]), "todo", "todo", "A", 3)
        == Board([Column("todo", "Todo", [cardB, c, d, a])])
  {
    var a, cardB, c, d := ExampleCard("A"), ExampleCard("B"), ExampleCard("C"), ExampleCard("D");
    var b := Board([Column("todo", "Todo", [a, cardB, c, d])]);
    FourCardColumnWellFormed();
    MoveCardWithin(b, 0, 0, 3);
    FourCardFacts(a, cardB, c, d);
    assert Min(3, 3) == 3;
  }

  /** Column `[A, B, C, D]`: moving A to index 1 gives `[B, A, C, D]`. */
  lemma AdjacentMoveExample()
    ensures var a, cardB, c, d := ExampleCard("A"), ExampleCard("B"), ExampleCard("C"), ExampleCard("D");
      MoveCard(Board([Column("todo", "Todo", [a, cardB, c, d])]), "todo", "todo", "A", 1)
        == Board([Column("todo", "Todo", [cardB, a, c, d])])
  {
    var a, cardB, c, d := ExampleCard("A"), ExampleCard("B"), ExampleCard("C"), ExampleCard("D");
    var b := Board([Column("todo", "Todo", [a, cardB, c, d])]);
    FourCardColumnWellFormed();
    MoveCardWithin(b, 0, 0, 1);
    FourCardFacts(a, cardB, c, d);
    assert Min(1, 3) == 1;
  }

  lemma FourCardColumnWellFormed()
    ensures WellFormed(Board([Column("todo", "Todo", [ExampleCard("A"), ExampleCard("B"), ExampleCard("C"), ExampleCard("D")])]))
  {
    var cards := [ExampleCard("A"), ExampleCard("B"), ExampleCard("C"), ExampleCard("D")];
    var b := Board([Column("todo", "Todo", cards)]);
    assert Ids(cards) == ["A", "B", "C", "D"];
    assert BoardIds(b.columns) == Ids(cards) + BoardIds([]);
    DistinctNoDuplicates(BoardIds(b.columns));
  }

  /** Taking the first of four out, and splicing it back in at 1 or at 3. */
  lemma FourCardFacts<T>(a: T, cardB: T, c: T, d: T)
    ensures [a, cardB, c, d][..0] + [a, cardB, c, d][0 + 1..] == [cardB, c, d]
    ensures Splice([cardB, c, d], 1, a) == [cardB, a, c, d]
    ensures Splice([cardB, c, d], 3, a) == [cardB, c, d, a]
  {
    assert [cardB, c, d][..1] == [cardB] && [cardB, c, d][1..] == [c, d];
  }

  /** Source `[A, B, C]`, target `[X, Y]`: moving B to index 0 gives
      `[A, C]` and `[B, X, Y]`. */
  lemma CrossColumnMoveExample()
    ensures var a, cardB, c, x, y := ExampleCard("A"), ExampleCard("B"), ExampleCard("C"), ExampleCard("X"), ExampleCard("Y");
      var b := Board([Column("todo", "Todo", [a, cardB, c]), Column("done", "Done", [x, y])]);
      MoveCard(b, "todo", "done", "B", 0)
        == Board([Column("todo", "Todo", [a, c]), Column("done", "Done", [cardB, x, y])])
  {
    var a, cardB, c, x, y := ExampleCard("A"), ExampleCard("B"), ExampleCard("C"), ExampleCard("X"), ExampleCard("Y");
    var b := Board([Column("todo", "Todo", [a, cardB, c]), Column("done", "Done", [x, y])]);
    TwoColumnBoardWellFormed();
    MoveCardAcross(b, 0, 1, 1, 0);
    CrossFacts(a, cardB, c, x, y);
  }

  lemma TwoColumnBoardWellFormed()
    ensures var a, cardB, c, x, y := ExampleCard("A"), ExampleCard("B"), ExampleCard("C"), ExampleCard("X"), ExampleCard("Y");
      WellFormed(Board([Column("todo", "Todo", [a, cardB, c]), Column("done", "Done", [x, y])]))
  {
    var a, cardB, c, x, y := ExampleCard("A"), ExampleCard("B"), ExampleCard("C"), ExampleCard("X"), ExampleCard("Y");
    var b := Board([Column("todo", "Todo", [a, cardB, c]), Column("done", "Done", [x, y])]);
    assert Ids([a, cardB, c]) == ["A", "B", "C"];
    assert Ids([x, y]) == ["X", "Y"];
    assert b.columns[1..] == [Column("done", "Done", [x, y])];
    assert BoardIds(b.columns[1..]) == Ids([x, y]) + BoardIds([]);
    assert BoardIds(b.columns) == ["A", "B", "C", "X", "Y"];
    DistinctNoDuplicates(BoardIds(b.columns));
  }

  /** Taking the second of three out, and splicing it in before two others. */
  lemma CrossFacts<T>(a: T, cardB: T, c: T, x: T, y: T)
    ensures [a, cardB, c][..1] + [a, cardB, c][1 + 1..] == [a, c]
    ensures Splice([x, y], 0, cardB) == [cardB, x, y]
  {
  }
}
