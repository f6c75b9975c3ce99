/** The seed board the application starts from. Creation dates are written as
    numbers of the form yyyymmdd. */
module MockData {
  import opened KanbanTypes
  import opened CardSeq
  import opened BoardStore

  function InitialBoard(): Board {
    Board([
      Column("todo", "Todo", [
        Card("card-1", "Research project requirements", None, 20240110),
        Card("card-2", "Create wireframes for new feature", None, 20240111),
        Card("card-3", "Review pull requests", None, 20240112)]),
      Column("in-progress", "In Progress", [
        Card("card-4", "Implement authentication module", None, 20240108),
        Card("card-5", "Write unit tests for API", None, 20240109)]),
      Column("done", "Done", [
        Card("card-6", "Setup development environment", None, 20240105),
        Card("card-7", "Database schema design", None, 20240106)])
    ])
  }

  /** The board invariant holds at start: distinct column ids, unique card ids. */
  lemma InitialBoardWellFormed()
    ensures WellFormed(InitialBoard())
    ensures BoardIds(InitialBoard().columns)
         == ["card-1", "card-2", "card-3", "card-4", "card-5", "card-6", "card-7"]
  {
    var cols := InitialBoard().columns;
    assert Ids(cols[0].cards) == ["card-1", "card-2", "card-3"];
    assert Ids(cols[1].cards) == ["card-4", "card-5"];
    assert Ids(cols[2].cards) == ["card-6", "card-7"];
    assert cols[1..][1..] == cols[2..];
    assert BoardIds(cols[2..]) == Ids(cols[2].cards) + BoardIds([]);
    assert BoardIds(cols[1..]) == Ids(cols[1].cards) + BoardIds(cols[2..]);
    DistinctNoDuplicates(BoardIds(cols));
  }
}
