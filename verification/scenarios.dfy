/**
 Worked scenarios: small concrete tables and histories with the answers
 the engine gives for them.
 */
module Scenarios {
  import opened Wrappers
  import opened StableSort
  import opened RoundLabel
  import opened Standings
  import opened Queries

  /** Ranking two entries: the second goes first only with strictly more aggregated points. */
  lemma RankTwo(x: Entry, y: Entry)
    ensures RankEntries([x, y]) ==
      if x.aggregatedPoints >= y.aggregatedPoints then [x.(position := 1), y.(position := 2)]
      else [y.(position := 1), x.(position := 2)]
  {
    assert [x, y][1..] == [y];
    assert SortDesc([y], AggregatedKey) == [y];
    var sorted := SortDesc([x, y], AggregatedKey);
    assert sorted == if x.aggregatedPoints >= y.aggregatedPoints then [x, y] else [y, x];
    AssignPositionsAt(sorted, 1);
  }

  /** Two teams, A and B, over the rounds "J1" and "J2". */
  function TwoRounds(): Table {
    Table(["A", "B"], [Row("J1", [10, 20]), Row("J2", [15, 5])])
  }

  lemma TwoRoundsLabels()
    ensures ParseRoundLabel(TwoRounds().rows[0].jornada) == Some(1)
    ensures ParseRoundLabel(TwoRounds().rows[1].jornada) == Some(2)
  {
    assert "J1"[1..] == "1" && "J2"[1..] == "2";
    assert DigitsValue("1") == 1 && DigitsValue("2") == 2;
  }

  lemma TwoRoundsRanks()
    ensures RankRow(TwoRounds(), 0) == [Entry("B", 20, 20, 1), Entry("A", 10, 10, 2)]
    ensures RankRow(TwoRounds(), 1) == [Entry("A", 15, 25, 1), Entry("B", 5, 25, 2)]
  {
    var t := TwoRounds();
    RowEntriesAt(t, 0);
    RowEntriesAt(t, 1);
    assert RowEntries(t, 0) == [Entry("A", 10, 10, 0), Entry("B", 20, 20, 0)];
    assert RowEntries(t, 1) == [Entry("A", 15, 25, 0), Entry("B", 5, 25, 0)];
    RankTwo(Entry("A", 10, 10, 0), Entry("B", 20, 20, 0));
    RankTwo(Entry("A", 15, 25, 0), Entry("B", 5, 25, 0));
  }

  /**
   After "J1" team B leads 20 to 10; after "J2" both have 25, and the tie
   goes to A, the earlier team column.
   */
  lemma TieGoesToEarlierColumn()
    ensures Transform(TwoRounds()) ==
      Success([
        Round(1, [Entry("B", 20, 20, 1), Entry("A", 10, 10, 2)]),
        Round(2, [Entry("A", 15, 25, 1), Entry("B", 5, 25, 2)])
      ])
  {
    var t := TwoRounds();
    TwoRoundsLabels();
    TwoRoundsRanks();
    assert LabelParses(t, 0) && LabelParses(t, 1);
    assert FirstMalformed(t, 2) == None;
    var first := Round(1, [Entry("B", 20, 20, 1), Entry("A", 10, 10, 2)]);
    var second := Round(2, [Entry("A", 15, 25, 1), Entry("B", 5, 25, 2)]);
    assert Rounds(t, 2) == [first, second];
    assert SortDesc([first, second], NegatedNumber) == [first, second] by {
      assert [first, second][1..] == [second];
      assert SortDesc([second], NegatedNumber) == [second];
    }
  }

  /** A label without a number after its first character aborts the whole history. */
  lemma MalformedSecondLabel()
    ensures Transform(Table(["A"], [Row("J1", [1]), Row("Jx", [2]), Row("", [3])])) ==
      Failure(MalformedLabel(1))
  {
    var t := Table(["A"], [Row("J1", [1]), Row("Jx", [2]), Row("", [3])]);
    assert "J1"[1..] == "1" && "Jx"[1..] == "x";
    assert LabelParses(t, 0) && !LabelParses(t, 1);
  }

  /**
   Two teams over three rounds: A scores 10, -5, 0 and B scores 0, 0, 30.
   */
  function ThreeRoundsTable(): Table {
    Table(["A", "B"], [Row("J1", [10, 0]), Row("J2", [-5, 0]), Row("J3", [0, 30])])
  }

  /** The history of `ThreeRoundsTable`: A leads after rounds 1 and 2, B after round 3. */
  function ThreeRounds(): seq<Round> {
    [
      Round(1, [Entry("A", 10, 10, 1), Entry("B", 0, 0, 2)]),
      Round(2, [Entry("A", -5, 5, 1), Entry("B", 0, 0, 2)]),
      Round(3, [Entry("B", 30, 30, 1), Entry("A", 0, 5, 2)])
    ]
  }

  lemma ThreeRoundsLabels()
    ensures ParseRoundLabel(ThreeRoundsTable().rows[0].jornada) == Some(1)
    ensures ParseRoundLabel(ThreeRoundsTable().rows[1].jornada) == Some(2)
    ensures ParseRoundLabel(ThreeRoundsTable().rows[2].jornada) == Some(3)
  {
    assert "J1"[1..] == "1" && "J2"[1..] == "2" && "J3"[1..] == "3";
    assert DigitsValue("1") == 1 && DigitsValue("2") == 2 && DigitsValue("3") == 3;
  }

  lemma ThreeRoundsRanks()
    ensures RankRow(ThreeRoundsTable(), 0) == ThreeRounds()[0].entries
    ensures RankRow(ThreeRoundsTable(), 1) == ThreeRounds()[1].entries
    ensures RankRow(ThreeRoundsTable(), 2) == ThreeRounds()[2].entries
  {
    var t := ThreeRoundsTable();
    RowEntriesAt(t, 0);
    RowEntriesAt(t, 1);
    RowEntriesAt(t, 2);
    assert ColumnSum(t, 0, 3) == 5 && ColumnSum(t, 1, 3) == 30;
    assert RowEntries(t, 0) == [Entry("A", 10, 10, 0), Entry("B", 0, 0, 0)];
    assert RowEntries(t, 1) == [Entry("A", -5, 5, 0), Entry("B", 0, 0, 0)];
    assert RowEntries(t, 2) == [Entry("A", 0, 5, 0), Entry("B", 30, 30, 0)];
    RankTwo(Entry("A", 10, 10, 0), Entry("B", 0, 0, 0));
    RankTwo(Entry("A", -5, 5, 0), Entry("B", 0, 0, 0));
    RankTwo(Entry("A", 0, 5, 0), Entry("B", 30, 30, 0));
  }

  lemma ThreeRoundsInOrder()
    ensures LabelsParse(ThreeRoundsTable(), 3)
    ensures Rounds(ThreeRoundsTable(), 3) == ThreeRounds()
  {
    var t := ThreeRoundsTable();
    ThreeRoundsLabels();
    ThreeRoundsRanks();
    assert LabelParses(t, 0) && LabelParses(t, 1) && LabelParses(t, 2);
    RoundsAt(t, 3, 0);
    RoundsAt(t, 3, 1);
    RoundsAt(t, 3, 2);
  }

  /** The table's history, already in round order, is `ThreeRounds`. */
  lemma ThreeRoundsHistory()
    ensures Transform(ThreeRoundsTable()) == Success(ThreeRounds())
  {
    var t := ThreeRoundsTable();
    var h := ThreeRounds();
    ThreeRoundsInOrder();
    assert FirstMalformed(t, 3) == None;
    assert SortDesc(h, NegatedNumber) == h by {
      assert h[1..][1..] == [h[2]];
      assert SortDesc([h[2]], NegatedNumber) == [h[2]];
      assert SortDesc(h[1..], NegatedNumber) == h[1..];
    }
  }

  /** The history flattened in scan order: round by round, ranked entry by ranked entry. */
  function ThreeRoundsSlots(): seq<Slot> {
    [
      Slot(1, Entry("A", 10, 10, 1)), Slot(1, Entry("B", 0, 0, 2)),
      Slot(2, Entry("A", -5, 5, 1)), Slot(2, Entry("B", 0, 0, 2)),
      Slot(3, Entry("B", 30, 30, 1)), Slot(3, Entry("A", 0, 5, 2))
    ]
  }

  lemma ThreeRoundsScan()
    ensures Flatten(ThreeRounds()) == ThreeRoundsSlots()
  {
    var h := ThreeRounds();
    assert h[1..][1..][1..] == [];
    assert SlotsOf(1, h[0].entries) == ThreeRoundsSlots()[..2];
    assert SlotsOf(2, h[1].entries) == ThreeRoundsSlots()[2..4];
    assert SlotsOf(3, h[2].entries) == ThreeRoundsSlots()[4..];
  }

  lemma ThreeRoundsSlotsExtremes(r: BestWorst)
    requires ReportsExtremes(r, Considered(ThreeRoundsSlots(), None), None)
    ensures r == Found(Extreme("B", 3, 30), Extreme("A", 2, -5))
  {
    var c := ThreeRoundsSlots();
    ConsideredAll(c);
    var expected := Found(Extreme("B", 3, 30), Extreme("A", 2, -5));
    ThreeRoundsSlotsFound();
    ReportsExtremesUnique(r, expected, c, None);
  }

  lemma ThreeRoundsSlotsFound()
    ensures ReportsExtremes(Found(Extreme("B", 3, 30), Extreme("A", 2, -5)), Considered(ThreeRoundsSlots(), None), None)
  {
    var c := ThreeRoundsSlots();
    ConsideredAll(c);
    assert IsFirstMax(c, 4) by {
      assert forall m :: 0 <= m < 4 ==> c[m].entry.roundPoints <= 10;
    }
    assert IsFirstMin(c, 2) by {
      assert forall m :: 0 <= m < 2 ==> c[m].entry.roundPoints >= 0;
    }
  }

  lemma ThreeRoundsSlotsNoC()
    ensures Considered(ThreeRoundsSlots(), Some("C")) == []
  {
    var c := ThreeRoundsSlots();
    assert forall m :: 0 <= m < |c| ==> c[m].entry.team in {"A", "B"};
    ConsideredEmpty(c, Some("C"));
  }

  /**
   Over every team, the best round of the table's history (`ThreeRoundsHistory`)
   is B's 30 in round 3 and the worst is A's -5 in round 2.
   */
  lemma ThreeRoundsBestWorst(r: BestWorst)
    requires ReportsExtremes(r, Considered(Flatten(ThreeRounds()), None), None)
    ensures r == Found(Extreme("B", 3, 30), Extreme("A", 2, -5))
  {
    ThreeRoundsScan();
    ThreeRoundsSlotsExtremes(r);
  }

  /**
   Filtered to a team that is not a column of the table, the query over the
   table's history reports `Missing`, the pair of `None`s.
   */
  lemma ThreeRoundsAbsentTeam(r: BestWorst)
    requires ReportsExtremes(r, Considered(Flatten(ThreeRounds()), Some("C")), Some("C"))
    ensures r == Missing
  {
    ThreeRoundsScan();
    ThreeRoundsSlotsNoC();
  }
}
