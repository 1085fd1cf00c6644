/**
 The standings engine: from a table of per-round points to a ranked,
 round-ordered standings history.

 A round's entries carry each team's points for that round, its aggregated
 points (the sum of its column over every row up to and including this one,
 in input row order) and its position (1 for the highest aggregated points;
 ties keep team-column order). The rounds are finally ordered by round
 number, ties keeping input row order.
 */
module Standings {
  import opened Wrappers
  import opened StableSort
  import opened RoundLabel

  /** One input row: the round label (such as "J3") and one cell per team column. */
  datatype Row = Row(jornada: string, cells: seq<int>)

  /** The input table: the team column names, then the rows in input order. */
  datatype Table = Table(teams: seq<string>, rows: seq<Row>)

  /** Every row has one cell per team column, as in any data frame. */
  predicate WellFormed(t: Table) {
    forall i :: 0 <= i < |t.rows| ==> |t.rows[i].cells| == |t.teams|
  }

  /** One team's standing in one round; position 0 is the "not yet ranked" placeholder. */
  datatype Entry = Entry(team: string, roundPoints: int, aggregatedPoints: int, position: nat)

  /** One round of the history: its number and its entries, best position first. */
  datatype Round = Round(number: int, entries: seq<Entry>)

  /** The round label of the given row has no integer after its first character. */
  datatype Error = MalformedLabel(row: nat)

  // ---------------------------------------------------------------------
  // Aggregation
  // ---------------------------------------------------------------------

  /** The sum of column `c` over the first `n` rows. */
  function ColumnSum(t: Table, c: nat, n: nat): int
    requires WellFormed(t) && c < |t.teams| && n <= |t.rows|
  {
    if n == 0 then 0 else ColumnSum(t, c, n - 1) + t.rows[n - 1].cells[c]
  }

  /** A team that never scores negative points never loses aggregated points. */
  lemma {:induction false} ColumnSumMonotone(t: Table, c: nat, m: nat, n: nat)
    requires WellFormed(t) && c < |t.teams| && m <= n <= |t.rows|
    requires forall i :: m <= i < n ==> t.rows[i].cells[c] >= 0
    ensures ColumnSum(t, c, m) <= ColumnSum(t, c, n)
    decreases n - m
  {
    if m < n {
      ColumnSumMonotone(t, c, m, n - 1);
    }
  }

  function Zeros(n: nat): (r: seq<int>)
    ensures |r| == n && forall c :: 0 <= c < n ==> r[c] == 0
  {
    if n == 0 then [] else Zeros(n - 1) + [0]
  }

  /** Adds a row's cells to the running totals, column by column. */
  function AddCells(running: seq<int>, cells: seq<int>): (r: seq<int>)
    requires |cells| == |running|
    ensures |r| == |running|
    ensures forall c :: 0 <= c < |r| ==> r[c] == running[c] + cells[c]
  {
    if |running| == 0 then []
    else [running[0] + cells[0]] + AddCells(running[1..], cells[1..])
  }

  /**
   The aggregated points of every row, computed with one running total per
   team instead of re-summing the prefix for every row.
   */
  method RunningTotals(t: Table) returns (totals: seq<seq<int>>)
    requires WellFormed(t)
    ensures |totals| == |t.rows|
    ensures forall i :: 0 <= i < |totals| ==> |totals[i]| == |t.teams|
    ensures forall i, c :: 0 <= i < |totals| && 0 <= c < |t.teams| ==> totals[i][c] == ColumnSum(t, c, i + 1)
  {
    var running := Zeros(|t.teams|);
    totals := [];
    var i := 0;
    while i < |t.rows|
      invariant 0 <= i <= |t.rows|
      invariant |running| == |t.teams|
      invariant forall c :: 0 <= c < |t.teams| ==> running[c] == ColumnSum(t, c, i)
      invariant |totals| == i
      invariant forall k :: 0 <= k < i ==> |totals[k]| == |t.teams|
      invariant forall k, c :: 0 <= k < i && 0 <= c < |t.teams| ==> totals[k][c] == ColumnSum(t, c, k + 1)
    {
      running := AddCells(running, t.rows[i].cells);
      totals := totals + [running];
      i := i + 1;
    }
  }

  /** Unranked entries pairing each team with its round points and aggregated points. */
  function MakeEntries(teams: seq<string>, cells: seq<int>, sums: seq<int>): (r: seq<Entry>)
    requires |cells| == |teams| && |sums| == |teams|
    ensures |r| == |teams|
  {
    if |teams| == 0 then []
    else [Entry(teams[0], cells[0], sums[0], 0)] + MakeEntries(teams[1..], cells[1..], sums[1..])
  }

  /** Entry `c` pairs team `c` with cell `c` and sum `c`, unranked. */
  lemma {:induction false} MakeEntriesAt(teams: seq<string>, cells: seq<int>, sums: seq<int>)
    requires |cells| == |teams| && |sums| == |teams|
    ensures forall c :: 0 <= c < |teams| ==>
      MakeEntries(teams, cells, sums)[c] == Entry(teams[c], cells[c], sums[c], 0)
  {
    if |teams| > 0 {
      MakeEntriesAt(teams[1..], cells[1..], sums[1..]);
    }
  }

  /** The aggregated points of the first `n` team columns at row `i`, as prefix sums. */
  function PrefixSums(t: Table, i: nat, n: nat): (r: seq<int>)
    requires WellFormed(t) && i < |t.rows| && n <= |t.teams|
    ensures |r| == n
  {
    if n == 0 then [] else PrefixSums(t, i, n - 1) + [ColumnSum(t, n - 1, i + 1)]
  }

  /** Column `c`'s aggregated points at row `i` is its sum over rows `0..i`. */
  lemma {:induction false} PrefixSumsAt(t: Table, i: nat, n: nat)
    requires WellFormed(t) && i < |t.rows| && n <= |t.teams|
    ensures forall c :: 0 <= c < n ==> PrefixSums(t, i, n)[c] == ColumnSum(t, c, i + 1)
  {
    if n > 0 {
      PrefixSumsAt(t, i, n - 1);
    }
  }

  /** Any column-by-column list of row `i`'s aggregated points is `PrefixSums`'s. */
  lemma PrefixSumsUnique(t: Table, i: nat, s: seq<int>)
    requires WellFormed(t) && i < |t.rows|
    requires |s| == |t.teams| && forall c :: 0 <= c < |s| ==> s[c] == ColumnSum(t, c, i + 1)
    ensures s == PrefixSums(t, i, |t.teams|)
  {
    PrefixSumsAt(t, i, |t.teams|);
  }

  /** Row `i`'s entries in team-column order, not yet ranked. */
  function RowEntries(t: Table, i: nat): (r: seq<Entry>)
    requires WellFormed(t) && i < |t.rows|
    ensures |r| == |t.teams|
  {
    MakeEntries(t.teams, t.rows[i].cells, PrefixSums(t, i, |t.teams|))
  }

  // ---------------------------------------------------------------------
  // Ranking
  // ---------------------------------------------------------------------

  function AggregatedKey(e: Entry): int {
    e.aggregatedPoints
  }

  predicate Unranked(s: seq<Entry>) {
    forall j :: 0 <= j < |s| ==> s[j].position == 0
  }

  /** The entries with their positions reset to the placeholder. */
  function Unplaced(s: seq<Entry>): (r: seq<Entry>)
    ensures |r| == |s|
    ensures forall j :: 0 <= j < |r| ==> r[j] == s[j].(position := 0)
  {
    if |s| == 0 then [] else [s[0].(position := 0)] + Unplaced(s[1..])
  }

  /** Numbers the entries `first`, `first + 1`, ... in list order. */
  function AssignPositions(s: seq<Entry>, first: nat): (r: seq<Entry>)
    ensures |r| == |s|
  {
    if |s| == 0 then []
    else [s[0].(position := first)] + AssignPositions(s[1..], first + 1)
  }

  /** Entry `j` keeps everything but its position, which becomes `first + j`. */
  lemma {:induction false} AssignPositionsAt(s: seq<Entry>, first: nat)
    ensures forall j :: 0 <= j < |s| ==> AssignPositions(s, first)[j] == s[j].(position := first + j)
  {
    if |s| > 0 {
      AssignPositionsAt(s[1..], first + 1);
    }
  }

  /**
   Ranks one round: highest aggregated points first, ties in input order,
   positions 1..K in list order.
   */
  function RankEntries(s: seq<Entry>): (r: seq<Entry>)
    ensures |r| == |s|
  {
    AssignPositions(SortDesc(s, AggregatedKey), 1)
  }

  /**
   A ranked round holds positions 1..K in list order and lists its entries
   by non-increasing aggregated points.
   */
  lemma RankEntriesRanked(s: seq<Entry>)
    ensures forall j :: 0 <= j < |s| ==> RankEntries(s)[j].position == j + 1
    ensures NonIncreasing(RankEntries(s), AggregatedKey)
  {
    SortDescSorted(s, AggregatedKey);
    AssignPositionsAt(SortDesc(s, AggregatedKey), 1);
  }

  /**
   Ranking only reorders the round's entries: with the positions set aside,
   the ranked round holds the same entries, and entries with equal
   aggregated points keep their input order.
   */
  lemma RankEntriesPermutes(s: seq<Entry>)
    requires Unranked(s)
    ensures multiset(Unplaced(RankEntries(s))) == multiset(s)
    ensures SameKeyOrder(s, Unplaced(RankEntries(s)), AggregatedKey)
  {
    var sorted := SortDesc(s, AggregatedKey);
    SortDescStable(s, AggregatedKey);
    SortDescPermutes(s, AggregatedKey);
    AssignPositionsAt(sorted, 1);
    forall j | 0 <= j < |sorted|
      ensures sorted[j].position == 0
    {
      assert sorted[j] in multiset(s);
    }
    assert Unplaced(RankEntries(s)) == sorted;
  }

  /**
   Any arrangement that is ranked as above is `RankEntries`'s: the ranking
   does not depend on which stable sort produced it. `r` carrying positions
   1, 2, ... in list order is stated as `r` being its own renumbering.
   */
  lemma RankingIsUnique(s: seq<Entry>, r: seq<Entry>)
    requires Unranked(s)
    requires r == AssignPositions(Unplaced(r), 1)
    requires NonIncreasing(r, AggregatedKey)
    requires SameKeyOrder(s, Unplaced(r), AggregatedKey)
    ensures r == RankEntries(s)
  {
    var q := RankEntries(s);
    RankEntriesPermutes(s);
    RankEntriesRanked(s);
    AssignPositionsAt(Unplaced(q), 1);
    SortedStableUnique(Unplaced(r), Unplaced(q), AggregatedKey);
  }

  // ---------------------------------------------------------------------
  // Rounds
  // ---------------------------------------------------------------------

  predicate LabelParses(t: Table, i: nat)
    requires i < |t.rows|
  {
    ParseRoundLabel(t.rows[i].jornada).Some?
  }

  /** The labels of the first `n` rows all parse. */
  ghost predicate LabelsParse(t: Table, n: nat)
    requires n <= |t.rows|
  {
    forall i :: 0 <= i < n ==> LabelParses(t, i)
  }

  /** Row `i`'s entries, ranked. */
  function RankRow(t: Table, i: nat): seq<Entry>
    requires WellFormed(t) && i < |t.rows|
  {
    RankEntries(RowEntries(t, i))
  }

  /** The first row, among the first `n`, whose label does not parse. */
  function FirstMalformed(t: Table, n: nat): (r: Option<nat>)
    requires n <= |t.rows|
    ensures r.None? <==> LabelsParse(t, n)
    ensures r.Some? ==> r.value < n && !LabelParses(t, r.value) && LabelsParse(t, r.value)
  {
    if n == 0 then None
    else
      var prev := FirstMalformed(t, n - 1);
      if prev.Some? then prev
      else if LabelParses(t, n - 1) then None
      else Some(n - 1)
  }

  /** The rounds of the first `n` rows, in input order. */
  function Rounds(t: Table, n: nat): (r: seq<Round>)
    requires WellFormed(t) && n <= |t.rows| && LabelsParse(t, n)
    ensures |r| == n
  {
    seq(n, i requires 0 <= i < n => RoundOf(t, i))
  }

  /** The round row `i` yields: its label's number and its ranking. */
  function RoundOf(t: Table, i: nat): Round
    requires WellFormed(t) && i < |t.rows| && LabelParses(t, i)
  {
    Round(ParseRoundLabel(t.rows[i].jornada).value, RankRow(t, i))
  }

  /** Round `i` is numbered by row `i`'s label and holds row `i`'s ranking. */
  lemma RoundsAt(t: Table, n: nat, i: nat)
    requires WellFormed(t) && n <= |t.rows| && LabelsParse(t, n)
    requires i < n
    ensures ParseRoundLabel(t.rows[i].jornada) == Some(Rounds(t, n)[i].number)
    ensures Rounds(t, n)[i].entries == RankRow(t, i)
  {
    assert LabelParses(t, i);
    var parsed := ParseRoundLabel(t.rows[i].jornada);
    assert parsed == Some(parsed.value);
  }

  /** Appending row `n`'s round to the first `n` rounds gives the first `n + 1`. */
  lemma RoundsSnoc(t: Table, n: nat)
    requires WellFormed(t) && n < |t.rows| && LabelsParse(t, n) && LabelParses(t, n)
    ensures LabelsParse(t, n + 1)
    ensures Rounds(t, n + 1) == Rounds(t, n) + [Round(ParseRoundLabel(t.rows[n].jornada).value, RankRow(t, n))]
  {
  }

  /** When rows `0..i` parse and row `i` does not, row `i` is the first malformed row. */
  lemma FirstMalformedAt(t: Table, i: nat)
    requires i < |t.rows| && LabelsParse(t, i) && !LabelParses(t, i)
    ensures FirstMalformed(t, |t.rows|) == Some(i)
  {
  }

  /**
   The rounds in input row order, as the loop over the rows builds them;
   the first row whose label does not parse aborts the whole construction.
   */
  function BuildRounds(t: Table): (r: Result<seq<Round>, Error>)
    requires WellFormed(t)
  {
    match FirstMalformed(t, |t.rows|)
    case Some(b) => Failure(MalformedLabel(b))
    case None => Success(Rounds(t, |t.rows|))
  }

  /** Row `i`'s unranked entry for team column `c` holds that cell and that column's prefix sum. */
  lemma RowEntriesAt(t: Table, i: nat)
    requires WellFormed(t) && i < |t.rows|
    ensures Unranked(RowEntries(t, i))
    ensures forall c :: 0 <= c < |t.teams| ==>
      RowEntries(t, i)[c] == Entry(t.teams[c], t.rows[i].cells[c], ColumnSum(t, c, i + 1), 0)
  {
    MakeEntriesAt(t.teams, t.rows[i].cells, PrefixSums(t, i, |t.teams|));
    PrefixSumsAt(t, i, |t.teams|);
  }

  /** Every entry of row `i`'s ranking is some team column's cell and prefix sum. */
  lemma EntryOrigin(t: Table, i: nat, j: nat)
    requires WellFormed(t) && i < |t.rows|
    requires j < |RankRow(t, i)|
    ensures var e := RankRow(t, i)[j];
      e.position == j + 1 &&
      exists c :: 0 <= c < |t.teams| &&
        e.team == t.teams[c] && e.roundPoints == t.rows[i].cells[c] &&
        e.aggregatedPoints == ColumnSum(t, c, i + 1)
  {
    var row := RowEntries(t, i);
    var r := RankEntries(row);
    RowEntriesAt(t, i);
    RankEntriesPermutes(row);
    RankEntriesRanked(row);
    assert Unplaced(r)[j] in multiset(row);
    var c :| 0 <= c < |row| && row[c] == Unplaced(r)[j];
    assert row[c] == Entry(t.teams[c], t.rows[i].cells[c], ColumnSum(t, c, i + 1), 0);
  }

  /** Every team column of row `i` has an entry in that row's ranking. */
  lemma EntryCoverage(t: Table, i: nat, c: nat)
    requires WellFormed(t) && i < |t.rows|
    requires c < |t.teams|
    ensures var es := RankRow(t, i);
      exists j :: 0 <= j < |es| &&
        es[j].team == t.teams[c] && es[j].roundPoints == t.rows[i].cells[c] &&
        es[j].aggregatedPoints == ColumnSum(t, c, i + 1)
  {
    var row := RowEntries(t, i);
    var r := RankEntries(row);
    RowEntriesAt(t, i);
    RankEntriesPermutes(row);
    assert row[c] == Entry(t.teams[c], t.rows[i].cells[c], ColumnSum(t, c, i + 1), 0);
    assert row[c] in multiset(Unplaced(r));
    var j :| 0 <= j < |r| && Unplaced(r)[j] == row[c];
    assert Unplaced(r)[j] == r[j].(position := 0);
    assert r[j].team == t.teams[c] && r[j].roundPoints == t.rows[i].cells[c];
    assert r[j].aggregatedPoints == ColumnSum(t, c, i + 1);
    assert RankRow(t, i) == r;
  }

  // ---------------------------------------------------------------------
  // Round order and the whole transformation
  // ---------------------------------------------------------------------

  /** Sorting descending on the negated number sorts ascending on the number. */
  function NegatedNumber(x: Round): int {
    -x.number
  }

  /** The rounds numbered `n`, in their order in `h`. */
  function RoundsNumbered(h: seq<Round>, n: int): seq<Round> {
    KeyFilter(h, NegatedNumber, -n)
  }

  /** Stable sort of the rounds, ascending by round number. */
  function SortRounds(h: seq<Round>): (r: seq<Round>)
    ensures |r| == |h|
    ensures multiset(r) == multiset(h)
    ensures forall i, j :: 0 <= i < j < |r| ==> r[i].number <= r[j].number
    ensures forall n :: RoundsNumbered(r, n) == RoundsNumbered(h, n)
  {
    SortDescStable(h, NegatedNumber);
    SortDescPermutes(h, NegatedNumber);
    SortDescSorted(h, NegatedNumber);
    var r := SortDesc(h, NegatedNumber);
    assert forall i, j :: 0 <= i < j < |r| ==> NegatedNumber(r[i]) >= NegatedNumber(r[j]);
    r
  }

  /** Each round lists K entries, positions 1..K in order, aggregated points non-increasing. */
  ghost predicate IsRanked(x: Round, k: nat) {
    && |x.entries| == k
    && (forall j :: 0 <= j < k ==> x.entries[j].position == j + 1)
    && NonIncreasing(x.entries, AggregatedKey)
  }

  /** The standings history of a table: rounds built in input order, then sorted by number. */
  function Transform(t: Table): (r: Result<seq<Round>, Error>)
    requires WellFormed(t)
    ensures r.Success? <==> LabelsParse(t, |t.rows|)
    ensures r.Failure? ==>
      var b := r.error.row;
      b < |t.rows| && !LabelParses(t, b) && LabelsParse(t, b)
    ensures r.Success? ==>
      && |r.value| == |t.rows|
      && multiset(r.value) == multiset(BuildRounds(t).value)
      && (forall i, j :: 0 <= i < j < |r.value| ==> r.value[i].number <= r.value[j].number)
      && (forall n :: RoundsNumbered(r.value, n) == RoundsNumbered(BuildRounds(t).value, n))
  {
    match BuildRounds(t)
    case Failure(e) => Failure(e)
    case Success(h) => Success(SortRounds(h))
  }

  /**
   Every round of the history is the round of some row: ranked, and listing
   an entry for every team column.
   */
  lemma HistoryIsRanked(t: Table, x: Round)
    requires WellFormed(t) && Transform(t).Success?
    requires x in Transform(t).value
    ensures IsRanked(x, |t.teams|)
    ensures exists i :: 0 <= i < |t.rows| && LabelParses(t, i) && x == RoundOf(t, i)
    ensures forall c :: 0 <= c < |t.teams| ==>
      exists j :: 0 <= j < |x.entries| && x.entries[j].team == t.teams[c]
  {
    var h := BuildRounds(t).value;
    assert x in multiset(h);
    var i :| 0 <= i < |h| && h[i] == x;
    RoundsAt(t, |t.rows|, i);
    RankEntriesRanked(RowEntries(t, i));
    assert LabelParses(t, i);
    assert x == RoundOf(t, i);
    forall c | 0 <= c < |t.teams|
      ensures exists j :: 0 <= j < |x.entries| && x.entries[j].team == t.teams[c]
    {
      EntryCoverage(t, i, c);
    }
  }

  /**
   The engine as the running-total design computes it: one pass over the
   rows with per-team running sums, then the round sort. It yields exactly
   the history defined by `Transform`, whose aggregated points are prefix sums.
   */
  method BuildHistory(t: Table) returns (r: Result<seq<Round>, Error>)
    requires WellFormed(t)
    ensures r == Transform(t)
  {
    var totals := RunningTotals(t);
    var h: seq<Round> := [];
    var i := 0;
    while i < |t.rows|
      invariant 0 <= i <= |t.rows|
      invariant LabelsParse(t, i)
      invariant h == Rounds(t, i)
    {
      var parsed := ParseRoundLabel(t.rows[i].jornada);
      if parsed.None? {
        FirstMalformedAt(t, i);
        return Failure(MalformedLabel(i));
      }
      PrefixSumsUnique(t, i, totals[i]);
      var ranked := RankEntries(MakeEntries(t.teams, t.rows[i].cells, totals[i]));
      assert ranked == RankRow(t, i);
      RoundsSnoc(t, i);
      h := h + [Round(parsed.value, ranked)];
      i := i + 1;
    }
    r := Success(SortRounds(h));
  }
}
