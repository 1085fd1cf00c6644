# Standings engine of the fantasy-league points calculator

This project is a Dafny model of `PointsStatsCalculator`, the class that turns a
league's points table into a ranked standings history and answers queries on it.

- **Input.** One row per round ("jornada"), labelled like `J3`, and one integer
  column of round points per team.
- **The history.** For every row the engine builds one entry per team. An entry
  holds:
  - the team's round points;
  - its aggregated points, which are the column's sum over all rows up to and
    including this one;
  - its position.

  The entries of a round are stably sorted by aggregated points, highest first,
  and numbered 1, 2, … in that order, so ties keep team-column order. The round
  number is the label with its first character dropped, read as a decimal
  integer. At the end, the rounds are stably sorted by round number.
- **The queries.**
  - The position series and the points series flatten the history into one
    record per (round, team).
  - The best/worst query scans the round points, either of every team or of a
    named one. It keeps the first entry with strictly more points, and likewise
    the first with strictly fewer.

Modules:

- `Wrappers`: `Option` and `Result`.
- `StableSort`: a generic stable descending sort. It comes with these proofs:
  the output is sorted; it is a permutation of the input; it is stable; and any
  arrangement that is sorted and stable equals it. So the model agrees with
  Python's `sorted(..., reverse=True)`, whatever algorithm that uses.
- `RoundLabel`: the label reader. Its decimal parser comes with a printer and
  round-trip proofs.
- `Standings`: the table and its prefix sums, with a running-total method. Also
  per-round ranking, round building with the malformed-label error, the round
  sort, `Transform` (the whole history) and `BuildHistory`. `BuildHistory` is
  the one-pass method, and it is proved equal to `Transform`.
- `Queries`: the flattening and the two series, plus the best/worst scan. The
  scan is a method, and it is proved to report the first maximum and the first
  minimum of the entries it considers.
- `Scenarios`: small concrete tables, with the answers the model gives for them.

The error and empty cases are modelled as the code behaves:

- **Unknown team.** When a team is named and none of its entries is found,
  the query returns `(None, None)` (lines 132-134). The model calls this
  `Missing`.
- **Nothing to scan, no team named.** The query returns its two initial
  records, with no player and `±inf` points (lines 111-112, 135). The model
  calls this `Unset`.
- **Bad round label.** Python's `int()` raises at the first row whose label
  does not read (line 38), and the transformation stops there. The model
  returns `MalformedLabel(i)`, where `i` is that row.

## Model

| member | source | states |
|---|---|---|
| `RoundLabel.ParseRoundLabel` | code/stats_calculator.py:38 | A label gives a round number exactly when it has at least one character after the first, and all of them are decimal digits. |
| `RoundLabel.ParseShowNat` | code/stats_calculator.py:38 | Reading the decimal spelling of any natural number gives that number back. |
| `RoundLabel.ShowParseNat` | code/stats_calculator.py:38 | A digit string without leading zeros reads as a number whose spelling is that same string. |
| `RoundLabel.RoundLabelRoundTrip` | code/stats_calculator.py:38 | Any one-character prefix followed by the spelling of `n` labels round `n`. |
| `Standings.ColumnSumMonotone` | code/stats_calculator.py:48 | A team's aggregated points never decrease over rows where it scores no negative points. |
| `Standings.RunningTotals` | code/stats_calculator.py:47-48 | Running column totals kept row by row equal the inclusive column sums up to each row. |
| `Standings.PrefixSumsAt` | code/stats_calculator.py:47-48 | Column `c`'s aggregated points at row `i` is the sum of that column over rows `0..i`, including row `i`. |
| `Standings.PrefixSumsUnique` | code/stats_calculator.py:47-48 | Any list holding each column's inclusive sum up to row `i` is exactly the row's aggregated-points list. |
| `Standings.MakeEntriesAt` | code/stats_calculator.py:44-56 | Entry `c` pairs team column `c` with its cell and its aggregated points, with the position still unset. |
| `Standings.RowEntriesAt` | code/stats_calculator.py:44-56 | Before ranking, row `i` has one unranked entry per team column, in column order, holding the cell and the inclusive column sum. |
| `StableSort.SortDescSorted` | code/stats_calculator.py:60 | The descending sort yields keys that never increase. |
| `StableSort.SortDescPermutes` | code/stats_calculator.py:60 | The descending sort yields a permutation of its input. |
| `StableSort.SortDescStable` | code/stats_calculator.py:60 | Elements with equal keys keep their input order after the sort. |
| `StableSort.SortedStableUnique` | code/stats_calculator.py:60 | Two arrangements that are both non-increasing and list each key's elements in the same order are equal. |
| `StableSort.InsertSorted` | code/stats_calculator.py:60 | Inserting into a non-increasing sequence keeps it non-increasing. |
| `StableSort.InsertPermutes` | code/stats_calculator.py:60 | Insertion adds exactly the inserted element. |
| `StableSort.InsertKeyFilter` | code/stats_calculator.py:60 | Insertion places the new element before every element with the same key. |
| `StableSort.KeyFilterConcat` | code/stats_calculator.py:60 | Filtering by key distributes over concatenation. |
| `Standings.AssignPositionsAt` | code/stats_calculator.py:63-64 | Numbering from `first` changes only the positions, and entry `j` gets `first + j`. |
| `Standings.RankEntriesRanked` | code/stats_calculator.py:60-64 | After ranking, entry `j` has position `j + 1`, and aggregated points never increase down the list. |
| `Standings.RankEntriesPermutes` | code/stats_calculator.py:60-64 | Apart from positions, ranking only reorders the entries, and tied entries keep their input order. |
| `Standings.RankingIsUnique` | code/stats_calculator.py:60-64 | Any list that carries positions 1..n in list order, has non-increasing aggregated points, and keeps the unranked entries' input order among ties is the ranking; so every stable descending sort gives the same standings. |
| `Standings.FirstMalformed` | code/stats_calculator.py:36-38 | It finds no row exactly when every label reads; a row it reports does not read, and every row before it does. |
| `Standings.FirstMalformedAt` | code/stats_calculator.py:36-38 | When rows `0..i-1` read and row `i` does not, row `i` is the reported error row. |
| `Standings.RoundsAt` | code/stats_calculator.py:36-70 | Round `i`, in input order, carries row `i`'s label number and row `i`'s ranked entries. |
| `Standings.RoundsSnoc` | code/stats_calculator.py:67-70 | Appending row `n`'s round to the first `n` rounds gives the first `n + 1` rounds. |
| `Standings.EntryOrigin` | code/stats_calculator.py:44-64 | Entry `j` of a round has position `j + 1`, and it holds some team column's cell and inclusive sum. |
| `Standings.EntryCoverage` | code/stats_calculator.py:44-64 | Every team column has an entry in every round, with its cell and its inclusive sum. |
| `Standings.SortRounds` | code/stats_calculator.py:83 | The round sort is an ascending permutation, and rounds with the same number keep their input order. |
| `Standings.Transform` | code/stats_calculator.py:10-84 | The history exists exactly when every label reads, and otherwise names the first bad row. When it exists, it is the input-order rounds sorted stably by ascending number. |
| `Standings.HistoryIsRanked` | code/stats_calculator.py:58-70 | Every round of the history is the round some row `i` yields (its label number and its ranking). It holds one entry per team column, positioned 1..n, and every team column has an entry in it. Aggregated points never increase down the list. |
| `Standings.BuildHistory` | code/stats_calculator.py:36-84 | The one-pass loop with running totals builds exactly the history `Transform` defines, error included. |
| `Queries.FlattenAt` | code/stats_calculator.py:88-90 | Flattening puts entry `j` of round `i` at offset `Offset(h, i) + j`, tagged with the round's number. |
| `Queries.FlattenSource` | code/stats_calculator.py:88-90 | Every flattened slot comes from some entry `j` of some round `i`, at offset `Offset(h, i) + j`. |
| `Queries.PositionDataAt` | code/stats_calculator.py:86-96 | The position series holds one (round, team, position) record for each entry, in round order then entry order. |
| `Queries.PositionDataFrom` | code/stats_calculator.py:86-96 | Every record of the position series is the record of some entry of some round. |
| `Queries.PointsDataAt` | code/stats_calculator.py:98-108 | The points series holds one (round, team, aggregated points) record for each entry, in round order then entry order. |
| `Queries.PointsDataFrom` | code/stats_calculator.py:98-108 | Every record of the points series is the record of some entry of some round. |
| `Queries.SeriesLength` | code/stats_calculator.py:86-108 | Each series of a history has rows × teams records. |
| `Queries.ConsideredAll` | code/stats_calculator.py:117-118 | With no team named, the scan considers every entry. |
| `Queries.ConsideredEmpty` | code/stats_calculator.py:117-118 | The scan considers nothing exactly when no entry belongs to the named team. |
| `Queries.TrackStep` | code/stats_calculator.py:119-131 | One step with strict `>` and `<` keeps the running best at the first maximum so far, and the running worst at the first minimum so far. |
| `Queries.RunningTracks` | code/stats_calculator.py:114-131 | After the whole scan, the running best and worst are the first maximum and the first minimum of the entries considered, or unset when there are none. |
| `Queries.OutcomeReports` | code/stats_calculator.py:132-135 | If nothing was found, the answer is `(None, None)` when a team was named and the sentinels otherwise; if something was found, it is the pair of first extremes. |
| `Queries.ScanExtremes` | code/stats_calculator.py:110-135 | The scan loop reports the first maximum and first minimum of the considered entries, or the right empty answer. |
| `Queries.BestWorstRound` | code/stats_calculator.py:110-135 | Over the flattened history, the query reports the first best and first worst round of the considered entries. |
| `Queries.ReportsExtremesUnique` | code/stats_calculator.py:120-131 | The answer is determined: two answers that both report the extremes of the same entries are equal. |
| `Queries.OverallBestIsTeamBest` | code/stats_calculator.py:114-131 | The entry holding the overall best round is also the best round that team's own query finds. |
| `Scenarios.RankTwo` | code/stats_calculator.py:60-64 | With two entries, the second goes first only when its aggregated points are strictly higher. |
| `Scenarios.TieGoesToEarlierColumn` | code/stats_calculator.py:44-64 | In a two-team, two-round table, teams tied on aggregated points keep team-column order. |
| `Scenarios.MalformedSecondLabel` | code/stats_calculator.py:38 | A table whose second label has no number fails at row 1, even though its third label is empty as well. |
| `Scenarios.ThreeRoundsHistory` | code/stats_calculator.py:36-84 | Teams A and B score 10/0, -5/0 and 0/30 over "J1".."J3". The history has A ahead after rounds 1 and 2 and B ahead after round 3. |
| `Scenarios.ThreeRoundsBestWorst` | code/stats_calculator.py:110-135 | On that table's history, the unfiltered query finds B's 30 in round 3 and A's -5 in round 2. |
| `Scenarios.ThreeRoundsAbsentTeam` | code/stats_calculator.py:132-134 | On that table's history, naming a team that is not a column gives `(None, None)`. |

## Left out

- **JSON snapshot.** Writing `points_stats.json` under `BASE_DIR/generated_files` (lines 72-82) is file I/O, and it reads an environment variable, so it is not modelled. The file holds the rounds before the round sort, which `BuildRounds` models.
- **Construction.** Running the transformation eagerly in `__init__`, and `get_data_dict`, are not modelled separately. `get_data_dict` returns `Transform(t).value`.
- **Data frames.** Pandas data frames become plain sequences:
  - the table is a `Table` of team names and rows, and its first column is the label;
  - the two series are sequences of records.

  Column-header handling and duplicate column names are not modelled.
- **Label parsing.** Labels are read as ASCII decimal digits after the first character. Python's `int()` also accepts a sign, surrounding whitespace, underscores and non-ASCII digits. Those inputs are outside the model, which treats them as malformed.
- **Row index.** Line 48 slices with `dataframe.loc[:index, team]`, which goes by index label and includes the end. This is the inclusive row prefix `ColumnSum(t, c, i + 1)` only under pandas' default index 0..n-1, which `pd.read_csv` in `code/data_reader.py:24` gives. Custom, repeated or unordered index labels are not modelled.
- **Cell values.** Cells are taken to be integers. A missing cell (NaN) makes `int(round_points)` on line 53 raise at that row. With a float column, line 53 truncates each cell, but line 48 sums the untruncated values. Neither case is modelled.
- **Integer width.** Cells are unbounded integers. The 64-bit wrap-around a pandas column sum could hit is not modelled.
- **Infinities.** The `±inf` sentinels of the best/worst scan are modelled as an absent running extreme (`Option`). Their points value is never compared with anything after the scan.
- **Other files.** PDF conversion, chart drawing, data reading, the AI assistant and the program entry point are not part of this model.
- `Queries.PositionData`: the function's own contract states only the length. The facts about each index are `Queries.PositionDataAt` and `Queries.PositionDataFrom`.
- `Queries.PointsData`: the function's own contract states only the length. The facts about each index are `Queries.PointsDataAt` and `Queries.PointsDataFrom`.
