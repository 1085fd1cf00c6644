/**
 Read-only queries over a standings history: the two flat projections
 handed to the charts, and the best/worst single-round scan.

 All three walk the history in the same order: round by round, and within
 a round entry by entry. `Flatten` is that walk.
 */
module Queries {
  import opened Wrappers
  import opened Standings

  /** One entry of the history together with its round's number. */
  datatype Slot = Slot(round: int, entry: Entry)

  /** One record of the position series. */
  datatype PositionRecord = PositionRecord(round: int, player: string, position: nat)

  /** One record of the aggregated-points series. */
  datatype PointsRecord = PointsRecord(round: int, player: string, aggregatedPoints: int)

  // ---------------------------------------------------------------------
  // The scan order
  // ---------------------------------------------------------------------

  /** The total number of entries over all rounds. */
  function EntryCount(h: seq<Round>): nat {
    if |h| == 0 then 0 else |h[0].entries| + EntryCount(h[1..])
  }

  /** Where round `i`'s entries start in the scan: the entries of the rounds before it. */
  function Offset(h: seq<Round>, i: nat): nat
    requires i <= |h|
  {
    EntryCount(h[..i])
  }

  function SlotsOf(number: int, es: seq<Entry>): (r: seq<Slot>)
    ensures |r| == |es|
    ensures forall j :: 0 <= j < |r| ==> r[j] == Slot(number, es[j])
  {
    if |es| == 0 then [] else [Slot(number, es[0])] + SlotsOf(number, es[1..])
  }

  /** Every entry of the history, round by round, in list order within a round. */
  function Flatten(h: seq<Round>): (r: seq<Slot>)
    ensures |r| == EntryCount(h)
  {
    if |h| == 0 then [] else SlotsOf(h[0].number, h[0].entries) + Flatten(h[1..])
  }

  lemma OffsetTail(h: seq<Round>, i: nat)
    requires 0 < i <= |h|
    ensures Offset(h, i) == |h[0].entries| + Offset(h[1..], i - 1)
  {
    assert h[..i][1..] == h[1..][..i - 1];
  }

  /** Round `i`'s entries follow directly after the entries of the rounds before it. */
  lemma {:induction false} OffsetStep(h: seq<Round>, i: nat)
    requires i < |h|
    ensures Offset(h, i + 1) == Offset(h, i) + |h[i].entries|
  {
    if i == 0 {
      assert h[..1][1..] == [];
    } else {
      OffsetTail(h, i);
      OffsetTail(h, i + 1);
      OffsetStep(h[1..], i - 1);
    }
  }

  /** The scan visits entry `j` of round `i` at position `Offset(h, i) + j`. */
  lemma {:induction false} FlattenAt(h: seq<Round>, i: nat, j: nat)
    requires i < |h| && j < |h[i].entries|
    ensures Offset(h, i) + j < |Flatten(h)|
    ensures Flatten(h)[Offset(h, i) + j] == Slot(h[i].number, h[i].entries[j])
  {
    var head := SlotsOf(h[0].number, h[0].entries);
    if i == 0 {
      assert h[..0] == [];
    } else {
      OffsetTail(h, i);
      FlattenAt(h[1..], i - 1, j);
    }
  }

  /** Every position of the scan holds some round's entry, found at that entry's own scan position. */
  lemma {:induction false} FlattenSource(h: seq<Round>, k: nat) returns (i: nat, j: nat)
    requires k < |Flatten(h)|
    ensures i < |h| && j < |h[i].entries| && k == Offset(h, i) + j
    ensures Flatten(h)[k] == Slot(h[i].number, h[i].entries[j])
  {
    if k < |h[0].entries| {
      FlattenAt(h, 0, k);
      assert h[..0] == [];
      i, j := 0, k;
    } else {
      var i', j' := FlattenSource(h[1..], k - |h[0].entries|);
      OffsetTail(h, i' + 1);
      FlattenAt(h, i' + 1, j');
      i, j := i' + 1, j';
    }
  }

  // ---------------------------------------------------------------------
  // Projections
  // ---------------------------------------------------------------------

  /** The position record of one entry of round `number`. */
  function PositionOf(number: int, e: Entry): PositionRecord {
    PositionRecord(number, e.team, e.position)
  }

  /** The points record of one entry of round `number`. */
  function PointsOf(number: int, e: Entry): PointsRecord {
    PointsRecord(number, e.team, e.aggregatedPoints)
  }

  function PositionRecords(s: seq<Slot>): (r: seq<PositionRecord>)
    ensures |r| == |s|
    ensures forall k :: 0 <= k < |r| ==>
      r[k] == PositionOf(s[k].round, s[k].entry)
  {
    if |s| == 0 then []
    else [PositionOf(s[0].round, s[0].entry)] + PositionRecords(s[1..])
  }

  function PointsRecords(s: seq<Slot>): (r: seq<PointsRecord>)
    ensures |r| == |s|
    ensures forall k :: 0 <= k < |r| ==>
      r[k] == PointsOf(s[k].round, s[k].entry)
  {
    if |s| == 0 then []
    else [PointsOf(s[0].round, s[0].entry)] + PointsRecords(s[1..])
  }

  /**
   The (round, team, position) series: one record per entry, in history
   order, each copying its round number, team and position.
   */
  function PositionData(h: seq<Round>): (r: seq<PositionRecord>)
    ensures |r| == EntryCount(h)
  {
    PositionRecords(Flatten(h))
  }

  /** Entry `j` of round `i` is listed at its scan position. */
  lemma PositionDataAt(h: seq<Round>, i: nat, j: nat)
    requires i < |h| && j < |h[i].entries|
    ensures Offset(h, i) + j < |PositionData(h)|
    ensures PositionData(h)[Offset(h, i) + j] == PositionOf(h[i].number, h[i].entries[j])
  {
    FlattenAt(h, i, j);
  }

  /** Every record of the series is the record of some entry, at that entry's scan position. */
  lemma PositionDataFrom(h: seq<Round>, k: nat)
    requires k < |PositionData(h)|
    ensures exists i, j :: (0 <= i < |h| && 0 <= j < |h[i].entries| &&
      k == Offset(h, i) + j && PositionData(h)[k] == PositionOf(h[i].number, h[i].entries[j]))
  {
    var i, j := FlattenSource(h, k);
    assert PositionData(h)[k] == PositionOf(h[i].number, h[i].entries[j]);
  }

  /**
   The (round, team, aggregated points) series: one record per entry, in
   history order, each copying its round number, team and aggregated points.
   */
  function PointsData(h: seq<Round>): (r: seq<PointsRecord>)
    ensures |r| == EntryCount(h)
  {
    PointsRecords(Flatten(h))
  }

  /** Entry `j` of round `i` is listed at its scan position. */
  lemma PointsDataAt(h: seq<Round>, i: nat, j: nat)
    requires i < |h| && j < |h[i].entries|
    ensures Offset(h, i) + j < |PointsData(h)|
    ensures PointsData(h)[Offset(h, i) + j] == PointsOf(h[i].number, h[i].entries[j])
  {
    FlattenAt(h, i, j);
  }

  /** Every record of the series is the record of some entry, at that entry's scan position. */
  lemma PointsDataFrom(h: seq<Round>, k: nat)
    requires k < |PointsData(h)|
    ensures exists i, j :: (0 <= i < |h| && 0 <= j < |h[i].entries| &&
      k == Offset(h, i) + j && PointsData(h)[k] == PointsOf(h[i].number, h[i].entries[j]))
  {
    var i, j := FlattenSource(h, k);
    assert PointsData(h)[k] == PointsOf(h[i].number, h[i].entries[j]);
  }

  /** When every round lists `k` entries, the history holds `|h| * k` entries. */
  lemma {:induction false} EntryCountUniform(h: seq<Round>, k: nat)
    requires forall i :: 0 <= i < |h| ==> |h[i].entries| == k
    ensures EntryCount(h) == |h| * k
  {
    if |h| > 0 {
      EntryCountUniform(h[1..], k);
    }
  }

  /**
   Both series of a table's history hold one record per team and input
   row.
   */
  lemma SeriesLength(t: Table)
    requires WellFormed(t) && Transform(t).Success?
    ensures |PositionData(Transform(t).value)| == |t.rows| * |t.teams|
    ensures |PointsData(Transform(t).value)| == |t.rows| * |t.teams|
  {
    var h := Transform(t).value;
    forall i | 0 <= i < |h|
      ensures |h[i].entries| == |t.teams|
    {
      HistoryIsRanked(t, h[i]);
    }
    EntryCountUniform(h, |t.teams|);
  }

  // ---------------------------------------------------------------------
  // Best and worst single round
  // ---------------------------------------------------------------------

  /** A round result as the query reports it. */
  datatype Extreme = Extreme(player: string, roundNumber: int, points: int)

  /**
   The query's answer: both extremes; `Missing` when a team was named and
   none of its entries was found (the pair of `None`s); `Unset` when no team
   was named and the history has no entries (the two records keep their
   unset player and infinite sentinel points).
   */
  datatype BestWorst = Found(best: Extreme, worst: Extreme) | Missing | Unset

  function ExtremeOf(s: Slot): Extreme {
    Extreme(s.entry.team, s.round, s.entry.roundPoints)
  }

  /** The entry takes part in the scan: no team was named, or it is that team's. */
  predicate Matches(player: Option<string>, s: Slot) {
    player.None? || s.entry.team == player.value
  }

  /** The entries the scan takes into account, in scan order. */
  function Considered(s: seq<Slot>, player: Option<string>): (r: seq<Slot>)
    ensures |r| <= |s|
  {
    if |s| == 0 then []
    else if Matches(player, s[0]) then [s[0]] + Considered(s[1..], player)
    else Considered(s[1..], player)
  }

  /** Without a team filter every entry is considered. */
  lemma {:induction false} ConsideredAll(s: seq<Slot>)
    ensures Considered(s, None) == s
  {
    if |s| > 0 {
      ConsideredAll(s[1..]);
      assert s == [s[0]] + s[1..];
    }
  }

  lemma {:induction false} ConsideredSnoc(s: seq<Slot>, i: nat, player: Option<string>)
    requires i < |s|
    ensures Considered(s[..i + 1], player) ==
      Considered(s[..i], player) + (if Matches(player, s[i]) then [s[i]] else [])
    decreases i
  {
    if i > 0 {
      ConsideredSnoc(s[1..], i - 1, player);
      assert s[..i + 1][1..] == s[1..][..i];
      assert s[..i][1..] == s[1..][..i - 1];
    }
  }

  /** A bound on the points of every entry also bounds the considered ones. */
  lemma {:induction false} ConsideredAtMost(s: seq<Slot>, player: Option<string>, bound: int)
    requires forall m :: 0 <= m < |s| ==> s[m].entry.roundPoints <= bound
    ensures forall m :: 0 <= m < |Considered(s, player)| ==> Considered(s, player)[m].entry.roundPoints <= bound
  {
    if |s| > 0 {
      ConsideredAtMost(s[1..], player, bound);
    }
  }

  /** Nothing is considered exactly when no entry belongs to the named team. */
  lemma {:induction false} ConsideredEmpty(s: seq<Slot>, player: Option<string>)
    ensures Considered(s, player) == [] <==> forall m :: 0 <= m < |s| ==> !Matches(player, s[m])
  {
    if |s| > 0 {
      ConsideredEmpty(s[1..], player);
      assert forall m :: 1 <= m < |s| ==> s[m] == s[1..][m - 1];
    }
  }

  /** `c[k]` has the most points, and every earlier entry has strictly fewer. */
  ghost predicate IsFirstMax(c: seq<Slot>, k: int) {
    && 0 <= k < |c|
    && (forall m :: 0 <= m < k ==> c[m].entry.roundPoints < c[k].entry.roundPoints)
    && (forall m :: k < m < |c| ==> c[m].entry.roundPoints <= c[k].entry.roundPoints)
  }

  /** `c[k]` has the fewest points, and every earlier entry has strictly more. */
  ghost predicate IsFirstMin(c: seq<Slot>, k: int) {
    && 0 <= k < |c|
    && (forall m :: 0 <= m < k ==> c[m].entry.roundPoints > c[k].entry.roundPoints)
    && (forall m :: k < m < |c| ==> c[m].entry.roundPoints >= c[k].entry.roundPoints)
  }

  /** Appending one entry keeps the first maximum unless the entry beats it strictly. */
  lemma FirstMaxSnoc(c: seq<Slot>, k: int, x: Slot)
    requires |c| == 0 || IsFirstMax(c, k)
    ensures |c| == 0 || x.entry.roundPoints > c[k].entry.roundPoints ==> IsFirstMax(c + [x], |c|)
    ensures |c| > 0 && x.entry.roundPoints <= c[k].entry.roundPoints ==> IsFirstMax(c + [x], k)
  {
  }

  /** Appending one entry keeps the first minimum unless the entry undercuts it strictly. */
  lemma FirstMinSnoc(c: seq<Slot>, k: int, x: Slot)
    requires |c| == 0 || IsFirstMin(c, k)
    ensures |c| == 0 || x.entry.roundPoints < c[k].entry.roundPoints ==> IsFirstMin(c + [x], |c|)
    ensures |c| > 0 && x.entry.roundPoints >= c[k].entry.roundPoints ==> IsFirstMin(c + [x], k)
  {
  }

  /** The running best after one more considered entry: replaced only by strictly more points. */
  function BestAfter(best: Option<Extreme>, x: Slot): Option<Extreme> {
    if best.None? || x.entry.roundPoints > best.value.points then Some(ExtremeOf(x)) else best
  }

  /** The running worst after one more considered entry: replaced only by strictly fewer points. */
  function WorstAfter(worst: Option<Extreme>, x: Slot): Option<Extreme> {
    if worst.None? || x.entry.roundPoints < worst.value.points then Some(ExtremeOf(x)) else worst
  }

  /** The running best and worst are the first maximum and first minimum of `c`, once `c` is not empty. */
  ghost predicate Tracks(c: seq<Slot>, best: Option<Extreme>, worst: Option<Extreme>) {
    && (best.None? <==> |c| == 0)
    && (worst.None? <==> |c| == 0)
    && (best.Some? ==> exists k {:trigger IsFirstMax(c, k)} :: IsFirstMax(c, k) && best.value == ExtremeOf(c[k]))
    && (worst.Some? ==> exists k {:trigger IsFirstMin(c, k)} :: IsFirstMin(c, k) && worst.value == ExtremeOf(c[k]))
  }

  /** One step of the scan keeps the running best and worst right. */
  lemma TrackStep(c: seq<Slot>, best: Option<Extreme>, worst: Option<Extreme>, x: Slot)
    requires Tracks(c, best, worst)
    ensures Tracks(c + [x], BestAfter(best, x), WorstAfter(worst, x))
  {
    var bi := 0;
    var wi := 0;
    if best.Some? {
      bi :| IsFirstMax(c, bi) && best.value == ExtremeOf(c[bi]);
    }
    if worst.Some? {
      wi :| IsFirstMin(c, wi) && worst.value == ExtremeOf(c[wi]);
    }
    FirstMaxSnoc(c, bi, x);
    FirstMinSnoc(c, wi, x);
    var c' := c + [x];
    if best.None? || x.entry.roundPoints > best.value.points {
      assert IsFirstMax(c', |c|) && ExtremeOf(x) == ExtremeOf(c'[|c|]);
    } else {
      assert IsFirstMax(c', bi) && best.value == ExtremeOf(c'[bi]);
    }
    if worst.None? || x.entry.roundPoints < worst.value.points {
      assert IsFirstMin(c', |c|) && ExtremeOf(x) == ExtremeOf(c'[|c|]);
    } else {
      assert IsFirstMin(c', wi) && worst.value == ExtremeOf(c'[wi]);
    }
  }

  /** The running best and worst of the scan. */
  datatype Running = Running(best: Option<Extreme>, worst: Option<Extreme>)

  /** The running best and worst once the scan has passed every entry of `s`. */
  function RunningAfter(s: seq<Slot>, player: Option<string>): Running
    decreases |s|
  {
    if |s| == 0 then Running(None, None)
    else
      var prev := RunningAfter(s[..|s| - 1], player);
      var x := s[|s| - 1];
      if Matches(player, x) then Running(BestAfter(prev.best, x), WorstAfter(prev.worst, x))
      else prev
  }

  /** After any prefix of the scan, the running best and worst are right for the entries considered so far. */
  lemma {:induction false} RunningTracks(s: seq<Slot>, player: Option<string>)
    ensures Tracks(Considered(s, player), RunningAfter(s, player).best, RunningAfter(s, player).worst)
    decreases |s|
  {
    if |s| > 0 {
      var n := |s| - 1;
      var prev := RunningAfter(s[..n], player);
      var c := Considered(s[..n], player);
      RunningTracks(s[..n], player);
      ConsideredSnoc(s, n, player);
      assert s[..n + 1] == s;
      if Matches(player, s[n]) {
        TrackStep(c, prev.best, prev.worst, s[n]);
        assert Considered(s, player) == c + [s[n]];
        assert RunningAfter(s, player) == Running(BestAfter(prev.best, s[n]), WorstAfter(prev.worst, s[n]));
      } else {
        assert Considered(s, player) == c;
        assert RunningAfter(s, player) == prev;
      }
    }
  }

  /**
   The answer from the final running best and worst: with a team named and
   nothing found, the pair of `None`s; with no team named and nothing
   found, the unset sentinel records.
   */
  function Outcome(best: Option<Extreme>, worst: Option<Extreme>, player: Option<string>): BestWorst {
    if best.Some? && worst.Some? then Found(best.value, worst.value)
    else if player.Some? then Missing
    else Unset
  }

  /**
   `r` answers the query over the considered entries `c`: found exactly when
   `c` is not empty, and then the first entry with the most points and the
   first entry with the fewest.
   */
  ghost predicate ReportsExtremes(r: BestWorst, c: seq<Slot>, player: Option<string>) {
    && (r.Found? <==> |c| > 0)
    && (|c| == 0 ==> r == if player.Some? then Missing else Unset)
    && (r.Found? ==> exists k {:trigger IsFirstMax(c, k)} :: IsFirstMax(c, k) && r.best == ExtremeOf(c[k]))
    && (r.Found? ==> exists k {:trigger IsFirstMin(c, k)} :: IsFirstMin(c, k) && r.worst == ExtremeOf(c[k]))
  }

  /** The final running best and worst make the answer `ReportsExtremes` asks for. */
  lemma OutcomeReports(c: seq<Slot>, best: Option<Extreme>, worst: Option<Extreme>, player: Option<string>)
    requires Tracks(c, best, worst)
    ensures ReportsExtremes(Outcome(best, worst, player), c, player)
  {
  }

  /**
   Best and worst single-round points, over every entry or only the named
   team's. A later entry replaces the running extreme only when strictly
   better (or worse), so each answer is the first entry reaching its value.
   */
  method BestWorstRound(h: seq<Round>, player: Option<string>) returns (r: BestWorst)
    ensures ReportsExtremes(r, Considered(Flatten(h), player), player)
  {
    r := ScanExtremes(Flatten(h), player);
  }

  /** The scan behind `BestWorstRound`, over the entries in scan order. */
  method ScanExtremes(slots: seq<Slot>, player: Option<string>) returns (r: BestWorst)
    ensures ReportsExtremes(r, Considered(slots, player), player)
  {
    var best: Option<Extreme> := None;
    var worst: Option<Extreme> := None;
    var i := 0;
    while i < |slots|
      invariant 0 <= i <= |slots|
      invariant Running(best, worst) == RunningAfter(slots[..i], player)
    {
      var s := slots[i];
      assert slots[..i + 1][..i] == slots[..i];
      if Matches(player, s) {
        best := BestAfter(best, s);
        worst := WorstAfter(worst, s);
      }
      i := i + 1;
    }
    assert slots[..i] == slots;
    RunningTracks(slots, player);
    OutcomeReports(Considered(slots, player), best, worst, player);
    r := Outcome(best, worst, player);
  }

  /** The scan's answer is determined: two answers meeting `ReportsExtremes` are the same. */
  lemma ReportsExtremesUnique(r1: BestWorst, r2: BestWorst, c: seq<Slot>, player: Option<string>)
    requires ReportsExtremes(r1, c, player) && ReportsExtremes(r2, c, player)
    ensures r1 == r2
  {
    if r1.Found? {
      var b1 :| IsFirstMax(c, b1) && r1.best == ExtremeOf(c[b1]);
      var b2 :| IsFirstMax(c, b2) && r2.best == ExtremeOf(c[b2]);
      var w1 :| IsFirstMin(c, w1) && r1.worst == ExtremeOf(c[w1]);
      var w2 :| IsFirstMin(c, w2) && r2.worst == ExtremeOf(c[w2]);
      FirstMaxUnique(c, b1, b2);
      FirstMinUnique(c, w1, w2);
    }
  }

  /** A sequence has one first maximum. */
  lemma FirstMaxUnique(c: seq<Slot>, k1: int, k2: int)
    requires IsFirstMax(c, k1) && IsFirstMax(c, k2)
    ensures k1 == k2
  {
    var p1, p2 := c[k1].entry.roundPoints, c[k2].entry.roundPoints;
    assert k1 < k2 ==> p1 < p2;
    assert k2 < k1 ==> p2 < p1;
  }

  /** A sequence has one first minimum. */
  lemma FirstMinUnique(c: seq<Slot>, k1: int, k2: int)
    requires IsFirstMin(c, k1) && IsFirstMin(c, k2)
    ensures k1 == k2
  {
    var p1, p2 := c[k1].entry.roundPoints, c[k2].entry.roundPoints;
    assert k1 < k2 ==> p1 > p2;
    assert k2 < k1 ==> p2 > p1;
  }

  /** A first maximum past the head is one of the tail, and beats the head strictly. */
  lemma FirstMaxTail(s: seq<Slot>, k: int)
    requires IsFirstMax(s, k) && k > 0
    ensures IsFirstMax(s[1..], k - 1) && s[1..][k - 1] == s[k]
    ensures s[0].entry.roundPoints < s[k].entry.roundPoints
  {
  }

  /** Putting an entry with strictly fewer points in front keeps the first maximum. */
  lemma FirstMaxCons(x: Slot, c: seq<Slot>, k: int)
    requires IsFirstMax(c, k) && x.entry.roundPoints < c[k].entry.roundPoints
    ensures IsFirstMax([x] + c, k + 1) && ([x] + c)[k + 1] == c[k]
  {
  }

  /** A head no other entry beats is the first maximum. */
  lemma FirstMaxHead(x: Slot, c: seq<Slot>)
    requires forall m :: 0 <= m < |c| ==> c[m].entry.roundPoints <= x.entry.roundPoints
    ensures IsFirstMax([x] + c, 0) && ([x] + c)[0] == x
  {
  }

  /** The considered entries of a non-empty scan, split after its first entry. */
  lemma ConsideredCons(s: seq<Slot>, player: Option<string>)
    requires |s| > 0
    ensures Considered(s, player) ==
      (if Matches(player, s[0]) then [s[0]] else []) + Considered(s[1..], player)
  {
  }

  /**
   The entry holding the overall best round is also its own team's best
   round: filtering the scan to that team finds the same entry first.
   */
  lemma {:induction false} OverallBestIsTeamBest(s: seq<Slot>, k: nat)
    requires IsFirstMax(s, k)
    ensures var c := Considered(s, Some(s[k].entry.team));
      exists k' :: IsFirstMax(c, k') && c[k'] == s[k]
    decreases |s|
  {
    var team := Some(s[k].entry.team);
    var c := Considered(s, team);
    var rest := Considered(s[1..], team);
    ConsideredCons(s, team);
    if k == 0 {
      assert c == [s[0]] + rest;
      ConsideredAtMost(s[1..], team, s[0].entry.roundPoints);
      FirstMaxHead(s[0], rest);
      assert IsFirstMax(c, 0) && c[0] == s[k];
    } else {
      FirstMaxTail(s, k);
      OverallBestIsTeamBest(s[1..], k - 1);
      var k2 :| IsFirstMax(rest, k2) && rest[k2] == s[k];
      if Matches(team, s[0]) {
        assert c == [s[0]] + rest;
        FirstMaxCons(s[0], rest, k2);
        assert IsFirstMax(c, k2 + 1) && c[k2 + 1] == s[k];
      } else {
        assert c == rest;
        assert IsFirstMax(c, k2) && c[k2] == s[k];
      }
    }
  }
}
