/**
 * The two dictionaries that ProcessTeamStatsAsync creates and updates in
 * place (Program.cs:115-116), with the foreach that folds one decoded record
 * list into them (Program.cs:125-168) and the loop that reads them back for
 * the report (Program.cs:173-184).
 */
module Accumulator {
  import opened Wrappers
  import opened Machine
  import opened Games
  import opened Aggregation
  import opened Reporting

  class TeamTotals {
    var teamPoints: map<Int32, Int32>
    var teamCodeToName: map<Int32, Option<string>>

    /** The abstract value of the two dictionaries. */
    function Abs(): Totals
      reads this
    {
      Totals(teamPoints, teamCodeToName)
    }

    /** Every team code with points also has a recorded name, and vice versa. */
    predicate Valid()
      reads this
    {
      teamPoints.Keys == teamCodeToName.Keys
    }

    constructor ()
      ensures Valid() && Abs() == EmptyTotals
    {
      teamPoints := map[];
      teamCodeToName := map[];
    }

    /**
     * The body of the foreach for one record whose visiting side is present
     * (Program.cs:136-161).
     */
    method FoldRecord(gameData: Game)
      requires gameData.visStats.Some?
      modifies this
      ensures Abs() == Credit(old(Abs()), gameData)
      ensures old(Valid()) ==> Valid()
    {
      var teamCode := gameData.visStats.value.teamCode;
      var teamScoreInGame := SelectScore(gameData, teamCode).value;
      if teamCode in teamPoints {
        teamPoints := teamPoints[teamCode := AddUnchecked(teamPoints[teamCode], teamScoreInGame)];
      } else {
        teamPoints := teamPoints[teamCode := teamScoreInGame];
      }
      if teamCode !in teamCodeToName {
        teamCodeToName := teamCodeToName[teamCode := gameData.visTeamName];
      }
    }

    /**
     * The foreach over `games` (Program.cs:134-162). A record with a null
     * visiting side throws at Program.cs:136: the loop ends there,
     * `completed` is false, and the records before it stay folded.
     */
    method FoldGames(games: seq<Game>) returns (completed: bool)
      modifies this
      ensures Abs() == ApplyGames(old(Abs()), games)
      ensures completed <==> Folded(games) == games
      ensures old(Valid()) ==> Valid()
      ensures FoldedByKey(old(Abs()), Abs(), games)
    {
      var i := 0;
      while i < |games|
        invariant 0 <= i <= |games|
        invariant forall j :: 0 <= j < i ==> games[j].visStats.Some?
        invariant Abs() == ApplyGames(old(Abs()), games[..i])
        invariant old(Valid()) ==> Valid()
      {
        if games[i].visStats.None? {
          // NullReferenceException: the rest of the list is skipped
          break;
        }
        FoldRecord(games[i]);
        ApplyOneMore(old(Abs()), games, i);
        i := i + 1;
      }
      completed := i == |games|;
      FoldEnds(old(Abs()), games, i);
      ClosedForms(old(Abs()), games);
    }

    /**
     * One team index's attempt (Program.cs:125-168): a failed fetch or decode
     * changes nothing, an empty list is skipped, otherwise the list is folded.
     */
    method ProcessResponse(response: Option<seq<Game>>)
      modifies this
      ensures Abs() == AfterResponse(old(Abs()), response)
      ensures old(Valid()) ==> Valid()
    {
      match response
      case None =>
      case Some(matchUpStats) =>
        if |matchUpStats| > 0 {
          var _ := FoldGames(matchUpStats);
        }
    }

    /** The report loop (Program.cs:173-184), collecting the blocks it prints. */
    method Report() returns (entries: seq<Entry>)
      ensures entries == ReportOf(Abs())
    {
      var sortedTeamCodes := SortTeamCodes(teamPoints.Keys);
      ghost var expected := ReportOf(Abs());
      ReportLength(Abs(), sortedTeamCodes);
      entries := [];
      for i := 0 to |sortedTeamCodes|
        invariant |entries| == i
        invariant forall j :: 0 <= j < i ==> entries[j] == expected[j]
      {
        var teamCode := sortedTeamCodes[i];
        ReportAt(Abs(), sortedTeamCodes, i);
        var teamName := if teamCode in teamCodeToName then teamCodeToName[teamCode] else Some(UnknownTeam);
        entries := entries + [Entry(teamCode, teamName, teamPoints[teamCode])];
      }
    }
  }

  /** Folding the record at index `i` extends the fold of the first `i` records. */
  lemma ApplyOneMore(t: Totals, games: seq<Game>, i: nat)
    requires i < |games|
    requires forall j :: 0 <= j <= i ==> games[j].visStats.Some?
    ensures ApplyGames(t, games[..i + 1]) == Credit(ApplyGames(t, games[..i]), games[i])
  {
    assert games[..i + 1] == games[..i] + [games[i]];
    ApplyAppend(t, games[..i], games[i]);
  }

  /** The foreach ends at index `i`, the first record whose visiting side is null, or the end of the list. */
  lemma FoldEnds(t: Totals, games: seq<Game>, i: nat)
    requires i <= |games|
    requires forall j :: 0 <= j < i ==> games[j].visStats.Some?
    requires i < |games| ==> games[i].visStats.None?
    ensures Folded(games) == games[..i]
    ensures ApplyGames(t, games[..i]) == ApplyGames(t, games)
    ensures Folded(games) == games <==> i == |games|
  {
    ApplyStopsAtNull(t, games);
  }

  /**
   * The fold of `games` took `before` to `after` at team code `c`: `c` has an
   * entry afterwards exactly when it had one before or a folded record is
   * visited by it; its total is the prior total (0 if absent) plus the sum of
   * its folded visiting scores, reduced to 32 bits; its name is the prior name
   * if there was one, else the visiting name of its first folded record.
   */
  ghost predicate FoldedAt(before: Totals, after: Totals, games: seq<Game>, c: Int32) {
    var f := Folded(games);
    && (c in after.points <==> c in before.points || c in CodesOf(f))
    && (c in after.names <==> c in before.names || c in CodesOf(f))
    && (c in after.points ==> after.points[c] == Wrap(PointsOr0(before.points, c) + SumVisScores(f, c)))
    && (c in after.names ==>
          after.names[c] == if c in before.names then before.names[c] else FirstName(f, c).value)
  }

  /** `FoldedAt` at every team code. */
  ghost predicate FoldedByKey(before: Totals, after: Totals, games: seq<Game>) {
    forall c :: FoldedAt(before, after, games, c)
  }

  lemma ClosedForms(t: Totals, games: seq<Game>)
    ensures FoldedByKey(t, ApplyGames(t, games), games)
    ensures t.points.Keys == t.names.Keys ==> ApplyGames(t, games).points.Keys == ApplyGames(t, games).names.Keys
  {
    forall c: Int32
      ensures FoldedAt(t, ApplyGames(t, games), games, c)
    {
      ApplyPoints(t, games, c);
      ApplyNames(t, games, c);
    }
    if t.points.Keys == t.names.Keys {
      ApplyKeepsKeysAligned(t, games);
    }
  }
}
