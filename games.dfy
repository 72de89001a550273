/**
 * The decoded records that the aggregation reads (Program.cs:11-47).
 * Reference-typed members that JSON may leave null are `Option`s.
 */
module Games {
  import opened Wrappers
  import opened Machine

  /** One side of a matchup; only the two members the aggregation reads are kept. */
  datatype GameStats = GameStats(teamCode: Int32, score: Int32)

  /** One matchup: a visiting side and a home side. */
  datatype Game = Game(
    neutral: bool,
    visTeamName: Option<string>,
    visStats: Option<GameStats>,
    homeTeamName: Option<string>,
    homeStats: Option<GameStats>,
    isFinal: bool,
    date: Option<string>)

  /**
   * The score the visiting/home branch picks for `teamCode`; `None` when the
   * branch dereferences a null side (a NullReferenceException).
   */
  function SelectScore(g: Game, teamCode: Int32): (r: Option<Int32>)
    ensures r.None? <==>
      g.visStats.None? || (g.visStats.value.teamCode != teamCode && g.homeStats.None?)
    ensures r.Some? && g.visStats.value.teamCode == teamCode ==> r.value == g.visStats.value.score
    ensures r.Some? && g.visStats.value.teamCode != teamCode && g.homeStats.value.teamCode == teamCode
      ==> r.value == g.homeStats.value.score
    ensures r.Some? && g.visStats.value.teamCode != teamCode && g.homeStats.value.teamCode != teamCode
      ==> r.value == 0
  {
    match g.visStats
    case None => None
    case Some(vis) =>
      if vis.teamCode == teamCode then Some(vis.score)
      else match g.homeStats
        case None => None
        case Some(home) => if home.teamCode == teamCode then Some(home.score) else Some(0)
  }

  /**
   * The aggregation always asks for the visiting side's own code, so the first
   * branch is taken: the home side is never consulted, even when it is null.
   */
  lemma HomeBranchDead(g: Game)
    requires g.visStats.Some?
    ensures SelectScore(g, g.visStats.value.teamCode) == Some(g.visStats.value.score)
    ensures forall h :: SelectScore(g.(homeStats := h), g.visStats.value.teamCode) == Some(g.visStats.value.score)
  {
  }
}
