/**
 * The season-points fold of TeamStatsProcessor.ProcessTeamStatsAsync
 * (Program.cs:132-168), stated on values: `Totals` is the pair of
 * dictionaries `teamPoints` and `teamCodeToName`, `Credit` is one completed
 * iteration of the foreach, and `ApplyGames` is the whole foreach, which a
 * null visiting side stops without undoing the records already folded.
 */
module Aggregation {
  import opened Wrappers
  import opened Machine
  import opened Games

  /** The accumulated state: points per team code and the name recorded for it. */
  datatype Totals = Totals(points: map<Int32, Int32>, names: map<Int32, Option<string>>)

  const EmptyTotals := Totals(map[], map[])

  /** The total recorded for `c`, or 0 when there is no entry. */
  function PointsOr0(points: map<Int32, Int32>, c: Int32): int {
    if c in points then points[c] else 0
  }

  /**
   * One iteration of the foreach body for a record whose visiting side is
   * present (Program.cs:136-161): credit the visiting score to the visiting
   * team code, and record the visiting name unless the code already has one.
   */
  function Credit(t: Totals, g: Game): Totals
    requires g.visStats.Some?
  {
    var code := g.visStats.value.teamCode;
    Totals(
      t.points[code := Wrap(PointsOr0(t.points, code) + g.visStats.value.score)],
      if code in t.names then t.names else t.names[code := g.visTeamName])
  }

  /**
   * Crediting a record touches only the entries of its visiting team code:
   * both dictionaries gain that key, and every other entry is unchanged.
   */
  lemma CreditTouchesOnlyItsCode(t: Totals, g: Game)
    requires g.visStats.Some?
    ensures Credit(t, g).points.Keys == t.points.Keys + {g.visStats.value.teamCode}
    ensures Credit(t, g).names.Keys == t.names.Keys + {g.visStats.value.teamCode}
    ensures forall c :: c != g.visStats.value.teamCode && c in t.points ==> Credit(t, g).points[c] == t.points[c]
    ensures forall c :: c != g.visStats.value.teamCode && c in t.names ==> Credit(t, g).names[c] == t.names[c]
  {
  }

  /** The foreach over a record list: stops at the first null visiting side. */
  function ApplyGames(t: Totals, games: seq<Game>): Totals
    decreases games
  {
    if games == [] || games[0].visStats.None? then t
    else ApplyGames(Credit(t, games[0]), games[1..])
  }

  /** One attempt for one team index; `None` is a failed fetch or decode (Program.cs:125-168). */
  function AfterResponse(t: Totals, response: Option<seq<Game>>): Totals
  {
    match response
    case None => t
    case Some(games) => if |games| > 0 then ApplyGames(t, games) else t
  }

  /** The records the foreach completes: the longest prefix with a visiting side. */
  function Folded(games: seq<Game>): (r: seq<Game>)
    ensures |r| <= |games| && r == games[..|r|]
    ensures forall i :: 0 <= i < |r| ==> r[i].visStats.Some?
    ensures |r| < |games| ==> games[|r|].visStats.None?
  {
    if games == [] || games[0].visStats.None? then []
    else [games[0]] + Folded(games[1..])
  }

  /** The visiting score `g` contributes to team code `c`. */
  function Contribution(g: Game, c: Int32): int {
    if g.visStats.Some? && g.visStats.value.teamCode == c then g.visStats.value.score else 0
  }

  /** Exact (unbounded) sum of the visiting scores credited to `c`. */
  function SumVisScores(games: seq<Game>, c: Int32): int {
    if games == [] then 0 else Contribution(games[0], c) + SumVisScores(games[1..], c)
  }

  /** The visiting team codes that occur in `games`. */
  function CodesOf(games: seq<Game>): set<Int32> {
    if games == [] then {}
    else (if games[0].visStats.Some? then {games[0].visStats.value.teamCode} else {}) + CodesOf(games[1..])
  }

  /** The visiting name of the first record whose visiting code is `c`. */
  function FirstName(games: seq<Game>, c: Int32): (r: Option<Option<string>>)
    ensures r.Some? <==> c in CodesOf(games)
  {
    if games == [] then None
    else if games[0].visStats.Some? && games[0].visStats.value.teamCode == c then Some(games[0].visTeamName)
    else FirstName(games[1..], c)
  }

  lemma {:induction false} SumWithoutCode(games: seq<Game>, c: Int32)
    requires c !in CodesOf(games)
    ensures SumVisScores(games, c) == 0
  {
    if games != [] {
      SumWithoutCode(games[1..], c);
    }
  }

  /** A null visiting side ends the fold: only the records before it count. */
  lemma {:induction false} ApplyStopsAtNull(t: Totals, games: seq<Game>)
    ensures ApplyGames(t, games) == ApplyGames(t, Folded(games))
    decreases games
  {
    if games != [] && games[0].visStats.Some? {
      var f := Folded(games);
      assert f[0] == games[0] && f[1..] == Folded(games[1..]);
      ApplyStopsAtNull(Credit(t, games[0]), games[1..]);
    }
  }

  /** Folding one more record extends the fold by one Credit step. */
  lemma {:induction false} ApplyAppend(t: Totals, games: seq<Game>, g: Game)
    requires forall i :: 0 <= i < |games| ==> games[i].visStats.Some?
    requires g.visStats.Some?
    ensures ApplyGames(t, games + [g]) == Credit(ApplyGames(t, games), g)
    decreases games
  {
    if games == [] {
      assert [] + [g] == [g];
      assert [g][1..] == [];
    } else {
      assert (games + [g])[0] == games[0];
      assert (games + [g])[1..] == games[1..] + [g];
      ApplyAppend(Credit(t, games[0]), games[1..], g);
    }
  }

  /**
   * Sum by key: after the fold, team code `c` has an entry exactly when it
   * had one before or some folded record is visited by `c`, and its total is
   * the prior total (0 if absent) plus the sum of the visiting scores credited
   * to `c`, reduced to 32 bits as unchecked C# addition does.
   */
  lemma {:induction false} ApplyPoints(t: Totals, games: seq<Game>, c: Int32)
    ensures c in ApplyGames(t, games).points <==> c in t.points || c in CodesOf(Folded(games))
    ensures c in ApplyGames(t, games).points ==>
      ApplyGames(t, games).points[c] == Wrap(PointsOr0(t.points, c) + SumVisScores(Folded(games), c))
    decreases games
  {
    if games == [] || games[0].visStats.None? {
      assert Folded(games) == [];
      if c in t.points {
        assert Wrap(t.points[c] + 0) == t.points[c];
      }
    } else {
      var g, rest := games[0], games[1..];
      var r := ApplyGames(Credit(t, g), rest);
      assert ApplyGames(t, games) == r;
      FoldedCons(games, c);
      ApplyPoints(Credit(t, g), rest, c);
      CreditThenFold(t, g, r, c, CodesOf(Folded(rest)), SumVisScores(Folded(rest), c), SumVisScores(Folded(games), c));
    }
  }

  /**
   * The inductive step of ApplyPoints, stated on the state `r` the rest of
   * the fold reaches from `Credit(t, g)`: seen from `t`, the code of `g`
   * joins the codes of the rest and its score joins their sum.
   */
  lemma CreditThenFold(t: Totals, g: Game, r: Totals, c: Int32, codes: set<Int32>, later: int, total: int)
    requires g.visStats.Some?
    requires total == Contribution(g, c) + later
    requires c in r.points <==> c in Credit(t, g).points || c in codes
    requires c in r.points ==> r.points[c] == Wrap(PointsOr0(Credit(t, g).points, c) + later)
    ensures c in r.points <==> c in t.points || c in {g.visStats.value.teamCode} + codes
    ensures c in r.points ==> r.points[c] == Wrap(PointsOr0(t.points, c) + total)
  {
    CreditThenWrap(t, g, c, later, total);
  }

  /** How `Folded`, `CodesOf`, `SumVisScores` and `FirstName` unfold on a list whose first record is folded. */
  lemma FoldedCons(games: seq<Game>, c: Int32)
    requires games != [] && games[0].visStats.Some?
    ensures Folded(games) == [games[0]] + Folded(games[1..])
    ensures CodesOf(Folded(games)) == {games[0].visStats.value.teamCode} + CodesOf(Folded(games[1..]))
    ensures SumVisScores(Folded(games), c) == Contribution(games[0], c) + SumVisScores(Folded(games[1..]), c)
    ensures FirstName(Folded(games), c) ==
      if games[0].visStats.value.teamCode == c then Some(games[0].visTeamName) else FirstName(Folded(games[1..]), c)
  {
    var f := Folded(games);
    assert f[0] == games[0] && f[1..] == Folded(games[1..]);
  }

  /** Crediting one record and then adding `later` is one wrapped addition of both. */
  lemma CreditThenWrap(t: Totals, g: Game, c: Int32, later: int, total: int)
    requires g.visStats.Some?
    requires total == Contribution(g, c) + later
    ensures Wrap(PointsOr0(Credit(t, g).points, c) + later) == Wrap(PointsOr0(t.points, c) + total)
  {
    var prior := PointsOr0(t.points, c);
    if c == g.visStats.value.teamCode {
      var score := g.visStats.value.score;
      assert PointsOr0(Credit(t, g).points, c) == Wrap(prior + score);
      WrapAbsorbsWrap(prior + score, later);
      assert prior + score + later == prior + total;
    } else {
      assert PointsOr0(Credit(t, g).points, c) == prior;
      assert prior + later == prior + total;
    }
  }

  /**
   * First writer wins: after the fold, `c` has a name exactly when it had one
   * before or some folded record is visited by `c`; an existing name is kept,
   * and a new one is the visiting name of the first folded record for `c`.
   */
  lemma {:induction false} ApplyNames(t: Totals, games: seq<Game>, c: Int32)
    ensures c in ApplyGames(t, games).names <==> c in t.names || c in CodesOf(Folded(games))
    ensures c in ApplyGames(t, games).names ==>
      ApplyGames(t, games).names[c] == (if c in t.names then t.names[c] else FirstName(Folded(games), c).value)
    decreases games
  {
    if games == [] || games[0].visStats.None? {
      assert Folded(games) == [];
    } else {
      FoldedCons(games, c);
      ApplyNames(Credit(t, games[0]), games[1..], c);
    }
  }

  /** Nothing else changes: codes that no folded record is visited by keep their entries. */
  lemma ApplyKeepsOtherCodes(t: Totals, games: seq<Game>, c: Int32)
    requires c !in CodesOf(Folded(games))
    ensures c in ApplyGames(t, games).points <==> c in t.points
    ensures c in t.points ==> ApplyGames(t, games).points[c] == t.points[c]
    ensures c in ApplyGames(t, games).names <==> c in t.names
    ensures c in t.names ==> ApplyGames(t, games).names[c] == t.names[c]
  {
    ApplyPoints(t, games, c);
    ApplyNames(t, games, c);
    SumWithoutCode(Folded(games), c);
  }

  /** Both dictionaries gain the same keys, so they keep having the same key set. */
  lemma ApplyKeepsKeysAligned(t: Totals, games: seq<Game>)
    requires t.points.Keys == t.names.Keys
    ensures ApplyGames(t, games).points.Keys == ApplyGames(t, games).names.Keys
  {
    forall c | c in ApplyGames(t, games).points || c in ApplyGames(t, games).names
      ensures c in ApplyGames(t, games).points <==> c in ApplyGames(t, games).names
    {
      ApplyPoints(t, games, c);
      ApplyNames(t, games, c);
    }
  }

  /**
   * A failed fetch or decode, or an empty record list, leaves both
   * dictionaries as they were; a record list that stops at a null visiting
   * side keeps what the records before it folded.
   */
  lemma ResponseEffect(t: Totals, response: Option<seq<Game>>)
    ensures response.None? || response == Some([]) ==> AfterResponse(t, response) == t
    ensures response.Some? ==> AfterResponse(t, response) == ApplyGames(t, Folded(response.value))
  {
    if response.Some? {
      ApplyStopsAtNull(t, response.value);
    }
  }
}
