/**
 * The report at the end of ProcessTeamStatsAsync (Program.cs:172-184): the
 * team codes of `teamPoints` in ascending order, each with its name (or the
 * "Unknown Team" fallback) and its total.
 */
module Reporting {
  import opened Wrappers
  import opened Machine
  import opened Aggregation

  const UnknownTeam: string := "Unknown Team"

  /** One report block: team code, team name (null when the recorded name was null), total points. */
  datatype Entry = Entry(teamCode: Int32, teamName: Option<string>, totalPoints: Int32)

  predicate StrictlyAscending(s: seq<Int32>) {
    forall i, j :: 0 <= i < j < |s| ==> s[i] < s[j]
  }

  /** The smallest team code of a non-empty set. */
  ghost function Min(s: set<Int32>): (m: Int32)
    requires s != {}
    ensures m in s && forall x :: x in s ==> m <= x
    decreases s
  {
    var x :| x in s;
    if s - {x} == {} then
      assert forall y :: y in s && y != x ==> y in s - {x};
      x
    else
      var m := Min(s - {x});
      assert forall y :: y in s ==> y == x || y in s - {x};
      if x < m then x else m
  }

  /** The codes of `s` in the order `Keys.ToList()` followed by `Sort()` leaves them. */
  ghost function SortedKeys(s: set<Int32>): seq<Int32>
    decreases s
  {
    if s == {} then [] else [Min(s)] + SortedKeys(s - {Min(s)})
  }

  /** The sorted codes are the codes of the set, each exactly once, in strictly ascending order. */
  lemma SortedKeysSpec(s: set<Int32>)
    ensures StrictlyAscending(SortedKeys(s))
    ensures forall x :: x in SortedKeys(s) <==> x in s
    ensures |SortedKeys(s)| == |s|
  {
    SortedKeysMembers(s);
    SortedKeysLength(s);
    SortedKeysAscending(s);
  }

  lemma {:induction false} SortedKeysMembers(s: set<Int32>)
    ensures forall x :: x in SortedKeys(s) <==> x in s
    decreases s
  {
    if s != {} {
      SortedKeysMembers(s - {Min(s)});
    }
  }

  lemma {:induction false} SortedKeysLength(s: set<Int32>)
    ensures |SortedKeys(s)| == |s|
    decreases s
  {
    if s != {} {
      var m := Min(s);
      SortedKeysLength(s - {m});
      assert |s - {m}| == |s| - 1;
    }
  }

  lemma {:induction false} SortedKeysAscending(s: set<Int32>)
    ensures StrictlyAscending(SortedKeys(s))
    decreases s
  {
    if s != {} {
      var m := Min(s);
      var rest := SortedKeys(s - {m});
      SortedKeysAscending(s - {m});
      SortedKeysMembers(s - {m});
      assert SortedKeys(s) == [m] + rest;
      forall j | 0 <= j < |rest|
        ensures m < rest[j]
      {
        assert rest[j] in s - {m};
      }
    }
  }

  /** The block printed for team code `c` (Program.cs:178-182). */
  ghost function EntryFor(t: Totals, c: Int32): Entry
    requires c in t.points
  {
    Entry(c, if c in t.names then t.names[c] else Some(UnknownTeam), t.points[c])
  }

  /** The blocks for `codes`, in the order given. */
  ghost function Blocks(t: Totals, codes: seq<Int32>): seq<Entry>
    requires forall i :: 0 <= i < |codes| ==> codes[i] in t.points
  {
    if codes == [] then [] else [EntryFor(t, codes[0])] + Blocks(t, codes[1..])
  }

  lemma {:induction false} BlocksAt(t: Totals, codes: seq<Int32>)
    requires forall i :: 0 <= i < |codes| ==> codes[i] in t.points
    ensures |Blocks(t, codes)| == |codes|
    ensures forall i :: 0 <= i < |codes| ==> Blocks(t, codes)[i] == EntryFor(t, codes[i])
  {
    if codes != [] {
      BlocksAt(t, codes[1..]);
    }
  }

  /** The report for a state: the block of every team code, in sorted order. */
  ghost function ReportOf(t: Totals): seq<Entry>
  {
    SortedKeysSpec(t.points.Keys);
    Blocks(t, SortedKeys(t.points.Keys))
  }

  /** The report has one block per sorted code. */
  lemma ReportLength(t: Totals, codes: seq<Int32>)
    requires codes == SortedKeys(t.points.Keys)
    ensures |ReportOf(t)| == |codes|
  {
    SortedKeysSpec(t.points.Keys);
    BlocksAt(t, codes);
  }

  /** Block `i` of the report is the block of the `i`-th sorted code. */
  lemma ReportAt(t: Totals, codes: seq<Int32>, i: nat)
    requires codes == SortedKeys(t.points.Keys) && i < |codes|
    ensures codes[i] in t.points && i < |ReportOf(t)| && ReportOf(t)[i] == EntryFor(t, codes[i])
  {
    SortedKeysSpec(t.points.Keys);
    BlocksAt(t, codes);
  }

  /**
   * The report holds one block per key of `points`, in strictly ascending
   * order of team code, each with the accumulated total of its code and the
   * recorded name, or the fallback when the code has none; every key appears.
   */
  lemma ReportSpec(t: Totals)
    ensures |ReportOf(t)| == |t.points.Keys|
    ensures forall i, j :: 0 <= i < j < |ReportOf(t)| ==> ReportOf(t)[i].teamCode < ReportOf(t)[j].teamCode
    ensures forall i :: 0 <= i < |ReportOf(t)| ==>
      && ReportOf(t)[i].teamCode in t.points
      && ReportOf(t)[i].totalPoints == t.points[ReportOf(t)[i].teamCode]
      && ReportOf(t)[i].teamName ==
           (if ReportOf(t)[i].teamCode in t.names then t.names[ReportOf(t)[i].teamCode] else Some(UnknownTeam))
    ensures forall c :: c in t.points ==> exists i :: 0 <= i < |ReportOf(t)| && ReportOf(t)[i].teamCode == c
  {
    var codes := SortedKeys(t.points.Keys);
    SortedKeysSpec(t.points.Keys);
    BlocksAt(t, codes);
    forall c | c in t.points
      ensures exists i :: 0 <= i < |ReportOf(t)| && ReportOf(t)[i].teamCode == c
    {
      var i :| 0 <= i < |codes| && codes[i] == c;
      assert ReportOf(t)[i].teamCode == c;
    }
  }

  /**
   * When every team code with points also has a recorded name, the
   * "Unknown Team" fallback is never taken.
   */
  lemma ReportUsesRecordedNames(t: Totals)
    requires t.points.Keys == t.names.Keys
    ensures forall i :: 0 <= i < |ReportOf(t)| ==>
      ReportOf(t)[i].teamCode in t.names && ReportOf(t)[i].teamName == t.names[ReportOf(t)[i].teamCode]
  {
    ReportSpec(t);
  }

  /** An empty state gives an empty report. */
  lemma ReportOfEmpty(t: Totals)
    requires t.points == map[]
    ensures ReportOf(t) == []
  {
    ReportSpec(t);
  }

  /** The ascending codes of `keys` (Program.cs:173-174; the sort itself is the library's `List.Sort`). */
  method SortTeamCodes(keys: set<Int32>) returns (codes: seq<Int32>)
    ensures codes == SortedKeys(keys)
  {
    codes := [];
    var rest := keys;
    while rest != {}
      invariant codes + SortedKeys(rest) == SortedKeys(keys)
      decreases rest
    {
      ghost var least := Min(rest);
      var m :| m in rest && forall x :: x in rest ==> m <= x;
      assert m == least;
      assert SortedKeys(rest) == [m] + SortedKeys(rest - {m});
      codes := codes + [m];
      rest := rest - {m};
    }
  }
}
