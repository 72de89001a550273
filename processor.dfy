/**
 * TeamStatsProcessor.ProcessTeamStatsAsync (Program.cs:113-185): one
 * attempt per team index 1..32, in order, each folded into the same two
 * dictionaries, then the report. The network GET and the JSON decode are the
 * parameter `network`, which maps a request URL to the decoded record list,
 * or to `None` when the GET, the read or the decode threw, or the decoded
 * wrapper or its list was null.
 */
module Processor {
  import opened Wrappers
  import opened Games
  import opened Aggregation
  import opened Reporting
  import opened Accumulator
  import opened Requests

  const TeamCount: nat := 32

  /** What the endpoint answers, per request URL, once decoded; a URL it has no answer for fails. */
  type Network = map<string, Option<seq<Game>>>

  /** The GET and decode for one URL. */
  function Fetch(network: Network, url: string): Option<seq<Game>> {
    if url in network then network[url] else None
  }

  /** The state after the attempts for team indices 1..n, in that order. */
  ghost function RunTeams(t: Totals, network: Network, n: nat): Totals
  {
    if n == 0 then t else AfterResponse(RunTeams(t, network, n - 1), Fetch(network, RequestUrl(n)))
  }

  /** The state the report is built from. */
  ghost function SeasonTotals(network: Network): Totals {
    RunTeams(EmptyTotals, network, TeamCount)
  }

  /**
   * The whole run. `requests` lists the URLs in the order they are fetched;
   * `report` lists the blocks in the order they are printed.
   */
  method ProcessTeamStats(network: Network) returns (requests: seq<string>, report: seq<Entry>)
    ensures requests == RequestsUpTo(TeamCount)
    ensures report == ReportOf(SeasonTotals(network))
    ensures SeasonTotals(network).points.Keys == SeasonTotals(network).names.Keys
  {
    var totals := new TeamTotals();
    requests := [];
    for teamNumber := 1 to TeamCount + 1
      invariant requests == RequestsUpTo(teamNumber - 1)
      invariant totals.Valid()
      invariant totals.Abs() == RunTeams(EmptyTotals, network, teamNumber - 1)
    {
      var requestUrl := RequestUrl(teamNumber);
      requests := requests + [requestUrl];
      totals.ProcessResponse(Fetch(network, requestUrl));
    }
    report := totals.Report();
  }

  /**
   * The attempts keep the two dictionaries on the same key set, so the
   * report never falls back to "Unknown Team": each block carries the name
   * recorded for its code.
   */
  lemma {:induction false} RunTeamsKeepsKeysAligned(t: Totals, network: Network, n: nat)
    requires t.points.Keys == t.names.Keys
    ensures RunTeams(t, network, n).points.Keys == RunTeams(t, network, n).names.Keys
  {
    if n > 0 {
      RunTeamsKeepsKeysAligned(t, network, n - 1);
      var response := Fetch(network, RequestUrl(n));
      if response.Some? && |response.value| > 0 {
        ApplyKeepsKeysAligned(RunTeams(t, network, n - 1), response.value);
      }
    }
  }

  lemma ReportNamesAreRecorded(network: Network)
    ensures forall i :: 0 <= i < |ReportOf(SeasonTotals(network))| ==>
      var e := ReportOf(SeasonTotals(network))[i];
      e.teamCode in SeasonTotals(network).names && e.teamName == SeasonTotals(network).names[e.teamCode]
  {
    RunTeamsKeepsKeysAligned(EmptyTotals, network, TeamCount);
    ReportUsesRecordedNames(SeasonTotals(network));
  }

  /** A response with nothing to fold: a failure, or an empty record list. */
  predicate NoRecords(response: Option<seq<Game>>) {
    response.None? || response == Some([])
  }

  /** Attempts that all fail or return no records leave the state as it was. */
  lemma {:induction false} RunTeamsWithoutRecords(t: Totals, network: Network, n: nat)
    requires forall k :: 1 <= k <= n ==> NoRecords(Fetch(network, RequestUrl(k)))
    ensures RunTeams(t, network, n) == t
  {
    if n > 0 {
      RunTeamsWithoutRecords(t, network, n - 1);
      ResponseEffect(t, Fetch(network, RequestUrl(n)));
    }
  }

  /** Empty season: when every attempt fails or returns no records, the report is empty. */
  lemma EmptySeason(network: Network)
    requires forall k :: 1 <= k <= TeamCount ==> NoRecords(Fetch(network, RequestUrl(k)))
    ensures ReportOf(SeasonTotals(network)) == []
  {
    RunTeamsWithoutRecords(EmptyTotals, network, TeamCount);
  }
}
