/**
  The `/api/slate` endpoint (`get_slate` in app.py) end to end: the slate
  is parsed, player links are discovered, one result row is built per slate
  entry, and the rows are arranged for display. The Underdog slate and the
  current day are inputs.
*/
module Endpoint {
  import opened Wrappers
  import opened Seqs
  import opened Text
  import opened Pages
  import opened Slate
  import opened Merger
  import opened Discovery
  import opened Grouping

  /** The message of the early answer to an empty slate. */
  const NO_PLAYERS: string := "No players found on Underdog. " + "Please check Underdog website for more details."

  /** The JSON answer: the early one for an empty slate, or `players`,
      `match_teams`, `match_url` and `players_by_match`. */
  datatype Response =
    | NoPlayers(message: string)
    | Report(players: seq<ResultRow>, matchTeams: seq<string>, matchUrl: Option<string>, byMatch: seq<MatchGroup>)

  /** `match_url if use_match_link and match_url else None`. */
  function ShownUrl(found: Discovered, matchUrl: string): Option<string> {
    if found.useMatchLink && matchUrl != "" then Some(matchUrl) else None
  }

  /** The answer for a slate, the raw `match_url` argument and the day. */
  function SlateResponse(web: Web, slate: seq<SlateItem>, matchArg: string, today: Day): Response {
    if slate == [] then NoPlayers(NO_PLAYERS)
    else
      var matchUrl := Strip(matchArg);
      var info := SlateEntries(slate);
      var found := Discover(web, info, matchUrl, today);
      var results := Results(web, info, found.linkMap, found.useMatchLink);
      Report(results, found.matchTeams, ShownUrl(found, matchUrl),
             PlayersByMatch(results, found.matchesInfo, found.matchTeams))
  }

  /** `get_slate`, step by step. */
  method GetSlate(web: Web, slate: seq<SlateItem>, matchArg: string, today: Day) returns (r: Response)
    ensures r == SlateResponse(web, slate, matchArg, today)
  {
    var matchUrl := Strip(matchArg);
    if |slate| == 0 {
      return NoPlayers(NO_PLAYERS);
    }
    var info := ParseSlate(slate);
    var found := DiscoverLinks(web, info, matchUrl, today);
    var results := BuildResults(web, info, found.linkMap, found.useMatchLink);
    var byMatch := ArrangePlayers(results, found.matchesInfo, found.matchTeams);
    var shown := if found.useMatchLink && matchUrl != "" then Some(matchUrl) else None;
    r := Report(results, found.matchTeams, shown, byMatch);
  }

  // ---------------------------------------------------------------------
  // Properties
  // ---------------------------------------------------------------------

  /** The early answer comes exactly for an empty slate; otherwise there is
      one row per kills line of the slate, for that line's player and line,
      in slate order; a match url is shown only when it was given, is the
      stripped argument, and the link method was used. */
  lemma ResponseRows(web: Web, slate: seq<SlateItem>, matchArg: string, today: Day, i: nat)
    ensures SlateResponse(web, slate, matchArg, today).NoPlayers? <==> slate == []
    ensures SlateResponse(web, slate, matchArg, today).Report? ==>
      |SlateResponse(web, slate, matchArg, today).players| == |SlateEntries(slate)|
    ensures SlateResponse(web, slate, matchArg, today).Report? && i < |SlateEntries(slate)| ==>
      SlateResponse(web, slate, matchArg, today).players[i].player == SlateEntries(slate)[i].player &&
      SlateResponse(web, slate, matchArg, today).players[i].line == SlateEntries(slate)[i].line
    ensures SlateResponse(web, slate, matchArg, today).Report? && SlateResponse(web, slate, matchArg, today).matchUrl.Some? ==>
      SlateResponse(web, slate, matchArg, today).matchUrl.value == Strip(matchArg) && Strip(matchArg) != "" &&
      Discover(web, SlateEntries(slate), Strip(matchArg), today).linkMap != []
  {
    if slate != [] {
      var matchUrl := Strip(matchArg);
      var info := SlateEntries(slate);
      var found := Discover(web, info, matchUrl, today);
      DiscoverProperties(web, info, matchUrl, today);
      if i < |info| {
        ResultsOnePerEntry(web, info, found.linkMap, found.useMatchLink, i);
      }
    }
  }

  /** When discovery found matches or the single match's teams, every
      distinct non-empty player name of the rows appears in exactly one
      group, and no other name does. */
  lemma ResponseGroupsOnce(web: Web, slate: seq<SlateItem>, matchArg: string, today: Day)
    requires slate != []
    requires |Discover(web, SlateEntries(slate), Strip(matchArg), today).matchesInfo| > 0 ||
             |Discover(web, SlateEntries(slate), Strip(matchArg), today).matchTeams| >= 2
    ensures SlateResponse(web, slate, matchArg, today).Report?
    ensures NoDuplicates(GroupKeys(SlateResponse(web, slate, matchArg, today).byMatch))
    ensures var r := SlateResponse(web, slate, matchArg, today);
      forall n :: multiset(Placed(r.byMatch))[n] == if n in NamesIn(r.players) then 1 else 0
  {
    var matchUrl := Strip(matchArg);
    var info := SlateEntries(slate);
    var found := Discover(web, info, matchUrl, today);
    var results := Results(web, info, found.linkMap, found.useMatchLink);
    if |found.matchesInfo| > 0 {
      ArrangeByMatchesOnce(results, found.matchesInfo);
    } else {
      ArrangeSingleMatchOnce(results, found.matchTeams[0], found.matchTeams[1]);
    }
  }
}
