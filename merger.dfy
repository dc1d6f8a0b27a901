/**
  The per-player part of `get_slate` (app.py): find the player's VLR.gg
  profile, through the link map gathered from match pages when there is one
  and by name search otherwise, analyse the player's recent matches, and
  produce exactly one result row per slate entry, either with the three
  window averages or with a message saying what failed.
*/
module Merger {
  import opened Wrappers
  import opened Seqs
  import opened Text
  import opened Names
  import opened Pages
  import opened Links
  import opened MatchPages
  import opened Aggregation
  import opened Slate

  /** `MAX_MATCHES`: how many match links are read per player. */
  const MAX_MATCHES: nat := 40

  const NOT_ON_VLR: string := "Player not found on VLR.gg"
  const FETCH_FAILED: string := "Failed to fetch player page"
  const NO_HISTORY: string := "No match history found"
  const NO_VALID_MATCHES: string := "No valid matches found (need matches with exactly 2 maps)"
  // Written as two literals: a single literal this long is more than the
  // verifier unfolds when it compares first characters.
  const TIMEOUT_MESSAGE: string := "Request timeout - " + "VLR.gg may be slow or unavailable"
  const CONNECTION_MESSAGE: string := "Connection error - cannot reach VLR.gg"
  const PAGE_NOT_FOUND: string := "Player page not found on VLR.gg"
  const SCRAPING_ERROR: string := "Scraping error: "

  // ---------------------------------------------------------------------
  // Error classification
  // ---------------------------------------------------------------------

  /** The user-facing message for an exception with text `msg`. */
  function ClassifyError(msg: string): string {
    if Contains(Lower(msg), "timeout") then TIMEOUT_MESSAGE
    else if Contains(Lower(msg), "connection") then CONNECTION_MESSAGE
    else if Contains(msg, "404") || Contains(Lower(msg), "not found") then PAGE_NOT_FOUND
    else SCRAPING_ERROR + Take(msg, 100)
  }

  /** The four messages are told apart by their first characters. */
  lemma MessagesDistinct(quoted: string)
    ensures TIMEOUT_MESSAGE != CONNECTION_MESSAGE && TIMEOUT_MESSAGE != PAGE_NOT_FOUND
    ensures CONNECTION_MESSAGE != PAGE_NOT_FOUND
    ensures !StartsWith(TIMEOUT_MESSAGE, SCRAPING_ERROR) && !StartsWith(CONNECTION_MESSAGE, SCRAPING_ERROR)
    ensures !StartsWith(PAGE_NOT_FOUND, SCRAPING_ERROR)
    ensures StartsWith(SCRAPING_ERROR + quoted, SCRAPING_ERROR)
  {
    assert TIMEOUT_MESSAGE[0] == 'R' && CONNECTION_MESSAGE[0] == 'C' && PAGE_NOT_FOUND[0] == 'P';
    assert SCRAPING_ERROR[0] == 'S';
    assert (SCRAPING_ERROR + quoted)[..|SCRAPING_ERROR|] == SCRAPING_ERROR;
  }

  /** The first rule that applies decides the message, and each message
      comes from its rule only; only the last rule quotes the exception,
      and then at most its first 100 characters. */
  lemma ClassifyErrorRules(msg: string)
    ensures ClassifyError(msg) == TIMEOUT_MESSAGE <==> Contains(Lower(msg), "timeout")
    ensures ClassifyError(msg) == CONNECTION_MESSAGE <==>
      !Contains(Lower(msg), "timeout") && Contains(Lower(msg), "connection")
    ensures ClassifyError(msg) == PAGE_NOT_FOUND <==>
      !Contains(Lower(msg), "timeout") && !Contains(Lower(msg), "connection") &&
      (Contains(msg, "404") || Contains(Lower(msg), "not found"))
    ensures StartsWith(ClassifyError(msg), SCRAPING_ERROR) <==>
      !Contains(Lower(msg), "timeout") && !Contains(Lower(msg), "connection") &&
      !Contains(msg, "404") && !Contains(Lower(msg), "not found")
    ensures StartsWith(ClassifyError(msg), SCRAPING_ERROR) ==>
      ClassifyError(msg)[|SCRAPING_ERROR|..] <= msg && |ClassifyError(msg)| <= |SCRAPING_ERROR| + 100
    ensures ClassifyError(msg) != ""
  {
    var quoted := Take(msg, 100);
    MessagesDistinct(quoted);
    var tail := SCRAPING_ERROR + quoted;
    assert tail[|SCRAPING_ERROR|..] == quoted;
    TakePrefix(msg, 100);
  }

  // ---------------------------------------------------------------------
  // Match analysis (shared with main.py)
  // ---------------------------------------------------------------------

  /** The records of every match link, concatenated in link order
      (`all_maps.extend(parse_match_page(link, player))`). */
  function MapsOf(web: Web, links: seq<string>, player: string): seq<MapRecord> {
    if links == [] then []
    else MapsOf(web, links[..|links| - 1], player) + MatchRecords(web, links[|links| - 1], player)
  }

  /** `good_matches` for a player whose history lists `links`. */
  function GoodMatches(web: Web, links: seq<string>, player: string): seq<MatchTotal> {
    GroupKills(MapsOf(web, Take(links, MAX_MATCHES), player), player, 2)
  }

  /** The loop that reads each match page in turn. */
  method CollectMaps(web: Web, links: seq<string>, player: string) returns (allMaps: seq<MapRecord>)
    ensures allMaps == MapsOf(web, links, player)
  {
    allMaps := [];
    for i := 0 to |links|
      invariant allMaps == MapsOf(web, links[..i], player)
    {
      assert links[..i + 1][..i] == links[..i];
      var maps := ParseMatchPage(web, links[i], player);
      assert MapsOf(web, links[..i + 1], player) == allMaps + maps;
      allMaps := allMaps + maps;
    }
    assert links[..|links|] == links;
  }

  /** `links[:MAX_MATCHES]` read page by page, then
      `group_kills_by_match(all_maps, player, max_maps=2)`. */
  method AnalyzeLinks(web: Web, links: seq<string>, player: string) returns (good: seq<MatchTotal>)
    ensures good == GoodMatches(web, links, player)
  {
    var allMaps := CollectMaps(web, Take(links, MAX_MATCHES), player);
    good := GroupKillsByMatch(allMaps, player, 2);
  }

  /** Every analysed match has exactly two maps counted, holding the first
      two of its maps over the first 40 links, and a positive total. */
  lemma GoodMatchesShape(web: Web, links: seq<string>, player: string, i: nat)
    requires i < |GoodMatches(web, links, player)|
    ensures GoodMatches(web, links, player)[i].mapsCounted == 2
    ensures |GoodMatches(web, links, player)[i].mapKills| == 2
    ensures GoodMatches(web, links, player)[i].totalKills > 0
    ensures GoodMatches(web, links, player)[i].totalKills == Sum(GoodMatches(web, links, player)[i].mapKills)
  {
    GroupKillsShape(MapsOf(web, Take(links, MAX_MATCHES), player), player, 2, i);
  }

  // ---------------------------------------------------------------------
  // Link-map lookup
  // ---------------------------------------------------------------------

  /** An entry whose normalised display name contains, or is contained in,
      the normalised player name. */
  predicate PartialMatch(entry: LinkEntry, normalized: string) {
    var d := NormalizeName(entry.displayName);
    Contains(d, normalized) || Contains(normalized, d)
  }

  /** `PartialMatch` against a fixed name, as a test on entries. */
  function PartialMatcher(normalized: string): LinkEntry -> bool {
    e => PartialMatch(e, normalized)
  }

  /** The entry the link map gives for a normalised player name: the one with
      that key, else the first partial match in insertion order. */
  function LinkLookup(entries: seq<LinkEntry>, normalized: string): Option<LinkEntry> {
    if normalized in Keys(entries) then Some(entries[FirstIndex(Keys(entries), normalized)])
    else
      match FindFirst(PartialMatcher(normalized), entries, 0)
      case None => None
      case Some(k) => Some(entries[k])
  }

  /** The lookup of `get_slate`: the exact key, else the loop over the
      entries that stops at the first partial match. */
  method FindLink(entries: seq<LinkEntry>, normalized: string) returns (r: Option<LinkEntry>)
    ensures r == LinkLookup(entries, normalized)
  {
    var keys := Keys(entries);
    if normalized in keys {
      return Some(entries[FirstIndex(keys, normalized)]);
    }
    var matches := PartialMatcher(normalized);
    var k := 0;
    while k < |entries|
      invariant 0 <= k <= |entries|
      invariant FindFirst(matches, entries, 0) == FindFirst(matches, entries, k)
    {
      if matches(entries[k]) {
        return Some(entries[k]);
      }
      k := k + 1;
    }
    return None;
  }

  /** The exact key wins; without it, the first partial match in insertion
      order; and nothing only when no entry matches even partially. */
  lemma LinkLookupChoice(entries: seq<LinkEntry>, normalized: string)
    ensures normalized in Keys(entries) ==>
      LinkLookup(entries, normalized).Some? && LinkLookup(entries, normalized).value.key == normalized
    ensures normalized !in Keys(entries) && LinkLookup(entries, normalized).Some? ==>
      exists k :: 0 <= k < |entries| && LinkLookup(entries, normalized).value == entries[k] &&
        PartialMatch(entries[k], normalized) &&
        forall j :: 0 <= j < k ==> !PartialMatch(entries[j], normalized)
    ensures normalized !in Keys(entries) && LinkLookup(entries, normalized).None? ==>
      forall j :: 0 <= j < |entries| ==> !PartialMatch(entries[j], normalized)
  {
    var found := FindFirst(PartialMatcher(normalized), entries, 0);
    if normalized in Keys(entries) {
      var i := FirstIndex(Keys(entries), normalized);
      assert Keys(entries)[i] == entries[i].key;
    } else if found.Some? {
      var k := found.value;
      assert PartialMatcher(normalized)(entries[k]);
      forall j | 0 <= j < k ensures !PartialMatch(entries[j], normalized) {
        assert !PartialMatcher(normalized)(entries[j]);
      }
    } else {
      forall j | 0 <= j < |entries| ensures !PartialMatch(entries[j], normalized) {
        assert !PartialMatcher(normalized)(entries[j]);
      }
    }
  }

  // ---------------------------------------------------------------------
  // Result rows
  // ---------------------------------------------------------------------

  /** How a row ended: with an error message, or with `matches_analyzed`. */
  datatype Outcome = Failed(error: string) | Analyzed(matchesAnalyzed: nat)

  /** One entry of `results`. */
  datatype ResultRow = ResultRow(
    player: string, line: Option<string>, oddsOver: string, oddsUnder: string,
    team: Option<string>, teamUrl: Option<string>, vlrUrl: Option<string>,
    avg5: Option<real>, avg10: Option<real>, avg25: Option<real>,
    outcome: Outcome)

  /** A row without averages. */
  function ErrorRow(e: PlayerEntry, team: Option<string>, teamUrl: Option<string>, vlrUrl: Option<string>, error: string): ResultRow {
    ResultRow(e.player, e.line, e.oddsOver, e.oddsUnder, team, teamUrl, vlrUrl, None, None, None, Outcome.Failed(error))
  }

  /** Python's truthiness of a string that may be None. */
  predicate Truthy(s: Option<string>) {
    s.Some? && s.value != ""
  }

  /** The row once the analysed matches are known. */
  function MatchesRow(e: PlayerEntry, team: Option<string>, teamUrl: Option<string>, url: string, good: seq<MatchTotal>): ResultRow {
    if good == [] then ErrorRow(e, team, teamUrl, Some(url), NO_VALID_MATCHES)
    else
      var kills := KillTotals(good);
      ResultRow(e.player, e.line, e.oddsOver, e.oddsUnder, team, teamUrl, Some(url),
                Average(kills, 5), Average(kills, 10), Average(kills, 25), Analyzed(|good|))
  }

  /** The row once the player page has loaded and the team is settled. */
  function HistoryRow(web: Web, e: PlayerEntry, url: string, team: Option<string>): ResultRow {
    var links := MatchHistory(web, url);
    if links == [] then ErrorRow(e, team, TeamUrlOfPlayer(web, url), Some(url), NO_HISTORY)
    else MatchesRow(e, team, TeamUrlOfPlayer(web, url), url, GoodMatches(web, links, e.player))
  }

  /** The row for a player whose profile is `url`, with the team known so
      far; a team that is missing or empty is read from the player page. */
  function AnalyzedRow(web: Web, e: PlayerEntry, url: string, team: Option<string>): ResultRow {
    match FetchSoup(web, url)
    case None => ErrorRow(e, team, TeamUrlOfPlayer(web, url), Some(url), FETCH_FAILED)
    case Some(doc) => HistoryRow(web, e, url, if Truthy(team) then team else CurrentTeam(doc))
  }

  /** The row `get_slate` appends for one slate entry. */
  function PlayerRow(web: Web, e: PlayerEntry, links: seq<LinkEntry>, useLinks: bool): ResultRow {
    var hit := if useLinks && links != [] then LinkLookup(links, NormalizeName(e.player)) else None;
    var url := if hit.Some? then hit.value.url else "";
    var team := if hit.Some? then hit.value.team else None;
    if url != "" then AnalyzedRow(web, e, url, team)
    else
      match PlayerSearch(web, e.player)
      case Threw(m) => ErrorRow(e, None, None, None, ClassifyError(m))
      case Found(found) =>
        if !Truthy(found) then ErrorRow(e, None, None, None, NOT_ON_VLR)
        else AnalyzedRow(web, e, found.value, team)
  }

  /** The windows are positive and hold 5, 10 and 25. */
  lemma WindowsPositive()
    ensures forall j :: 0 <= j < |WINDOWS| ==> WINDOWS[j] > 0
    ensures 5 in WINDOWS && 10 in WINDOWS && 25 in WINDOWS
  {
    assert WINDOWS == [5, 10, 25];
  }

  /** The three window averages of the analysed matches. */
  method SummarizeMatches(e: PlayerEntry, team: Option<string>, teamUrl: Option<string>, url: string, good: seq<MatchTotal>)
    returns (row: ResultRow)
    ensures row == MatchesRow(e, team, teamUrl, url, good)
  {
    if good == [] {
      return ErrorRow(e, team, teamUrl, Some(url), NO_VALID_MATCHES);
    }
    WindowsPositive();
    var avgs := ComputeAverages(good, WINDOWS);
    row := ResultRow(e.player, e.line, e.oddsOver, e.oddsUnder, team, teamUrl, Some(url),
                     avgs[5], avgs[10], avgs[25], Analyzed(|good|));
  }

  /** The match history of a loaded player page and its analysis. */
  method AnalyzeHistory(web: Web, e: PlayerEntry, url: string, team: Option<string>) returns (row: ResultRow)
    ensures row == HistoryRow(web, e, url, team)
  {
    var teamUrl := TeamUrlOfPlayer(web, url);
    var history := ScrapeMatchLinks(web, url);
    if history == [] {
      return ErrorRow(e, team, teamUrl, Some(url), NO_HISTORY);
    }
    var good := AnalyzeLinks(web, history, e.player);
    row := SummarizeMatches(e, team, teamUrl, url, good);
  }

  /** The analysis of a player once the profile url is known. */
  method AnalyzeProfile(web: Web, e: PlayerEntry, url: string, team: Option<string>) returns (row: ResultRow)
    ensures row == AnalyzedRow(web, e, url, team)
  {
    var soup := FetchSoup(web, url);
    if soup.None? {
      return ErrorRow(e, team, TeamUrlOfPlayer(web, url), Some(url), FETCH_FAILED);
    }
    var currentTeam := team;
    if !Truthy(currentTeam) {
      currentTeam := CurrentTeam(soup.value);
    }
    row := AnalyzeHistory(web, e, url, currentTeam);
  }

  /** The body of the loop over `player_info`. */
  method ProcessPlayer(web: Web, e: PlayerEntry, links: seq<LinkEntry>, useLinks: bool) returns (row: ResultRow)
    ensures row == PlayerRow(web, e, links, useLinks)
  {
    var url := "";
    var team: Option<string> := None;
    if useLinks && links != [] {
      var hit := FindLink(links, NormalizeName(e.player));
      if hit.Some? {
        url := hit.value.url;
        team := hit.value.team;
      }
    }
    if url == "" {
      var found := FindPlayerUrl(web, e.player);
      if found.Threw? {
        return ErrorRow(e, None, None, None, ClassifyError(found.message));
      }
      if !Truthy(found.url) {
        return ErrorRow(e, None, None, None, NOT_ON_VLR);
      }
      url := found.url.value;
    }
    row := AnalyzeProfile(web, e, url, team);
  }

  /** `results` after the loop over `player_info`. */
  function Results(web: Web, info: seq<PlayerEntry>, links: seq<LinkEntry>, useLinks: bool): (r: seq<ResultRow>)
    ensures |r| == |info|
  {
    if info == [] then []
    else Results(web, info[..|info| - 1], links, useLinks) + [PlayerRow(web, info[|info| - 1], links, useLinks)]
  }

  /** The loop over `player_info`. */
  method BuildResults(web: Web, info: seq<PlayerEntry>, links: seq<LinkEntry>, useLinks: bool) returns (results: seq<ResultRow>)
    ensures results == Results(web, info, links, useLinks)
  {
    results := [];
    var i := 0;
    while i < |info|
      invariant 0 <= i <= |info|
      invariant results == Results(web, info[..i], links, useLinks)
    {
      assert info[..i + 1][..i] == info[..i];
      var row := ProcessPlayer(web, info[i], links, useLinks);
      results := results + [row];
      i := i + 1;
    }
    assert i == |info|;
    assert info[..i] == info;
  }

  // ---------------------------------------------------------------------
  // Properties of the rows
  // ---------------------------------------------------------------------

  lemma {:induction false} ResultsAt(web: Web, info: seq<PlayerEntry>, links: seq<LinkEntry>, useLinks: bool, i: nat)
    requires i < |info|
    ensures Results(web, info, links, useLinks)[i] == PlayerRow(web, info[i], links, useLinks)
  {
    if i < |info| - 1 {
      ResultsAt(web, info[..|info| - 1], links, useLinks, i);
    }
  }

  /** What a row is when the profile was analysed: the entry repeated; a
      failure row has no averages and a non-empty message; a success row
      counts the analysed matches and holds their window averages. */
  lemma AnalyzedRowShape(web: Web, e: PlayerEntry, url: string, team: Option<string>)
    ensures AnalyzedRow(web, e, url, team).player == e.player
    ensures AnalyzedRow(web, e, url, team).line == e.line
    ensures AnalyzedRow(web, e, url, team).oddsOver == e.oddsOver
    ensures AnalyzedRow(web, e, url, team).oddsUnder == e.oddsUnder
    ensures AnalyzedRow(web, e, url, team).vlrUrl == Some(url)
    ensures AnalyzedRow(web, e, url, team).outcome.Failed? ==>
      AnalyzedRow(web, e, url, team).outcome.error != "" &&
      AnalyzedRow(web, e, url, team).avg5.None? &&
      AnalyzedRow(web, e, url, team).avg10.None? &&
      AnalyzedRow(web, e, url, team).avg25.None?
    ensures AnalyzedRow(web, e, url, team).outcome.Analyzed? ==>
      var good := GoodMatches(web, MatchHistory(web, url), e.player);
      AnalyzedRow(web, e, url, team).outcome.matchesAnalyzed == |good| > 0 &&
      AnalyzedRow(web, e, url, team).avg5 == Average(KillTotals(good), 5) &&
      AnalyzedRow(web, e, url, team).avg10 == Average(KillTotals(good), 10) &&
      AnalyzedRow(web, e, url, team).avg25 == Average(KillTotals(good), 25)
  {
  }

  /** The same for every row `get_slate` builds. */
  lemma PlayerRowShape(web: Web, e: PlayerEntry, links: seq<LinkEntry>, useLinks: bool)
    ensures PlayerRow(web, e, links, useLinks).player == e.player
    ensures PlayerRow(web, e, links, useLinks).line == e.line
    ensures PlayerRow(web, e, links, useLinks).oddsOver == e.oddsOver
    ensures PlayerRow(web, e, links, useLinks).oddsUnder == e.oddsUnder
    ensures PlayerRow(web, e, links, useLinks).outcome.Failed? ==>
      PlayerRow(web, e, links, useLinks).outcome.error != "" &&
      PlayerRow(web, e, links, useLinks).avg5.None? &&
      PlayerRow(web, e, links, useLinks).avg10.None? &&
      PlayerRow(web, e, links, useLinks).avg25.None?
    ensures PlayerRow(web, e, links, useLinks).outcome.Analyzed? ==>
      var url := PlayerRow(web, e, links, useLinks).vlrUrl;
      url.Some? &&
      var good := GoodMatches(web, MatchHistory(web, url.value), e.player);
      PlayerRow(web, e, links, useLinks).outcome.matchesAnalyzed == |good| > 0 &&
      PlayerRow(web, e, links, useLinks).avg5 == Average(KillTotals(good), 5) &&
      PlayerRow(web, e, links, useLinks).avg10 == Average(KillTotals(good), 10) &&
      PlayerRow(web, e, links, useLinks).avg25 == Average(KillTotals(good), 25)
  {
    var hit := if useLinks && links != [] then LinkLookup(links, NormalizeName(e.player)) else None;
    var url := if hit.Some? then hit.value.url else "";
    var team := if hit.Some? then hit.value.team else None;
    if url != "" {
      AnalyzedRowShape(web, e, url, team);
    } else {
      match PlayerSearch(web, e.player)
      case Threw(m) => ClassifyErrorRules(m);
      case Found(found) =>
        if Truthy(found) {
          AnalyzedRowShape(web, e, found.value, team);
        }
    }
  }

  /** Exactly one row per slate entry, in slate order, each for its entry. */
  lemma ResultsOnePerEntry(web: Web, info: seq<PlayerEntry>, links: seq<LinkEntry>, useLinks: bool, i: nat)
    requires i < |info|
    ensures |Results(web, info, links, useLinks)| == |info|
    ensures Results(web, info, links, useLinks)[i].player == info[i].player
    ensures Results(web, info, links, useLinks)[i].line == info[i].line
    ensures Results(web, info, links, useLinks)[i].outcome.Failed? ==>
      Results(web, info, links, useLinks)[i].outcome.error != "" &&
      Results(web, info, links, useLinks)[i].avg5.None? &&
      Results(web, info, links, useLinks)[i].avg10.None? &&
      Results(web, info, links, useLinks)[i].avg25.None?
  {
    ResultsAt(web, info, links, useLinks, i);
    PlayerRowShape(web, info[i], links, useLinks);
  }

  /** A player found neither in the link map nor by search gets the
      not-found row and no profile. */
  lemma NotFoundRow(web: Web, e: PlayerEntry, links: seq<LinkEntry>, useLinks: bool)
    requires !useLinks || links == [] || LinkLookup(links, NormalizeName(e.player)).None?
    requires PlayerSearch(web, e.player) == Found(None)
    ensures PlayerRow(web, e, links, useLinks) == ErrorRow(e, None, None, None, NOT_ON_VLR)
  {
  }

  /** A player whose search raised gets the classified message. */
  lemma RaisedRow(web: Web, e: PlayerEntry, links: seq<LinkEntry>, useLinks: bool, m: string)
    requires !useLinks || links == [] || LinkLookup(links, NormalizeName(e.player)).None?
    requires PlayerSearch(web, e.player) == Threw(m)
    ensures PlayerRow(web, e, links, useLinks) == ErrorRow(e, None, None, None, ClassifyError(m))
  {
  }

  /** The averages of a success row are at least one kill per match. */
  lemma AnalyzedAveragesPositive(web: Web, e: PlayerEntry, links: seq<LinkEntry>, useLinks: bool)
    requires PlayerRow(web, e, links, useLinks).outcome.Analyzed?
    requires PlayerRow(web, e, links, useLinks).avg5.Some?
    ensures PlayerRow(web, e, links, useLinks).avg5.value >= 1.0
  {
    PlayerRowShape(web, e, links, useLinks);
    var url := PlayerRow(web, e, links, useLinks).vlrUrl.value;
    var history := MatchHistory(web, url);
    var good := GoodMatches(web, history, e.player);
    assert 5 <= |good|;
    AveragesPositive(MapsOf(web, Take(history, MAX_MATCHES), e.player), e.player, 2, 5);
  }
}
