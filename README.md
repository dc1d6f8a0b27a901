# Valorant pick'em analyzer, modelled in Dafny

The analyzer compares Underdog Fantasy "Kills on Maps 1+2 O/U" lines with
the kills players actually got, as scraped from VLR.gg. It has two front
ends. The web endpoint `/api/slate` (`get_slate` in app.py) answers with
JSON. The command line `do_full_slate` (main.py) prints a summary and writes
a workbook. This project models the logic both share:

- reading the slate;
- finding each player's VLR profile, by searching or through the player
  links of the match the player is about to play;
- reading match pages: teams, title, date, one record per map for the player;
- keeping only matches with exactly two counted maps and a positive total;
- averaging the totals over the last 5, 10 and 25 matches;
- the web endpoint's per-player rows, error messages and grouping of players
  by match;
- the command line's summary rows, output file name and colour rule.

The network is a parameter. `Pages.Web` holds:

- `fetch`, the answer to each GET: it raises, fails, or loads a page;
- `urlPath`, standing for `urlparse(...).path`;
- `parseStamp` and `parseDay`, standing for `strptime`.

A loaded page is a `Pages.Document`: the record of what each BeautifulSoup
selector chain finds on it. The current day is a parameter, and so are the
Underdog slate and the set of files the output-name glob matches.

Modules follow the program:

- `Text` and `Names` hold the string primitives and `normalize_name`.
- `Links` covers the search, profile, history and team-link rules of
  scraper/vlr.py.
- `Schedule` covers the upcoming-match choice and the team-pair search.
- `MatchPages` covers match pages.
- `Aggregation` covers `group_kills_by_match` and `compute_averages`.
- `Slate`, `Merger`, `Discovery`, `Grouping` and `Endpoint` cover `get_slate`.
- `Cli` covers main.py.

Loops of the source are methods that are proved equal to a specification
function. Lemmas state the source's promises about those functions.

The system's description and its code differ in two places. The model
follows the code in both:

- The description says a failed profile search, network errors included,
  reports "not found" and never raises. The search request in
  `find_player_url` is not guarded. When it raises, the exception reaches
  `get_slate`'s per-player handler, which gives the classified message, and
  it ends `do_full_slate`. The not-found message is
  "Player not found on VLR.gg".
- The description only says that results are disambiguated. The code's href
  rewrite keeps `href.split('/player/')[1]`: the text between the first and
  the second `/player/`, not all the text after the first one.
  `Links.ProfileUrl` models that.

## Model

| member | source | states |
|---|---|---|
| Names.NormalizeName | scraper/vlr.py:8-18 | An empty name normalises to "". |
| Names.NormalizeOptional | scraper/vlr.py:10-11 | A missing (None) name normalises to "". |
| Names.NormalizeNameShape | scraper/vlr.py:13-17 | A normal form holds no upper-case letter and none of space, `.`, `-`, `_`, `@`. |
| Names.RemoveSeparatorsShape | scraper/vlr.py:15-17 | Deleting the separators leaves no separator and only characters of the input. |
| Names.NormalizeIsSquash | scraper/vlr.py:8-18 | For names whose only whitespace is spaces, normalising is exactly lower-casing and deleting the separators (the strip removes nothing more). |
| Names.SeparatorIgnored | scraper/vlr.py:15-17 | Inserting a separator anywhere does not change the normal form. |
| Names.CaseIgnored | scraper/vlr.py:13 | Changing the case of a letter does not change the normal form. |
| Names.SquashEqualNormalizeEqual | scraper/vlr.py:8-18 | Names without tabs or newlines that differ only in case or separators normalise equally. |
| Names.NormalizeIdempotent | scraper/vlr.py:8-18 | Normalising a normal form gives it back. |
| Names.EmptyMatchesEverything | scraper/vlr.py:845-848 | A name that normalises to "" passes the permissive "equal or contained" test against every name, both ways. |
| Names.FuzzyEqualReflexiveSymmetric | app.py:314 | The permissive name test is reflexive and symmetric. |
| Text.StripEnds | app.py:93 | `strip()` leaves no whitespace at either end. |
| Text.StripStripped | app.py:93 | A text without whitespace at its ends is its own `strip()`. |
| Text.ParseNatToString | main.py:248 | `str(k)` of a version number reads back as `k`. |
| Text.ContainsAt | app.py:112 | `sub in s` holds exactly when `sub` starts at some position of `s`. |
| Text.RemoveSuffix | app.py:113 | Replacing a suffix that first occurs where it ends the text leaves the text before it. |
| Text.AfterFirst | scraper/vlr.py:56-58 | The text after the first occurrence of a separator is what follows it. |
| Pages.FetchSoup | scraper/vlr.py:24-31 | A page is returned exactly when the request loaded one; a raised or failed request gives None. |
| Links.MatchLinkOf | scraper/vlr.py:362-387 | A match link always starts with "http": a relative href becomes the site plus the href, an absolute one is kept and names vlr.gg. |
| Links.RelativeHrefKept | scraper/vlr.py:362-373 | A relative href gives a link exactly when its first path segment (after stripping `/`) is all digits and at least four long. |
| Links.CandidatesIff | scraper/vlr.py:355-387 | A URL is a candidate exactly when some anchor contributes it. |
| Links.CollectMatchLinks | scraper/vlr.py:353-387 | The scan keeps each candidate the first time it is seen. |
| Links.CollectedLinks | scraper/vlr.py:353-387 | The collected links are distinct and are exactly the URLs some anchor contributes. |
| Links.ScrapeMatchLinks | scraper/vlr.py:340-389 | The method computes the match history: none when the history page does not load, else the first pass's links or, failing those, the later passes'. |
| Links.MatchHistoryFirstPass | scraper/vlr.py:353-392 | When any anchor gives a match link, the result is the first pass's distinct links and no later pass is consulted. |
| Links.HistoryOfProfile | scraper/vlr.py:342 | The history page of `https://www.vlr.gg/player/<rest>` is `https://www.vlr.gg/player/matches/<rest>`. |
| Links.ProfileUrl | scraper/vlr.py:50-59 | A rewritten href always starts with the site, and with the site's `/player/` when the href holds `/player/`. |
| Links.ProfileUrlOfRedirect | scraper/vlr.py:54-58 | A redirect `<pre>/player/<slug>` with one `/player/` becomes the site's `/player/<slug>`. |
| Links.FirstTitleMatch | scraper/vlr.py:44-49 | The position found is the first result from `i` on whose normalised title contains the normalised query; none when no such result exists. |
| Links.SelectSearchItem | scraper/vlr.py:44-71 | The pick is the first matching result, else the first result even without a title, and none only for an empty result list. |
| Links.SearchPickCharacterised | scraper/vlr.py:44-71 | Position `k` is picked exactly when it is the first matching result, or it is 0 and no result matches. |
| Links.FindPlayerUrl | scraper/vlr.py:33-71 | A found URL starts with the site; None comes only from a failed search or an empty result list; a loaded, non-empty result list always gives a URL. |
| Links.TeamUrl | scraper/vlr.py:130-140 | A team URL starts with "http" and is the href itself or the site plus the href, the latter only for an href holding `/team/`. |
| Links.TeamUrlOfPlayer | scraper/vlr.py:116-140 | A team URL is found only when the player page loads. |
| Links.CurrentTeam | scraper/vlr.py:102-114 | The team is the stripped text of the card's team-name div, when there is one. |
| Schedule.UndatedAmong | scraper/vlr.py:186-198 | The undated list holds only candidates whose page loads without a date. |
| Schedule.FirstDecisive | scraper/vlr.py:186-224 | The position found is the first candidate that ends the scan: dated today or later, or undatable with no stats tables. None means no candidate is decisive. |
| Schedule.GetMatchFromTeam | scraper/vlr.py:142-234 | The method computes the next match of the team. |
| Schedule.NextMatchShape | scraper/vlr.py:142-234 | At most one URL, always a collected candidate; none exactly when the team page fails or no candidate is collected. |
| Schedule.NextIsFirstDecisive | scraper/vlr.py:209-222 | A decisive candidate ends the scan: the result is the first decisive one. |
| Schedule.UndatedOnlyAfterwards | scraper/vlr.py:226-228 | An undated candidate is returned only when none is decisive, and then it is the first undated one. |
| Schedule.CapReached | scraper/vlr.py:621-624 | Once the links of a prefix fill the cap, they are the capped links of all the anchors. |
| Schedule.ScanPairLinks | scraper/vlr.py:603-624 | The scan returns the first distinct pair links up to the limit. |
| Schedule.FindMatchesBetweenTeams | scraper/vlr.py:585-626 | The method computes `find_matches_between_teams`. |
| Schedule.MatchesBetweenProperties | scraper/vlr.py:585-626 | At most `limit` distinct URLs (one when the limit is 0), each the site plus the href of a match-path anchor that mentions one of the teams. |
| Schedule.EmptyTeamMentioned | scraper/vlr.py:615-619 | A team that normalises to "" is mentioned by every link. |
| Schedule.RecordMatches | scraper/vlr.py:642-645 | The inner loop registers each match of a pair. |
| Schedule.RecordRow | scraper/vlr.py:638-645 | The visits of one first team register the hits of its pairs. |
| Schedule.RecordAll | scraper/vlr.py:637-645 | The outer loop registers the hits of every pair. |
| Schedule.FindMatchUrlsForTeams | scraper/vlr.py:628-647 | The method computes `find_match_urls_for_teams`. |
| Schedule.RegisterProperties | scraper/vlr.py:642-645 | The recorded URLs are distinct, are exactly those hit, have their pair recorded, and each maps to the pair of its first hit. |
| Schedule.MatchUrlsSound | scraper/vlr.py:635-645 | Every URL found came from some pair `i < j` and maps to that pair's teams. |
| Schedule.MatchUrlsComplete | scraper/vlr.py:635-645 | Every URL found for any pair `i < j` is in the result. |
| Schedule.MatchUrlsDistinct | scraper/vlr.py:643-645 | The URLs are distinct and each has its teams. |
| MatchPages.MatchTeams | scraper/vlr.py:577-583 | Two teams or none, two exactly when the header names at least two, and then the title is "team1 vs team2". |
| MatchPages.TitleUnknownIff | scraper/vlr.py:537-543 | The title is the placeholder exactly when fewer than two teams are named. |
| MatchPages.FormatDay | scraper/vlr.py:563-566 | A formatted day holds no space and no colon. |
| MatchPages.DateOf | scraper/vlr.py:556-573 | A selector's date, when it gives one, is non-empty and has no space. |
| MatchPages.DateUnknownIff | scraper/vlr.py:545-575 | The placeholder date comes exactly when no selector yields a date. |
| MatchPages.ParseInt | scraper/vlr.py:874-884 | `int()` of a text that strips to digits is the number those digits write. |
| MatchPages.KillsDefault | scraper/vlr.py:860 | Kills are 0 when no kills cell holds a number. |
| MatchPages.KillsFromFirstCell | scraper/vlr.py:868-884 | Kills come from the first kills cell holding a number: its `.mod-both` text first, then its own text. |
| MatchPages.FirstAcceptedIsFirst | scraper/vlr.py:820-848 | The row used is the first whose name equals or contains, or is contained in, the player's; without one, no record. |
| MatchPages.SeparatorNameAccepted | scraper/vlr.py:844-848 | A row whose name is separators only is taken for any player. |
| MatchPages.PageRecords | scraper/vlr.py:794-894 | At most one record per section, each carrying the page's url, title and date. |
| MatchPages.ParseSection | scraper/vlr.py:794-894 | One section gives the record of its first accepted row, if its map is usable. |
| MatchPages.ParseMatchPage | scraper/vlr.py:773-896 | The method computes `parse_match_page`. |
| MatchPages.RecordsFromSections | scraper/vlr.py:804-894 | Every record names a usable map, and its kills are read from an accepted row of that section. |
| MatchPages.PageRecordsConcat | scraper/vlr.py:794-894 | Records follow section order. |
| MatchPages.RowLink | scraper/vlr.py:669-711 | A row's entry has a non-empty display name, is keyed by its normal form, has no team yet, and has a URL starting with "http". |
| MatchPages.CollectPlayerLinks | scraper/vlr.py:661-711 | The loop over the player rows builds the first-wins player map. |
| MatchPages.CollectTeamSets | scraper/vlr.py:719-758 | The loop over the sections builds both teams' name sets. |
| MatchPages.AssignTeams | scraper/vlr.py:760-765 | Each entry gets `teams[0]` when its key is in team 1's set, else `teams[1]` when in team 2's, else no team. |
| MatchPages.AssignTeamsTo | scraper/vlr.py:760-765 | The assignment loop sets each entry's team as above. |
| MatchPages.ExtractPlayerLinks | scraper/vlr.py:649-771 | The method computes `extract_player_links_from_match`. |
| MatchPages.FirstWinsDistinct | scraper/vlr.py:705-711 | The player map's keys are distinct. |
| MatchPages.FirstWinsNonEmpty | scraper/vlr.py:706 | No entry has the empty key. |
| MatchPages.FirstWinsFrom | scraper/vlr.py:705-711 | Every key comes from a row offering it. |
| MatchPages.FirstWinsAbsent | scraper/vlr.py:705-711 | A key no row offers is absent. |
| MatchPages.FirstOfferWins | scraper/vlr.py:706-711 | The first row offering a key is the entry kept for it; later rows are ignored. |
| MatchPages.CollectLinksProperties | scraper/vlr.py:663-711 | The map is keyed by distinct non-empty names and holds the first offering row's entry. |
| MatchPages.LinksFromRows | scraper/vlr.py:663-711 | Every key of the map is the name of some row's link. |
| MatchPages.SingleTableSplit | scraper/vlr.py:746-758 | In a single-table section, named rows at positions below 5 go to team 1 and the others to team 2. |
| MatchPages.MatchPlayersDistinct | scraper/vlr.py:649-771 | The returned player map is keyed by distinct names. |
| Aggregation.Bucketed | scraper/vlr.py:901-919 | Every key of the insertion order has a bucket, and every bucket's key is in the order. |
| Aggregation.GroupKillsByMatch | scraper/vlr.py:898-932 | The method computes `group_kills_by_match`. |
| Aggregation.SelectEligible | scraper/vlr.py:922-930 | The second loop selects the eligible buckets in order. |
| Aggregation.BucketedOrder | scraper/vlr.py:901-911 | The bucket keys, in insertion order, are the distinct match URLs in order of first occurrence. |
| Aggregation.BucketOf | scraper/vlr.py:901-919 | A match's bucket takes title and date from its first record, the player from the argument, and holds its first `maxMaps` maps in input order. |
| Aggregation.BucketsKeyed | scraper/vlr.py:902-908 | Every bucket is keyed by its own match URL. |
| Aggregation.TotalsSound | scraper/vlr.py:923-930 | Every selected match comes from an eligible bucket and carries that bucket's total. |
| Aggregation.TotalsComplete | scraper/vlr.py:923-930 | Every eligible bucket is selected. |
| Aggregation.TotalsOrdered | scraper/vlr.py:923-930 | The selected matches keep the insertion order. |
| Aggregation.GroupKillsShape | scraper/vlr.py:913-930 | Each returned match has `maps_counted == len(map_kills) == max_maps` and a positive total equal to its map sum. Its maps are the first `max_maps` records of its URL, and its title and date come from the URL's first record. |
| Aggregation.GroupKillsIff | scraper/vlr.py:913-930 | A match is returned exactly when it has at least `max_maps` maps and its first `max_maps` sum to a positive total. |
| Aggregation.GroupKillsOrder | scraper/vlr.py:901-930 | No URL is returned twice, and matches follow the first occurrence of their URLs. |
| Aggregation.KillTotals | app.py:59 | One total per match. |
| Aggregation.ComputeAverages | app.py:58-63 | The keys are exactly the windows; each value is absent when there are fewer matches than the window, else the mean of the first window totals. |
| Aggregation.AverageAtLeast | app.py:61-62 | An average is at least any lower bound of its window's totals. |
| Aggregation.AverageAtMost | app.py:61-62 | An average is at most any upper bound of its window's totals. |
| Aggregation.AveragesPositive | app.py:61-62 | Every average over `group_kills_by_match`'s output is at least 1. |
| Slate.ParseSlate | app.py:105-126 | The method computes the slate entries. |
| Slate.EntryOfIff | app.py:106-123 | An item is kept exactly when it has an over/under with a non-empty title containing the marker. Its entry carries the stat value as line, and "N/A" odds when there are fewer than 1 or 2 options. |
| Slate.SlateEntriesConcat | app.py:106-123 | Slate reading distributes over concatenation. |
| Slate.SlateEntrySource | app.py:106-123 | Every entry comes from some item. |
| Slate.SlateEntryKept | app.py:106-123 | Every kept item's entry sits between those of the items before and after it. |
| Slate.TitleOfName | app.py:112-113 | A title made of a name and the suffix gives the stripped name. |
| Merger.ClassifyErrorRules | app.py:455-463 | The first rule that applies decides: timeout, connection, "404"/"not found", else "Scraping error: " plus at most the first 100 characters. Each message comes only from its rule and none is empty. |
| Merger.MessagesDistinct | app.py:457-463 | The four messages differ, and only the last starts with "Scraping error: ". |
| Merger.CollectMaps | app.py:394-401 | The loop concatenates the records of each link in order. |
| Merger.AnalyzeLinks | app.py:394-403 | The method computes the good matches of the first 40 links. |
| Merger.GoodMatchesShape | app.py:403 | Every good match has exactly two maps counted and a positive total that is their sum. |
| Merger.FindLink | app.py:304-318 | The lookup returns the entry that `LinkLookup` specifies. |
| Merger.LinkLookupChoice | app.py:304-318 | The exact key wins; otherwise, the first entry in insertion order whose display name matches either way; nothing only when no entry matches. |
| Merger.WindowsPositive | app.py:58 | The windows are 5, 10 and 25, all positive. |
| Merger.SummarizeMatches | app.py:428-450 | The success row is built from the good matches' averages. |
| Merger.AnalyzeHistory | app.py:368-450 | The method computes the row once the page has loaded. |
| Merger.AnalyzeProfile | app.py:339-450 | The method computes the row for a known profile URL. |
| Merger.ProcessPlayer | app.py:294-477 | The loop body computes the player's row. |
| Merger.Results | app.py:294-477 | One row per entry. |
| Merger.BuildResults | app.py:293-477 | The loop appends exactly the specified rows. |
| Merger.AnalyzedRowShape | app.py:339-450 | A profile row repeats the entry and carries the URL. On failure it has no averages and a non-empty error. On success it counts the good matches and holds their 5/10/25 averages. |
| Merger.PlayerRowShape | app.py:294-477 | The same for every row, and success implies a profile URL. |
| Merger.ResultsOnePerEntry | app.py:294-477 | Exactly one row per slate entry, in order, for that entry's player and line; a failure row has no averages and a non-empty error. |
| Merger.NotFoundRow | app.py:320-337 | A player that neither the link map nor the search finds gets the "not found" row, with no team or URLs. |
| Merger.RaisedRow | app.py:451-477 | A player whose search raised gets the classified message. |
| Merger.AnalyzedAveragesPositive | app.py:428-448 | A success row's averages are at least one kill. |
| Discovery.Sightings | app.py:160-194 | One sighting per slate entry. |
| Discovery.CollectTeams | app.py:156-194 | Step 1's loop computes the team groups. |
| Discovery.GroupedShape | app.py:185-190 | Team groups have distinct names and each holds a player. |
| Discovery.GroupedSound | app.py:166-190 | Every grouped player was sighted with that group's team. |
| Discovery.GroupedComplete | app.py:166-190 | Every sighting lands in its team's group. |
| Discovery.Nexts | app.py:211 | One next-match list per group. |
| Discovery.FirstsRepeat | app.py:206-208 | A team URL asked about before adds nothing. |
| Discovery.FirstsStep | app.py:215-217 | A new team URL adds its first match unless already present. |
| Discovery.FindScheduled | app.py:199-225 | Step 2's loop computes the scheduled matches. |
| Discovery.ScheduledSound | app.py:204-217 | The scheduled matches are distinct, and each is some group's next match. |
| Discovery.ScheduledComplete | app.py:204-217 | Every group's next match is scheduled. |
| Discovery.MentionsPlayer | app.py:239-248 | The inner search finds a slate player in a match's map by key or display name. |
| Discovery.HasOurPlayers | app.py:237-250 | `has_our_players` holds exactly when some slate player is mentioned. |
| Discovery.MentionedIff | app.py:239-248 | A name is mentioned exactly when `get_slate`'s lookup would find it. |
| Discovery.RelevantSound | app.py:237-250 | A relevant match has a slate player whom the lookup finds. |
| Discovery.RelevantComplete | app.py:237-250 | A match where some slate player is found is relevant. |
| Discovery.MergeLinks | app.py:257-259 | The merge loop adds each new key in turn. |
| Discovery.MergeNewKeeps | app.py:257-259 | Existing entries are neither replaced nor moved, and keys stay distinct. |
| Discovery.MergeNewCovers | app.py:257-259 | Every key of the match ends up in the map. |
| Discovery.MergeNewFrom | app.py:257-259 | Every merged entry was in the map or the match. |
| Discovery.PagesOf | app.py:233 | One page result per URL. |
| Discovery.ScanMatch | app.py:232-272 | One step 3 iteration computes the specified state. |
| Discovery.ScanMatches | app.py:231-285 | Step 3's loop computes the specified state. |
| Discovery.StepKeeps | app.py:252-272 | One match keeps the scan invariant. |
| Discovery.StepProperties | app.py:252-272 | A relevant match is recorded and all its players reach the map, which only grows; any other match changes nothing. |
| Discovery.ScanKeeps | app.py:231-285 | Keys stay distinct, a non-empty map turns the link method on, and `match_teams` is the first displayed match's teams. |
| Discovery.ScanFoundSound | app.py:252-254 | Every URL step 3 adds features a slate player. |
| Discovery.ScanKeepsMap | app.py:256-259 | Step 3 only appends to the map and keeps its keys distinct. |
| Discovery.ScanFoundComplete | app.py:252-259 | Every relevant match is found and all its players are in the map. |
| Discovery.DiscoverLinks | app.py:133-290 | The method computes discovery. |
| Discovery.DiscoverProperties | app.py:139-290 | The link method is on exactly when the map is non-empty, and the map's keys are distinct. A given match URL supplies the map, teams and URL as they are. |
| Discovery.DiscoveredUrlSound | app.py:231-254 | Every discovered URL is among the first ten scheduled matches and features a slate player whom the lookup finds. |
| Grouping.GroupByTeam | app.py:483-489 | The loop computes `players_by_team`. |
| Grouping.ByTeamDistinct | app.py:486-488 | Buckets have distinct teams. |
| Grouping.ByTeamKeyed | app.py:485-489 | Every row sits in its team's bucket. |
| Grouping.ByTeamRows | app.py:485-489 | The buckets hold a permutation of the rows: none lost or repeated. |
| Grouping.OfferKeeps | app.py:539-543 | Placing a row keeps every name placed at most once and only if taken; its non-empty name is taken afterwards. |
| Grouping.OfferEach | app.py:539-543 | The loop offers each row in turn. |
| Grouping.TeamMatchesIff | app.py:517-534 | A team matches exactly when it is permissively equal to either team. |
| Grouping.NoTeamMatchesEveryMatch | app.py:517-534 | A row with no team resembles every match. |
| Grouping.AssignToMatch | app.py:516-545 | One match's loop over the buckets computes its arrangement. |
| Grouping.AssignMatches | app.py:500-545 | The loop over `all_matches_info` computes the specified arrangement. |
| Grouping.PlacedNameSet | app.py:549-554 | The rebuilt set is the set of non-empty placed names. |
| Grouping.OtherEach | app.py:557-566 | The inner "Other" loop offers each row. |
| Grouping.AssignOther | app.py:547-566 | The last pass sends every unplaced name to "Other". |
| Grouping.SingleMatchGroups | app.py:567-613 | The single-match branch computes its arrangement. |
| Grouping.TeamGroupsOf | app.py:614-620 | The fallback branch builds one group per team. |
| Grouping.ArrangePlayers | app.py:479-620 | The method computes `players_by_match`. |
| Grouping.EnsureGroupKeeps | app.py:509-513 | Opening a group keeps the placement and makes its key present. |
| Grouping.PlacedNamesTaken | app.py:549-554 | The placed names are exactly the taken ones. |
| Grouping.ArrangeByMatchesOnce | app.py:496-566 | With match info, keys are distinct and each distinct non-empty name is placed exactly once; no other name is placed. |
| Grouping.ArrangeSingleMatchOnce | app.py:567-613 | With only the single match's teams, the same holds and the match's group is present. |
| Grouping.TeamGroupsKeepAll | app.py:614-620 | Without either, each team is one group holding exactly its rows, keys are distinct, and no row is dropped or repeated. |
| Endpoint.GetSlate | app.py:89-627 | The method computes `get_slate`'s answer. |
| Endpoint.ResponseRows | app.py:93-627 | The early answer comes exactly for an empty slate. Otherwise there is one row per entry, in order. A shown match URL is the stripped, non-empty argument and needs a non-empty link map. |
| Endpoint.ResponseGroupsOnce | app.py:491-613 | With discovered matches or match teams, the answer's groups have distinct keys and place each non-empty name of the rows exactly once. |
| Cli.ReadSlate | main.py:175-180 | The slate loop computes the `(player, line)` pairs, or the crash. |
| Cli.CrashPersists | main.py:176-177 | Once the strict loop has raised, the whole loop has raised. |
| Cli.CliLinesRaise | main.py:176-177 | The loop raises exactly when some item has no title. |
| Cli.LinesOf | main.py:180 | One `(player, line)` pair per entry. |
| Cli.CliLinesAgree | main.py:176-180 | When it does not raise, the command line keeps the same players and lines, in order, as the web endpoint. |
| Cli.SummarizePlayer | main.py:188-220 | The loop body computes the player's row. |
| Cli.Summarize | main.py:186-220 | The loop computes the summary rows, or the crash. |
| Cli.SummariesRaisePersist | main.py:189 | Once a search has raised, the whole loop has raised. |
| Cli.SummaryOfShape | main.py:189-220 | Only a raised search gives no row. Without a profile the row has no team or averages. With one, the team comes from the profile and each average is absent exactly when there are too few matches. |
| Cli.SummariesShape | main.py:186-220 | The loop raises exactly when some search raises; otherwise there is one row per player, in order. |
| Cli.SummaryAgreesWithEndpoint | main.py:203-219 | For a profile the endpoint analysed, the command line shows the same three averages. |
| Cli.OutputFileNameOverwrites | main.py:245-248 | As written, with the plain name and version 3 on disk, the chosen name already exists. |
| Cli.VersionedInjective | main.py:248 | Different version numbers give different names. |
| Cli.VersionsUpToSize | main.py:248 | Versions 2 to `hi` are `hi - 1` names. |
| Cli.FirstFree | main.py:248 | The first free version from `k`, else `hi`. |
| Cli.PlainIsNoVersion | main.py:248 | The plain name is no version. |
| Cli.FreeVersion | main.py:248 | Some version from 2 to the file count plus 2 is free. |
| Cli.FreshFileNameIsFree | main.py:245-248 | The corrected name never names an existing file. |
| Cli.FreshFileNameAgrees | main.py:245-248 | On the layout the written rule assumes (the plain name and versions `2..m`), the corrected name equals the written one. |
| Cli.ColorValCases | main.py:223-236 | N/A exactly when a value is missing; plain when the line does not parse; otherwise exactly one of green (above), red (below), yellow (equal). |
| Cli.FillMatchesConsole | main.py:100-120 | The workbook's fill agrees with the console colour: above, below, equal, or none. |

## Left out

- Network: `requests.get` and the HTML are inputs (`Pages.Web`, `Pages.Document`). There are no time-outs, retries or headers.
- Parsing primitives: `urlparse`, `strptime` and `float()` of the line are functions given with the inputs. Strings are ASCII; there is no Unicode `lower` or `isdigit`.
- scraper/underdog.py is not part of this model. The slate is an input, and a None slate counts as empty.
- Flask wiring is not modelled: CORS, the rate limiter and its 429 handler, the static routes, `get_player_stats` and `app.run`.
- `scrape_agent_stats_by_timespan`, `scrape_player_name`, `do_specific_player`, `print_pickem_summary` and `print_welcome` are not modelled. The first works on floats; the others are only used for printing or interaction.
- Export is not modelled: pandas, openpyxl, `export_agent_stats`, `export_kills_by_match`, writing the workbook, ANSI colour codes and debug prints. The fill and colour rules themselves are modelled.
- scrape_match_links: the fallback passes after the first (scraper/vlr.py:391-534) are the input `laterMatchLinks`. Their selectors, the dead `match_ids` loop and the data-attribute scan that only passes are not modelled.
- The current day (`datetime.now()`) and the output file's date text are parameters. The files the glob matches are the parameter `existing`.
- Aggregation.ComputeAverages: averages are exact rational means; the `round(..., 2)` is not modelled. The same holds for `Merger.SummarizeMatches` and `Cli.SummarizePlayer`.
- get_slate: the `match_teams_map` of step 2 is read only by step 3's exception handler. In the model no step 3 call raises, so the map and that handler (app.py:273-285) are not modelled. The same goes for the outer handler (app.py:628-631). The only exception the model raises is that of `find_player_url`'s unguarded request. It is caught per player (app.py:451-477), and in main.py nothing catches it.
- get_slate: a manual match URL whose extraction raises (app.py:150-151) cannot happen in the model, since extraction never raises.
- main.py: the slate loop raising on an item without a title is the None of `Cli.CliLines`. Failures of workbook I/O are not modelled.
- Names.NormalizeIdempotent, Names.SquashEqualNormalizeEqual: these need names whose only whitespace is spaces. With tabs or newlines on the inside, `strip()` and separator deletion do not commute.
- group_kills_by_match does not mutate its input. This holds by construction, because records are values.

## Findings

| source | as written | input that shows it | evidently intended | confidence | as-written member | corrected member |
|---|---|---|---|---|---|---|
| main.py:245-248 | The version number is one more than the number of files the glob matches. A gap in the numbering, or a stray file matching `underdog_slate_<date>*.xlsx`, makes it name a file that already exists, and the export overwrites it. | Files `underdog_slate_<date>.xlsx` and `underdog_slate_<date>_3.xlsx` exist. Two files match, so the name is `underdog_slate_<date>_3.xlsx`, which exists. | a name that does not exist yet | not executed | Cli.OutputFileNameOverwrites | Cli.FreshFileName |
