/**
  How `get_slate` (app.py) builds the player-link map before it looks any
  player up: from a match url given by hand, or in three steps. Step 1
  groups the slate's players by their current team. Step 2 takes each
  team's next scheduled match. Step 3 reads up to ten of those matches and
  keeps the ones that feature a slate player, merging their player links
  into the map.
*/
module Discovery {
  import opened Wrappers
  import opened Seqs
  import opened Text
  import opened Names
  import opened Pages
  import opened Links
  import opened MatchPages
  import opened Schedule
  import opened Slate
  import opened Merger

  /** How many scheduled matches step 3 reads. */
  const MAX_SCHEDULED: nat := 10

  /** A match kept for display: its url and its first two teams. */
  datatype MatchInfo = MatchInfo(url: string, teams: seq<string>)

  /** What discovery leaves behind: `player_link_map`, `match_teams`,
      `all_matches_info`, `match_urls_found` and `use_match_link`. */
  datatype Discovered = Discovered(
    linkMap: seq<LinkEntry>, matchTeams: seq<string>, matchesInfo: seq<MatchInfo>,
    matchUrls: seq<string>, useMatchLink: bool)

  const NOTHING: Discovered := Discovered([], [], [], [], false)

  // ---------------------------------------------------------------------
  // A match url given by hand
  // ---------------------------------------------------------------------

  /** The match's players and teams, copied as they are. The copy loop
      `player_link_map[key] = value` starts from an empty map and the match's
      keys are distinct (`MatchPages.MatchPlayersDistinct`), so the map is
      the match's own. */
  function ManualDiscovery(web: Web, matchUrl: string): Discovered {
    var md := MatchPlayersOf(web, matchUrl);
    Discovered(md.players, md.teams, [], [matchUrl], true)
  }

  // ---------------------------------------------------------------------
  // Step 1: the slate's players grouped by current team
  // ---------------------------------------------------------------------

  /** A player for whom a team and a team url were found. */
  datatype Sighting = Sighting(team: string, player: string, teamUrl: string)

  /** One entry of `teams_to_players`. */
  datatype TeamGroup = TeamGroup(team: string, players: seq<string>, teamUrl: string)

  /** What step 1 learns about one player, or nothing when the search
      raises, finds no profile, the page does not load, or the page names no
      team or team url. */
  function SightingOf(web: Web, player: string): Option<Sighting> {
    match PlayerSearch(web, player)
    case Threw(_) => None
    case Found(url) =>
      if !Truthy(url) then None
      else
        match FetchSoup(web, url.value)
        case None => None
        case Some(doc) =>
          var team := CurrentTeam(doc);
          var teamUrl := TeamUrlOfPlayer(web, url.value);
          if !Truthy(team) || !Truthy(teamUrl) then None
          else Some(Sighting(team.value, player, teamUrl.value))
  }

  /** The sighting of each slate entry, in slate order. */
  function Sightings(web: Web, info: seq<PlayerEntry>): (r: seq<Option<Sighting>>)
    ensures |r| == |info|
    ensures forall i :: 0 <= i < |info| ==> r[i] == SightingOf(web, info[i].player)
  {
    if info == [] then [] else Sightings(web, info[..|info| - 1]) + [SightingOf(web, info[|info| - 1].player)]
  }

  function TeamNames(groups: seq<TeamGroup>): (r: seq<string>)
    ensures |r| == |groups|
    ensures forall i :: 0 <= i < |groups| ==> r[i] == groups[i].team
  {
    if groups == [] then [] else TeamNames(groups[..|groups| - 1]) + [groups[|groups| - 1].team]
  }

  /** A sighting joins its team's group, or opens a new group at the end
      that keeps the team url of this first sighting. */
  function AddSighting(groups: seq<TeamGroup>, s: Sighting): seq<TeamGroup> {
    var names := TeamNames(groups);
    if s.team in names then
      var k := FirstIndex(names, s.team);
      groups[k := groups[k].(players := groups[k].players + [s.player])]
    else groups + [TeamGroup(s.team, [s.player], s.teamUrl)]
  }

  /** The groups the sightings build, in order of first sighting. */
  function Grouped(sightings: seq<Option<Sighting>>): seq<TeamGroup> {
    if sightings == [] then []
    else
      var groups := Grouped(sightings[..|sightings| - 1]);
      match sightings[|sightings| - 1]
      case None => groups
      case Some(s) => AddSighting(groups, s)
  }

  /** `teams_to_players` after step 1. */
  function TeamsToPlayers(web: Web, info: seq<PlayerEntry>): seq<TeamGroup> {
    Grouped(Sightings(web, info))
  }

  /** The loop of step 1. */
  method CollectTeams(web: Web, info: seq<PlayerEntry>) returns (groups: seq<TeamGroup>)
    ensures groups == TeamsToPlayers(web, info)
  {
    groups := [];
    for i := 0 to |info|
      invariant groups == Grouped(Sightings(web, info[..i]))
    {
      assert info[..i + 1][..i] == info[..i];
      var player := info[i].player;
      var sighting := SightingOf(web, player);
      assert Sightings(web, info[..i + 1]) == Sightings(web, info[..i]) + [sighting];
      assert Sightings(web, info[..i + 1])[..i] == Sightings(web, info[..i]);
      var found := FindPlayerUrl(web, player);
      if found.Threw? || !Truthy(found.url) {
        continue;
      }
      var playerUrl := found.url.value;
      var soup := FetchSoup(web, playerUrl);
      if soup.None? {
        continue;
      }
      var team := CurrentTeam(soup.value);
      if !Truthy(team) {
        continue;
      }
      var teamUrl := TeamUrlOfPlayer(web, playerUrl);
      if !Truthy(teamUrl) {
        continue;
      }
      var names := TeamNames(groups);
      if team.value in names {
        var k := FirstIndex(names, team.value);
        groups := groups[k := groups[k].(players := groups[k].players + [player])];
      } else {
        groups := groups + [TeamGroup(team.value, [player], teamUrl.value)];
      }
    }
    assert info[..|info|] == info;
  }

  lemma {:induction false} TeamNamesOfAdd(groups: seq<TeamGroup>, s: Sighting)
    ensures TeamNames(AddSighting(groups, s)) ==
      if s.team in TeamNames(groups) then TeamNames(groups) else TeamNames(groups) + [s.team]
  {
    var names := TeamNames(groups);
    var r := AddSighting(groups, s);
    if s.team in names {
      assert TeamNames(r) == names;
    } else {
      assert TeamNames(r) == names + [s.team];
    }
  }

  /** Groups have distinct team names, and each holds at least one player. */
  lemma {:induction false} GroupedShape(sightings: seq<Option<Sighting>>)
    ensures NoDuplicates(TeamNames(Grouped(sightings)))
    ensures forall k :: 0 <= k < |Grouped(sightings)| ==> Grouped(sightings)[k].players != []
  {
    if sightings != [] {
      var prev := sightings[..|sightings| - 1];
      var groups := Grouped(prev);
      GroupedShape(prev);
      match sightings[|sightings| - 1]
      case None =>
      case Some(s) =>
        var names := TeamNames(groups);
        var r := AddSighting(groups, s);
        TeamNamesOfAdd(groups, s);
        if s.team !in names {
          NoDuplicatesSnoc(names, s.team);
        }
        forall k | 0 <= k < |r| ensures r[k].players != [] {
          if s.team in names && k == FirstIndex(names, s.team) {
            assert r[k].players == groups[k].players + [s.player];
          } else if k < |groups| {
            assert r[k] == groups[k];
          }
        }
    }
  }

  /** Every player of a group was sighted with that group's team. */
  lemma {:induction false} GroupedSound(sightings: seq<Option<Sighting>>, k: nat, p: string) returns (i: nat)
    requires k < |Grouped(sightings)| && p in Grouped(sightings)[k].players
    ensures i < |sightings| && sightings[i].Some?
    ensures sightings[i].value.team == Grouped(sightings)[k].team && sightings[i].value.player == p
  {
    var prev := sightings[..|sightings| - 1];
    var groups := Grouped(prev);
    var last := sightings[|sightings| - 1];
    if last.None? {
      i := GroupedSound(prev, k, p);
    } else {
      var s := last.value;
      var names := TeamNames(groups);
      if s.team in names {
        var j := FirstIndex(names, s.team);
        if k == j && p !in groups[k].players {
          i := |sightings| - 1;
        } else {
          i := GroupedSound(prev, k, p);
        }
      } else if k == |groups| {
        i := |sightings| - 1;
      } else {
        i := GroupedSound(prev, k, p);
      }
    }
  }

  /** Every sighting lands in the group of its team. */
  lemma {:induction false} GroupedComplete(sightings: seq<Option<Sighting>>, i: nat) returns (k: nat)
    requires i < |sightings| && sightings[i].Some?
    ensures k < |Grouped(sightings)|
    ensures Grouped(sightings)[k].team == sightings[i].value.team
    ensures sightings[i].value.player in Grouped(sightings)[k].players
    decreases |sightings|
  {
    var prev := sightings[..|sightings| - 1];
    var groups := Grouped(prev);
    var last := sightings[|sightings| - 1];
    if i == |sightings| - 1 {
      var s := last.value;
      var names := TeamNames(groups);
      if s.team in names {
        k := FirstIndex(names, s.team);
      } else {
        k := |groups|;
      }
    } else {
      assert prev[i] == sightings[i];
      k := GroupedComplete(prev, i);
      if last.Some? {
        var s := last.value;
        var names := TeamNames(groups);
        if s.team in names {
          var j := FirstIndex(names, s.team);
          assert AddSighting(groups, s)[k].players == groups[k].players + (if k == j then [s.player] else []);
        }
      }
    }
  }

  // ---------------------------------------------------------------------
  // Step 2: each team's next match
  // ---------------------------------------------------------------------

  /** The upcoming matches of each group's team, in group order. */
  function Nexts(web: Web, groups: seq<TeamGroup>, today: Day): (r: seq<seq<string>>)
    ensures |r| == |groups|
    ensures forall i :: 0 <= i < |groups| ==> r[i] == NextMatch(web, groups[i].teamUrl, today)
  {
    if groups == [] then [] else Nexts(web, groups[..|groups| - 1], today) + [NextMatch(web, groups[|groups| - 1].teamUrl, today)]
  }

  /** `next_matches[:1]` of each list, concatenated. */
  function Firsts(nexts: seq<seq<string>>): seq<string> {
    if nexts == [] then [] else Firsts(nexts[..|nexts| - 1]) + Take(nexts[|nexts| - 1], 1)
  }

  /** `all_match_urls` after step 2. */
  function ScheduledMatches(web: Web, groups: seq<TeamGroup>, today: Day): seq<string> {
    Dedup(Firsts(Nexts(web, groups, today)))
  }

  lemma FirstsSnoc(nexts: seq<seq<string>>, i: nat)
    requires i < |nexts|
    ensures Firsts(nexts[..i + 1]) == Firsts(nexts[..i]) + Take(nexts[i], 1)
  {
    assert nexts[..i + 1][..i] == nexts[..i];
  }

  /** A team url asked about before adds no new match. */
  lemma {:induction false} FirstsRepeat(nexts: seq<seq<string>>, j: nat, i: nat)
    requires j < i < |nexts| && nexts[j] == nexts[i]
    ensures Dedup(Firsts(nexts[..i + 1])) == Dedup(Firsts(nexts[..i]))
  {
    var before := Firsts(nexts[..i]);
    FirstsSnoc(nexts, i);
    if nexts[i] == [] {
      assert Firsts(nexts[..i + 1]) == before;
    } else {
      assert nexts[..i][j] == nexts[j];
      FirstsComplete(nexts[..i], j);
      var whole := before + [nexts[i][0]];
      assert Firsts(nexts[..i + 1]) == whole;
      assert whole[..|before|] == before;
      DedupElements(before);
    }
  }

  /** A new team url adds its first match unless it is already there. */
  lemma {:induction false} FirstsStep(nexts: seq<seq<string>>, i: nat)
    requires i < |nexts|
    ensures Dedup(Firsts(nexts[..i + 1])) ==
      if nexts[i] != [] && nexts[i][0] !in Dedup(Firsts(nexts[..i]))
      then Dedup(Firsts(nexts[..i])) + [nexts[i][0]]
      else Dedup(Firsts(nexts[..i]))
  {
    var before := Firsts(nexts[..i]);
    FirstsSnoc(nexts, i);
    if nexts[i] == [] {
      assert Firsts(nexts[..i + 1]) == before;
    } else {
      var whole := before + [nexts[i][0]];
      assert Firsts(nexts[..i + 1]) == whole;
      assert whole[..|before|] == before;
      DedupElements(before);
    }
  }

  lemma {:induction false} FirstsComplete(nexts: seq<seq<string>>, j: nat)
    requires j < |nexts| && nexts[j] != []
    ensures nexts[j][0] in Firsts(nexts)
  {
    var prev := nexts[..|nexts| - 1];
    if j < |nexts| - 1 {
      assert prev[j] == nexts[j];
      FirstsComplete(prev, j);
    }
  }

  lemma {:induction false} FirstsSound(nexts: seq<seq<string>>, x: string) returns (j: nat)
    requires x in Firsts(nexts)
    ensures j < |nexts| && nexts[j] != [] && nexts[j][0] == x
  {
    var prev := nexts[..|nexts| - 1];
    var last := Take(nexts[|nexts| - 1], 1);
    if x in Firsts(prev) {
      j := FirstsSound(prev, x);
      assert prev[j] == nexts[j];
    } else {
      assert x in last;
      j := |nexts| - 1;
    }
  }

  /** The loop of step 2, which skips a team url it has already asked about. */
  method FindScheduled(web: Web, groups: seq<TeamGroup>, today: Day) returns (all: seq<string>)
    ensures all == ScheduledMatches(web, groups, today)
  {
    ghost var nexts := Nexts(web, groups, today);
    var checked: set<string> := {};
    all := [];
    for i := 0 to |groups|
      invariant all == Dedup(Firsts(nexts[..i]))
      invariant forall u :: u in checked ==> exists j :: 0 <= j < i && groups[j].teamUrl == u
    {
      var teamUrl := groups[i].teamUrl;
      if teamUrl in checked {
        var j :| 0 <= j < i && groups[j].teamUrl == teamUrl;
        FirstsRepeat(nexts, j, i);
        continue;
      }
      forall u | u in checked + {teamUrl} ensures exists j :: 0 <= j < i + 1 && groups[j].teamUrl == u {
        if u == teamUrl {
          assert groups[i].teamUrl == u;
        } else {
          var j :| 0 <= j < i && groups[j].teamUrl == u;
          assert 0 <= j < i + 1;
        }
      }
      checked := checked + {teamUrl};
      var next := GetMatchFromTeam(web, teamUrl, today);
      FirstsStep(nexts, i);
      if next != [] && next[0] !in all {
        all := all + [next[0]];
      }
    }
    assert nexts[..|groups|] == nexts;
  }

  /** The scheduled matches are distinct, each the next match of some
      group's team, and every team with an upcoming match contributes it. */
  lemma ScheduledSound(web: Web, groups: seq<TeamGroup>, today: Day, x: string) returns (j: nat)
    requires x in ScheduledMatches(web, groups, today)
    ensures j < |groups| && NextMatch(web, groups[j].teamUrl, today) != []
    ensures NextMatch(web, groups[j].teamUrl, today)[0] == x
    ensures NoDuplicates(ScheduledMatches(web, groups, today))
  {
    var nexts := Nexts(web, groups, today);
    DedupElements(Firsts(nexts));
    DedupNoDuplicates(Firsts(nexts));
    j := FirstsSound(nexts, x);
  }

  lemma ScheduledComplete(web: Web, groups: seq<TeamGroup>, today: Day, j: nat)
    requires j < |groups| && NextMatch(web, groups[j].teamUrl, today) != []
    ensures NextMatch(web, groups[j].teamUrl, today)[0] in ScheduledMatches(web, groups, today)
  {
    var nexts := Nexts(web, groups, today);
    DedupElements(Firsts(nexts));
    FirstsComplete(nexts, j);
  }

  // ---------------------------------------------------------------------
  // Step 3: the matches that feature slate players
  // ---------------------------------------------------------------------

  /** A name is in a match's player map: as a key, or partially through a
      display name. */
  predicate Mentioned(players: seq<LinkEntry>, normalized: string) {
    normalized in Keys(players) || FindFirst(PartialMatcher(normalized), players, 0).Some?
  }

  function MentionsEntry(players: seq<LinkEntry>): PlayerEntry -> bool {
    (e: PlayerEntry) => Mentioned(players, NormalizeName(e.player))
  }

  /** `has_our_players`: some slate player is mentioned. */
  predicate Relevant(info: seq<PlayerEntry>, players: seq<LinkEntry>) {
    FindFirst(MentionsEntry(players), info, 0).Some?
  }

  /** The inner search of `has_our_players` for one slate player. */
  method MentionsPlayer(players: seq<LinkEntry>, normalized: string) returns (b: bool)
    ensures b == Mentioned(players, normalized)
  {
    if normalized in Keys(players) {
      return true;
    }
    var matches := PartialMatcher(normalized);
    var k := 0;
    while k < |players|
      invariant 0 <= k <= |players|
      invariant FindFirst(matches, players, 0) == FindFirst(matches, players, k)
    {
      var display := NormalizeName(players[k].displayName);
      assert matches(players[k]) == (Contains(display, normalized) || Contains(normalized, display));
      if Contains(normalized, display) || Contains(display, normalized) {
        return true;
      }
      k := k + 1;
    }
    return false;
  }

  /** `has_our_players`, stopping at the first slate player found. */
  method HasOurPlayers(info: seq<PlayerEntry>, players: seq<LinkEntry>) returns (has: bool)
    ensures has == Relevant(info, players)
  {
    var mentions := MentionsEntry(players);
    var i := 0;
    while i < |info|
      invariant 0 <= i <= |info|
      invariant FindFirst(mentions, info, 0) == FindFirst(mentions, info, i)
    {
      var found := MentionsPlayer(players, NormalizeName(info[i].player));
      assert found == mentions(info[i]);
      if found {
        return true;
      }
      i := i + 1;
    }
    return false;
  }

  /** A name is mentioned exactly when the lookup of `get_slate` finds it. */
  lemma MentionedIff(players: seq<LinkEntry>, normalized: string)
    ensures Mentioned(players, normalized) <==> LinkLookup(players, normalized).Some?
  {
  }

  /** A match is relevant exactly when some slate player would be found in
      its player map: the first such player is the witness. */
  lemma RelevantSound(info: seq<PlayerEntry>, players: seq<LinkEntry>) returns (i: nat)
    requires Relevant(info, players)
    ensures i < |info| && LinkLookup(players, NormalizeName(info[i].player)).Some?
  {
    i := FindFirst(MentionsEntry(players), info, 0).value;
    assert MentionsEntry(players)(info[i]);
    MentionedIff(players, NormalizeName(info[i].player));
  }

  lemma RelevantComplete(info: seq<PlayerEntry>, players: seq<LinkEntry>, i: nat)
    requires i < |info| && LinkLookup(players, NormalizeName(info[i].player)).Some?
    ensures Relevant(info, players)
  {
    MentionedIff(players, NormalizeName(info[i].player));
    assert MentionsEntry(players)(info[i]);
  }

  /** `if key not in player_link_map: player_link_map[key] = value` for each
      entry of a match in turn. */
  function MergeNew(current: seq<LinkEntry>, incoming: seq<LinkEntry>): seq<LinkEntry> {
    if incoming == [] then current
    else
      var merged := MergeNew(current, incoming[..|incoming| - 1]);
      var e := incoming[|incoming| - 1];
      if e.key in Keys(merged) then merged else merged + [e]
  }

  /** The merge loop. */
  method MergeLinks(current: seq<LinkEntry>, incoming: seq<LinkEntry>) returns (merged: seq<LinkEntry>)
    ensures merged == MergeNew(current, incoming)
  {
    merged := current;
    for i := 0 to |incoming|
      invariant merged == MergeNew(current, incoming[..i])
    {
      assert incoming[..i + 1][..i] == incoming[..i];
      if incoming[i].key !in Keys(merged) {
        merged := merged + [incoming[i]];
      }
    }
    assert incoming[..|incoming|] == incoming;
  }

  lemma {:induction false} KeysPrefix(a: seq<LinkEntry>, b: seq<LinkEntry>)
    requires a <= b
    ensures Keys(a) <= Keys(b)
  {
    assert forall i :: 0 <= i < |a| ==> Keys(a)[i] == Keys(b)[i];
  }

  /** An entry already in the map is never replaced or moved, and the keys
      stay distinct. */
  lemma {:induction false} MergeNewKeeps(current: seq<LinkEntry>, incoming: seq<LinkEntry>)
    requires NoDuplicates(Keys(current))
    ensures current <= MergeNew(current, incoming)
    ensures NoDuplicates(Keys(MergeNew(current, incoming)))
  {
    if incoming != [] {
      var prev := incoming[..|incoming| - 1];
      var merged := MergeNew(current, prev);
      var e := incoming[|incoming| - 1];
      MergeNewKeeps(current, prev);
      if e.key !in Keys(merged) {
        KeysOfSnoc(merged, e);
        NoDuplicatesSnoc(Keys(merged), e.key);
      }
    }
  }

  /** Every key of the match ends up in the map. */
  lemma {:induction false} MergeNewCovers(current: seq<LinkEntry>, incoming: seq<LinkEntry>, j: nat)
    requires j < |incoming|
    ensures incoming[j].key in Keys(MergeNew(current, incoming))
  {
    var prev := incoming[..|incoming| - 1];
    var merged := MergeNew(current, prev);
    var e := incoming[|incoming| - 1];
    var r := MergeNew(current, incoming);
    if e.key !in Keys(merged) {
      KeysOfSnoc(merged, e);
    }
    assert Keys(merged) <= Keys(r);
    if j < |prev| {
      assert prev[j] == incoming[j];
      MergeNewCovers(current, prev, j);
      InPrefix(Keys(merged), Keys(r), incoming[j].key);
    }
  }

  /** Every entry of the merged map was in the map or in the match. */
  lemma {:induction false} MergeNewFrom(current: seq<LinkEntry>, incoming: seq<LinkEntry>, e: LinkEntry)
    requires e in MergeNew(current, incoming)
    ensures e in current || e in incoming
  {
    if incoming != [] {
      var prev := incoming[..|incoming| - 1];
      if e in MergeNew(current, prev) {
        MergeNewFrom(current, prev, e);
      }
    }
  }

  /** One match of step 3, given its player map and teams. */
  function ScanStep(info: seq<PlayerEntry>, st: Discovered, url: string, md: MatchPlayers): Discovered {
    if !Relevant(info, md.players) then st
    else
      var teams := Take(md.teams, 2);
      Discovered(
        MergeNew(st.linkMap, md.players),
        if md.teams != [] && st.matchTeams == [] then teams else st.matchTeams,
        if md.teams != [] then st.matchesInfo + [MatchInfo(url, teams)] else st.matchesInfo,
        st.matchUrls + [url],
        true)
  }

  /** What `extract_player_links_from_match` gives for each url. */
  function PagesOf(web: Web, urls: seq<string>): (r: seq<MatchPlayers>)
    ensures |r| == |urls|
    ensures forall i :: 0 <= i < |urls| ==> r[i] == MatchPlayersOf(web, urls[i])
  {
    if urls == [] then [] else PagesOf(web, urls[..|urls| - 1]) + [MatchPlayersOf(web, urls[|urls| - 1])]
  }

  /** Step 3 over matches and their pages. */
  function Scan(info: seq<PlayerEntry>, urls: seq<string>, pages: seq<MatchPlayers>, st: Discovered): Discovered
    requires |pages| == |urls|
  {
    if urls == [] then st
    else ScanStep(info, Scan(info, urls[..|urls| - 1], pages[..|pages| - 1], st), urls[|urls| - 1], pages[|pages| - 1])
  }

  /** One match of the loop of step 3. */
  method ScanMatch(web: Web, info: seq<PlayerEntry>, st: Discovered, url: string) returns (r: Discovered)
    ensures r == ScanStep(info, st, url, MatchPlayersOf(web, url))
  {
    var md := ExtractPlayerLinks(web, url);
    var has := HasOurPlayers(info, md.players);
    if !has {
      return st;
    }
    var linkMap := MergeLinks(st.linkMap, md.players);
    var matchTeams := st.matchTeams;
    var matchesInfo := st.matchesInfo;
    if md.teams != [] {
      var teams := if |md.teams| <= 2 then md.teams else md.teams[..2];
      matchesInfo := matchesInfo + [MatchInfo(url, teams)];
      if matchTeams == [] {
        matchTeams := teams;
      }
    }
    r := Discovered(linkMap, matchTeams, matchesInfo, st.matchUrls + [url], true);
  }

  /** The loop of step 3. */
  method ScanMatches(web: Web, info: seq<PlayerEntry>, urls: seq<string>, st: Discovered) returns (r: Discovered)
    ensures r == Scan(info, urls, PagesOf(web, urls), st)
  {
    ghost var pages := PagesOf(web, urls);
    r := st;
    for i := 0 to |urls|
      invariant r == Scan(info, urls[..i], pages[..i], st)
    {
      assert urls[..i + 1][..i] == urls[..i];
      assert pages[..i + 1][..i] == pages[..i];
      assert pages[..i + 1][i] == MatchPlayersOf(web, urls[i]);
      r := ScanMatch(web, info, r, urls[i]);
    }
    assert urls[..|urls|] == urls;
    assert pages[..|urls|] == pages;
  }

  /** What step 3 keeps true of its state. */
  predicate ScanInvariant(st: Discovered) {
    NoDuplicates(Keys(st.linkMap)) &&
    (st.linkMap == [] || st.useMatchLink) &&
    st.matchTeams == (if st.matchesInfo == [] then [] else st.matchesInfo[0].teams) &&
    forall m :: 0 <= m < |st.matchesInfo| ==> 0 < |st.matchesInfo[m].teams| <= 2
  }

  /** One match keeps the invariant. */
  lemma StepKeeps(info: seq<PlayerEntry>, st: Discovered, url: string, md: MatchPlayers)
    requires ScanInvariant(st)
    ensures ScanInvariant(ScanStep(info, st, url, md))
  {
    if Relevant(info, md.players) {
      var r := ScanStep(info, st, url, md);
      MergeNewKeeps(st.linkMap, md.players);
      if md.teams != [] {
        var teams := Take(md.teams, 2);
        var info' := st.matchesInfo + [MatchInfo(url, teams)];
        assert r.matchesInfo == info';
        assert forall m :: 0 <= m < |info'| ==> 0 < |info'[m].teams| <= 2;
        if st.matchesInfo == [] {
          assert r.matchTeams == teams == info'[0].teams;
        } else {
          assert info'[0] == st.matchesInfo[0];
          assert r.matchTeams == st.matchTeams;
        }
      }
    }
  }

  /** A relevant match is recorded and all its players reach the map, which
      only grows; any other match changes nothing. */
  lemma StepProperties(info: seq<PlayerEntry>, st: Discovered, url: string, md: MatchPlayers)
    requires NoDuplicates(Keys(st.linkMap))
    ensures st.linkMap <= ScanStep(info, st, url, md).linkMap
    ensures NoDuplicates(Keys(ScanStep(info, st, url, md).linkMap))
    ensures Relevant(info, md.players) ==>
      ScanStep(info, st, url, md).matchUrls == st.matchUrls + [url] &&
      forall j :: 0 <= j < |md.players| ==> md.players[j].key in Keys(ScanStep(info, st, url, md).linkMap)
    ensures !Relevant(info, md.players) ==> ScanStep(info, st, url, md) == st
  {
    if Relevant(info, md.players) {
      MergeNewKeeps(st.linkMap, md.players);
      forall j | 0 <= j < |md.players| ensures md.players[j].key in Keys(MergeNew(st.linkMap, md.players)) {
        MergeNewCovers(st.linkMap, md.players, j);
      }
    }
  }

  /** Keys stay distinct, a non-empty map switches the link method on, and
      `match_teams` holds the teams of the first match kept for display,
      every one of which has one or two teams. */
  lemma {:induction false} ScanKeeps(info: seq<PlayerEntry>, urls: seq<string>, pages: seq<MatchPlayers>, st: Discovered)
    requires |pages| == |urls| && ScanInvariant(st)
    ensures ScanInvariant(Scan(info, urls, pages, st))
  {
    if urls != [] {
      var prev := Scan(info, urls[..|urls| - 1], pages[..|pages| - 1], st);
      ScanKeeps(info, urls[..|urls| - 1], pages[..|pages| - 1], st);
      StepKeeps(info, prev, urls[|urls| - 1], pages[|pages| - 1]);
    }
  }

  /** A url step 3 adds belongs to a match that features a slate player. */
  lemma {:induction false} ScanFoundSound(info: seq<PlayerEntry>, urls: seq<string>, pages: seq<MatchPlayers>, st: Discovered, k: nat)
    returns (i: nat)
    requires |pages| == |urls| && |st.matchUrls| <= k < |Scan(info, urls, pages, st).matchUrls|
    ensures i < |urls| && urls[i] == Scan(info, urls, pages, st).matchUrls[k]
    ensures Relevant(info, pages[i].players)
  {
    var prevUrls, prevPages := urls[..|urls| - 1], pages[..|pages| - 1];
    var prev := Scan(info, prevUrls, prevPages, st);
    var md := pages[|pages| - 1];
    if Relevant(info, md.players) && k == |prev.matchUrls| {
      i := |urls| - 1;
    } else {
      i := ScanFoundSound(info, prevUrls, prevPages, st, k);
      assert prevUrls[i] == urls[i] && prevPages[i] == pages[i];
    }
  }

  /** Step 3 only appends to the map, and keeps its keys distinct. */
  lemma {:induction false} ScanKeepsMap(info: seq<PlayerEntry>, urls: seq<string>, pages: seq<MatchPlayers>, st: Discovered)
    requires |pages| == |urls| && NoDuplicates(Keys(st.linkMap))
    ensures st.linkMap <= Scan(info, urls, pages, st).linkMap
    ensures NoDuplicates(Keys(Scan(info, urls, pages, st).linkMap))
    ensures st.matchUrls <= Scan(info, urls, pages, st).matchUrls
  {
    if urls != [] {
      var prev := Scan(info, urls[..|urls| - 1], pages[..|pages| - 1], st);
      ScanKeepsMap(info, urls[..|urls| - 1], pages[..|pages| - 1], st);
      StepProperties(info, prev, urls[|urls| - 1], pages[|pages| - 1]);
    }
  }

  /** Every relevant match's url is found, and all its players are in the map. */
  lemma {:induction false} ScanFoundComplete(info: seq<PlayerEntry>, urls: seq<string>, pages: seq<MatchPlayers>, st: Discovered, i: nat, j: nat)
    requires |pages| == |urls| && i < |urls| && Relevant(info, pages[i].players)
    requires NoDuplicates(Keys(st.linkMap)) && j < |pages[i].players|
    ensures urls[i] in Scan(info, urls, pages, st).matchUrls
    ensures pages[i].players[j].key in Keys(Scan(info, urls, pages, st).linkMap)
  {
    var prevUrls, prevPages := urls[..|urls| - 1], pages[..|pages| - 1];
    var prev := Scan(info, prevUrls, prevPages, st);
    var md := pages[|pages| - 1];
    var r := Scan(info, urls, pages, st);
    ScanKeepsMap(info, prevUrls, prevPages, st);
    StepProperties(info, prev, urls[|urls| - 1], md);
    if i < |urls| - 1 {
      assert prevUrls[i] == urls[i] && prevPages[i] == pages[i];
      ScanFoundComplete(info, prevUrls, prevPages, st, i, j);
      KeysPrefix(prev.linkMap, r.linkMap);
      InPrefix(Keys(prev.linkMap), Keys(r.linkMap), pages[i].players[j].key);
      InPrefix(prev.matchUrls, r.matchUrls, urls[i]);
    }
  }

  // ---------------------------------------------------------------------
  // The whole discovery
  // ---------------------------------------------------------------------

  /** Steps 1 to 3, from nothing found. */
  function AutoDiscovery(web: Web, info: seq<PlayerEntry>, today: Day): Discovered {
    var groups := TeamsToPlayers(web, info);
    if groups == [] then NOTHING
    else
      var urls := Take(ScheduledMatches(web, groups, today), MAX_SCHEDULED);
      Scan(info, urls, PagesOf(web, urls), NOTHING)
  }

  /** Discovery as `get_slate` runs it, for a stripped `match_url` argument:
      the given match, else the three steps when the slate is not empty;
      the link method is switched off when the map stays empty. */
  function Discover(web: Web, info: seq<PlayerEntry>, matchUrl: string, today: Day): Discovered {
    var manual := if matchUrl != "" then ManualDiscovery(web, matchUrl) else NOTHING;
    var st := if !manual.useMatchLink && |info| > 0 then AutoDiscovery(web, info, today) else manual;
    if st.linkMap == [] then st.(useMatchLink := false) else st
  }

  method DiscoverLinks(web: Web, info: seq<PlayerEntry>, matchUrl: string, today: Day) returns (found: Discovered)
    ensures found == Discover(web, info, matchUrl, today)
  {
    found := NOTHING;
    if matchUrl != "" {
      var md := ExtractPlayerLinks(web, matchUrl);
      found := Discovered(md.players, md.teams, [], [matchUrl], true);
    }
    if !found.useMatchLink && |info| > 0 {
      var groups := CollectTeams(web, info);
      if |groups| > 0 {
        var all := FindScheduled(web, groups, today);
        found := ScanMatches(web, info, Take(all, MAX_SCHEDULED), found);
      }
    }
    if found.linkMap == [] {
      found := found.(useMatchLink := false);
    }
  }

  /** The link method is on exactly when the map is not empty; the map's
      keys are distinct; `match_teams` is the first displayed match's teams
      when the three steps ran; a given match url is used as it is. */
  lemma DiscoverProperties(web: Web, info: seq<PlayerEntry>, matchUrl: string, today: Day)
    ensures Discover(web, info, matchUrl, today).useMatchLink <==> Discover(web, info, matchUrl, today).linkMap != []
    ensures NoDuplicates(Keys(Discover(web, info, matchUrl, today).linkMap))
    ensures matchUrl == "" ==> ScanInvariant(Discover(web, info, matchUrl, today))
    ensures matchUrl != "" ==>
      Discover(web, info, matchUrl, today).linkMap == MatchPlayersOf(web, matchUrl).players &&
      Discover(web, info, matchUrl, today).matchTeams == MatchPlayersOf(web, matchUrl).teams &&
      Discover(web, info, matchUrl, today).matchUrls == [matchUrl]
  {
    if matchUrl != "" {
      MatchPlayersDistinct(web, matchUrl);
    } else if |info| > 0 {
      var groups := TeamsToPlayers(web, info);
      if groups != [] {
        var urls := Take(ScheduledMatches(web, groups, today), MAX_SCHEDULED);
        ScanKeeps(info, urls, PagesOf(web, urls), NOTHING);
      }
    }
  }

  /** Every match url the three steps find is among the first ten scheduled
      matches and features a slate player whom the lookup would find. */
  lemma DiscoveredUrlSound(web: Web, info: seq<PlayerEntry>, today: Day, k: nat) returns (p: nat)
    requires k < |AutoDiscovery(web, info, today).matchUrls|
    ensures AutoDiscovery(web, info, today).matchUrls[k] in
      Take(ScheduledMatches(web, TeamsToPlayers(web, info), today), MAX_SCHEDULED)
    ensures p < |info|
    ensures LinkLookup(MatchPlayersOf(web, AutoDiscovery(web, info, today).matchUrls[k]).players,
                       NormalizeName(info[p].player)).Some?
  {
    var groups := TeamsToPlayers(web, info);
    var urls := Take(ScheduledMatches(web, groups, today), MAX_SCHEDULED);
    var pages := PagesOf(web, urls);
    var i := ScanFoundSound(info, urls, pages, NOTHING, k);
    p := RelevantSound(info, pages[i].players);
  }
}
