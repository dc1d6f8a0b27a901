/**
  Finding matches (scraper/vlr.py): the next match of a team
  (`get_match_from_team`), the matches listed for a pair of teams
  (`find_matches_between_teams`) and for every pair of a list of teams
  (`find_match_urls_for_teams`).
*/
module Schedule {
  import opened Wrappers
  import opened Seqs
  import opened Text
  import opened Names
  import opened Pages
  import opened Links
  import opened MatchPages

  // ---------------------------------------------------------------------
  // The next match of a team
  // ---------------------------------------------------------------------

  /** The day a match date string names: the first word of a date with a
      time part or longer than "YYYY-MM-DD", else the whole string, read by
      `strptime(_, "%Y-%m-%d")`; None when that raises. */
  function DayOf(web: Web, date: string): Option<Day> {
    if ':' in date || |date| > 10 then
      var ws := Words(date);
      if ws == [] then None else web.parseDay(ws[0])
    else web.parseDay(date)
  }

  /** A candidate on which the scan stops: its page loads, carries a date,
      and that date is today or later, or cannot be read and the page has no
      stats tables. */
  predicate Decisive(web: Web, url: string, today: Day) {
    match FetchSoup(web, url)
    case None => false
    case Some(doc) =>
      var date := MatchDate(web, doc.dateTags);
      date != UNKNOWN_DATE &&
      match DayOf(web, date)
      case Some(d) => DayLe(today, d)
      case None => !doc.hasStatsTables
  }

  /** A candidate whose page loads but shows no date. */
  predicate Undated(web: Web, url: string) {
    match FetchSoup(web, url)
    case None => false
    case Some(doc) => MatchDate(web, doc.dateTags) == UNKNOWN_DATE
  }

  /** The undated candidates, in order: the `upcoming_matches` list. */
  function UndatedAmong(web: Web, urls: seq<string>): (r: seq<string>)
    ensures forall u :: u in r ==> u in urls && Undated(web, u)
  {
    if urls == [] then []
    else
      var rest := UndatedAmong(web, urls[..|urls| - 1]);
      var u := urls[|urls| - 1];
      if Undated(web, u) then rest + [u] else rest
  }

  /** The position of the first decisive candidate at or after `i`. */
  function FirstDecisive(web: Web, urls: seq<string>, today: Day, i: nat): (k: Option<nat>)
    requires i <= |urls|
    ensures k.Some? ==> i <= k.value < |urls| && Decisive(web, urls[k.value], today)
    ensures k.Some? ==> forall j :: i <= j < k.value ==> !Decisive(web, urls[j], today)
    ensures k.None? ==> forall j :: i <= j < |urls| ==> !Decisive(web, urls[j], today)
    decreases |urls| - i
  {
    if i == |urls| then None
    else if Decisive(web, urls[i], today) then Some(i)
    else FirstDecisive(web, urls, today, i + 1)
  }

  /** The choice among the candidates: the first decisive one, else the first
      undated one, else the first candidate. */
  function NextAmong(web: Web, urls: seq<string>, today: Day): seq<string> {
    match FirstDecisive(web, urls, today, 0)
    case Some(k) => [urls[k]]
    case None =>
      var undated := UndatedAmong(web, urls);
      if undated != [] then [undated[0]]
      else if urls != [] then [urls[0]]
      else []
  }

  /** What `get_match_from_team(team_url)` returns on day `today`. */
  function NextMatch(web: Web, teamUrl: string, today: Day): seq<string> {
    match FetchSoup(web, teamUrl)
    case None => []
    case Some(doc) => NextAmong(web, Dedup(Candidates(web, doc.anchors)), today)
  }

  /** `get_match_from_team`. */
  method GetMatchFromTeam(web: Web, teamUrl: string, today: Day) returns (r: seq<string>)
    ensures r == NextMatch(web, teamUrl, today)
  {
    var soup := FetchSoup(web, teamUrl);
    if soup.None? {
      return [];
    }
    var urls := CollectMatchLinks(web, soup.value.anchors);
    var undated: seq<string> := [];
    for i := 0 to |urls|
      invariant FirstDecisive(web, urls, today, 0) == FirstDecisive(web, urls, today, i)
      invariant undated == UndatedAmong(web, urls[..i])
    {
      assert urls[..i + 1][..i] == urls[..i];
      var u := urls[i];
      var page := FetchSoup(web, u);
      if page.None? {
        continue;
      }
      var date := MatchDate(web, page.value.dateTags);
      if date == UNKNOWN_DATE {
        undated := undated + [u];
        continue;
      }
      var day := DayOf(web, date);
      if day.Some? {
        if DayLe(today, day.value) {
          return [u];
        }
      } else if !page.value.hasStatsTables {
        return [u];
      }
    }
    assert urls[..|urls|] == urls;
    if undated != [] {
      return [undated[0]];
    }
    if urls != [] {
      return [urls[0]];
    }
    return [];
  }

  /** At most one URL, always a candidate; none exactly when the team page
      fails to load or shows no candidate. */
  lemma NextMatchShape(web: Web, teamUrl: string, today: Day)
    ensures |NextMatch(web, teamUrl, today)| <= 1
    ensures NextMatch(web, teamUrl, today) == [] <==>
      FetchSoup(web, teamUrl).None? || Dedup(Candidates(web, FetchSoup(web, teamUrl).value.anchors)) == []
    ensures NextMatch(web, teamUrl, today) != [] ==>
      NextMatch(web, teamUrl, today)[0] in Dedup(Candidates(web, FetchSoup(web, teamUrl).value.anchors))
  {
    if FetchSoup(web, teamUrl).Some? {
      var urls := Dedup(Candidates(web, FetchSoup(web, teamUrl).value.anchors));
      var undated := UndatedAmong(web, urls);
      if FirstDecisive(web, urls, today, 0).None? && undated != [] {
        assert undated[0] in undated;
      }
    }
  }

  /** A decisive candidate ends the scan: the result is the first one. */
  lemma NextIsFirstDecisive(web: Web, urls: seq<string>, today: Day, k: nat)
    requires k < |urls| && Decisive(web, urls[k], today)
    ensures exists i :: 0 <= i <= k && NextAmong(web, urls, today) == [urls[i]] && Decisive(web, urls[i], today) &&
                        forall j :: 0 <= j < i ==> !Decisive(web, urls[j], today)
  {
    var i := FirstDecisive(web, urls, today, 0).value;
    assert NextAmong(web, urls, today) == [urls[i]];
  }

  /** An undated candidate is chosen only when no candidate is decisive, and
      then it is the first undated one. */
  lemma UndatedOnlyAfterwards(web: Web, urls: seq<string>, today: Day)
    requires NextAmong(web, urls, today) != [] && !Decisive(web, NextAmong(web, urls, today)[0], today)
    ensures forall j :: 0 <= j < |urls| ==> !Decisive(web, urls[j], today)
    ensures UndatedAmong(web, urls) != [] ==> NextAmong(web, urls, today) == [UndatedAmong(web, urls)[0]]
  {
  }

  // ---------------------------------------------------------------------
  // Matches between two teams
  // ---------------------------------------------------------------------

  const MATCHES_URL: string := BASE_URL + "/matches"

  /** A link on the matches page mentions a team when the team's normalised
      name occurs in the normalised text of the link or of its parent. */
  predicate Mentions(a: Anchor, team: string) {
    Contains(NormalizeName(a.text), team) || Contains(NormalizeName(a.parentText), team)
  }

  /** An anchor of the matches page found for the pair. */
  predicate PairLink(a: Anchor, n1: string, n2: string) {
    StartsWith(a.href, "/") && IsMatchPath(a.href) && (Mentions(a, n1) || Mentions(a, n2))
  }

  /** The URL an anchor of the matches page contributes for the pair. */
  function PairLinkOf(a: Anchor, n1: string, n2: string): Option<string> {
    if PairLink(a, n1, n2) then Some(BASE_URL + a.href) else None
  }

  /** The match URLs on the matches page found for a pair of normalised team
      names, repetitions included. */
  function PairLinks(anchors: seq<Anchor>, n1: string, n2: string): seq<string> {
    if anchors == [] then []
    else
      var rest := PairLinks(anchors[..|anchors| - 1], n1, n2);
      match PairLinkOf(anchors[|anchors| - 1], n1, n2)
      case Some(u) => rest + [u]
      case None => rest
  }

  /** How many links the scan keeps: `limit`, but at least the one appended
      before the length test. */
  function Cap(limit: nat): nat { if limit == 0 then 1 else limit }

  /** What `find_matches_between_teams(team1, team2, limit)` returns. */
  function MatchesBetween(web: Web, team1: string, team2: string, limit: nat): seq<string> {
    match FetchSoup(web, MATCHES_URL)
    case None => []
    case Some(doc) => Take(Dedup(PairLinks(doc.anchors, NormalizeName(team1), NormalizeName(team2))), Cap(limit))
  }

  lemma {:induction false} PairLinksConcat(a: seq<Anchor>, b: seq<Anchor>, n1: string, n2: string)
    ensures PairLinks(a + b, n1, n2) == PairLinks(a, n1, n2) + PairLinks(b, n1, n2)
  {
    if b == [] {
      assert a + b == a;
    } else {
      assert (a + b)[..|a + b| - 1] == a + b[..|b| - 1];
      assert (a + b)[|a + b| - 1] == b[|b| - 1];
      PairLinksConcat(a, b[..|b| - 1], n1, n2);
    }
  }

  /** Once the links of a prefix of the anchors fill the cap, they are the
      capped links of all the anchors. */
  lemma CapReached(anchors: seq<Anchor>, i: nat, n1: string, n2: string, limit: nat)
    requires i <= |anchors| && |Dedup(PairLinks(anchors[..i], n1, n2))| == Cap(limit)
    ensures Take(Dedup(PairLinks(anchors, n1, n2)), Cap(limit)) == Dedup(PairLinks(anchors[..i], n1, n2))
  {
    assert anchors == anchors[..i] + anchors[i..];
    PairLinksConcat(anchors[..i], anchors[i..], n1, n2);
    DedupPrefix(PairLinks(anchors[..i], n1, n2), PairLinks(anchors[i..], n1, n2));
  }

  /** The scan of the matches page's anchors, stopping once `limit` distinct
      links are kept. */
  method ScanPairLinks(anchors: seq<Anchor>, n1: string, n2: string, limit: nat) returns (links: seq<string>)
    ensures links == Take(Dedup(PairLinks(anchors, n1, n2)), Cap(limit))
  {
    links := [];
    for i := 0 to |anchors|
      invariant links == Dedup(PairLinks(anchors[..i], n1, n2))
      invariant |links| < Cap(limit)
    {
      assert anchors[..i + 1][..i] == anchors[..i];
      var u := PairLinkOf(anchors[i], n1, n2);
      if u.Some? && u.value !in links {
        links := links + [u.value];
        if |links| >= limit {
          CapReached(anchors, i + 1, n1, n2, limit);
          return;
        }
      }
    }
    assert anchors[..|anchors|] == anchors;
  }

  /** `find_matches_between_teams`. */
  method FindMatchesBetweenTeams(web: Web, team1: string, team2: string, limit: nat) returns (links: seq<string>)
    ensures links == MatchesBetween(web, team1, team2, limit)
  {
    var soup := FetchSoup(web, MATCHES_URL);
    if soup.None? {
      return [];
    }
    links := ScanPairLinks(soup.value.anchors, NormalizeName(team1), NormalizeName(team2), limit);
  }

  lemma {:induction false} PairLinksFrom(anchors: seq<Anchor>, n1: string, n2: string, u: string)
    requires u in PairLinks(anchors, n1, n2)
    ensures exists i :: 0 <= i < |anchors| && PairLinkOf(anchors[i], n1, n2) == Some(u)
  {
    var p := anchors[..|anchors| - 1];
    if u in PairLinks(p, n1, n2) {
      PairLinksFrom(p, n1, n2, u);
      var i :| 0 <= i < |p| && PairLinkOf(p[i], n1, n2) == Some(u);
      assert p[i] == anchors[i];
    }
  }

  /** At most `limit` distinct URLs (one when the limit is 0), each the link
      of a match-path anchor mentioning one of the two teams. */
  lemma MatchesBetweenProperties(web: Web, team1: string, team2: string, limit: nat, u: string)
    ensures NoDuplicates(MatchesBetween(web, team1, team2, limit))
    ensures |MatchesBetween(web, team1, team2, limit)| <= Cap(limit)
    ensures u in MatchesBetween(web, team1, team2, limit) ==>
      exists a :: a in FetchSoup(web, MATCHES_URL).value.anchors && PairLink(a, NormalizeName(team1), NormalizeName(team2)) && u == BASE_URL + a.href
  {
    if FetchSoup(web, MATCHES_URL).Some? {
      var anchors := FetchSoup(web, MATCHES_URL).value.anchors;
      var n1, n2 := NormalizeName(team1), NormalizeName(team2);
      var d := Dedup(PairLinks(anchors, n1, n2));
      DedupNoDuplicates(PairLinks(anchors, n1, n2));
      DedupElements(PairLinks(anchors, n1, n2));
      var r := Take(d, Cap(limit));
      assert forall i, j :: 0 <= i < j < |r| ==> r[i] == d[i] && r[j] == d[j];
      if u in r {
        assert u in d;
        PairLinksFrom(anchors, n1, n2, u);
        var i :| 0 <= i < |anchors| && PairLinkOf(anchors[i], n1, n2) == Some(u);
        assert anchors[i] in anchors;
      }
    }
  }

  /** A team whose name normalises to nothing is mentioned by every link. */
  lemma EmptyTeamMentioned(a: Anchor, team: string)
    requires NormalizeName(team) == ""
    ensures Mentions(a, NormalizeName(team))
  {
    ContainsEmpty(NormalizeName(a.text));
  }

  // ---------------------------------------------------------------------
  // Matches for every pair of a list of teams
  // ---------------------------------------------------------------------

  /** A match found for the pair (team1, team2). */
  datatype Hit = Hit(url: string, team1: string, team2: string)

  /** What `find_match_urls_for_teams` returns: the distinct match URLs in
      the order found, and for each the pair it was first found for. */
  datatype MatchIndex = MatchIndex(urls: seq<string>, teamsOf: map<string, seq<string>>)

  /** The hits of the matches found for one pair. */
  function HitsOf(ms: seq<string>, team1: string, team2: string): (r: seq<Hit>)
    ensures |r| == |ms|
  {
    if ms == [] then [] else HitsOf(ms[..|ms| - 1], team1, team2) + [Hit(ms[|ms| - 1], team1, team2)]
  }

  lemma {:induction false} HitsOfAt(ms: seq<string>, team1: string, team2: string, k: nat)
    requires k < |ms|
    ensures HitsOf(ms, team1, team2)[k] == Hit(ms[k], team1, team2)
  {
    if k < |ms| - 1 {
      HitsOfAt(ms[..|ms| - 1], team1, team2, k);
    }
  }

  /** The matches `find_matches_between_teams` finds for every ordered pair
      of the teams: `table[i][j]` for `teams[i]` against `teams[j]`. */
  function PairTable(web: Web, teams: seq<string>, perPair: nat): (table: seq<seq<seq<string>>>)
    ensures Tabulates(table, web, teams, perPair)
  {
    seq(|teams|, i requires 0 <= i < |teams| =>
      seq(|teams|, j requires 0 <= j < |teams| => MatchesBetween(web, teams[i], teams[j], perPair)))
  }

  /** A square table of the pair searches. */
  predicate Square(table: seq<seq<seq<string>>>, n: nat) {
    |table| == n && forall i :: 0 <= i < n ==> |table[i]| == n
  }

  predicate Tabulates(table: seq<seq<seq<string>>>, web: Web, teams: seq<string>, perPair: nat) {
    Square(table, |teams|) &&
    forall i, j {:trigger MatchesBetween(web, teams[i], teams[j], perPair)} ::
      0 <= i < |teams| && 0 <= j < |teams| ==> table[i][j] == MatchesBetween(web, teams[i], teams[j], perPair)
  }

  function PairHits(table: seq<seq<seq<string>>>, teams: seq<string>, i: nat, j: nat): seq<Hit>
    requires i < j < |teams| && Square(table, |teams|)
  {
    HitsOf(table[i][j], teams[i], teams[j])
  }

  /** The hits of the pairs (i, i+1), ..., (i, j-1). */
  function RowHits(table: seq<seq<seq<string>>>, teams: seq<string>, i: nat, j: nat): seq<Hit>
    requires i < j <= |teams| && Square(table, |teams|)
    decreases j
  {
    if j == i + 1 then [] else RowHits(table, teams, i, j - 1) + PairHits(table, teams, i, j - 1)
  }

  /** The hits of every pair whose first team comes before position `i`. */
  function AllHits(table: seq<seq<seq<string>>>, teams: seq<string>, i: nat): seq<Hit>
    requires i <= |teams| && Square(table, |teams|)
  {
    if i == 0 then [] else AllHits(table, teams, i - 1) + RowHits(table, teams, i - 1, |teams|)
  }

  /** One hit: a URL is recorded, with its pair, the first time it is hit. */
  function Record(m: MatchIndex, h: Hit): MatchIndex {
    if h.url in m.urls then m
    else MatchIndex(m.urls + [h.url], m.teamsOf[h.url := [h.team1, h.team2]])
  }

  /** The index after a sequence of hits, starting from `m`. */
  function RegisterFrom(m: MatchIndex, hits: seq<Hit>): MatchIndex {
    if hits == [] then m else Record(RegisterFrom(m, hits[..|hits| - 1]), hits[|hits| - 1])
  }

  /** The index after a sequence of hits, starting from nothing. */
  function Register(hits: seq<Hit>): MatchIndex {
    RegisterFrom(MatchIndex([], map[]), hits)
  }

  /** What `find_match_urls_for_teams(teams, per_pair)` returns. */
  function MatchUrlsForTeams(web: Web, teams: seq<string>, perPair: nat): MatchIndex {
    if |teams| >= 2 then Register(AllHits(PairTable(web, teams, perPair), teams, |teams|)) else MatchIndex([], map[])
  }

  /** The visit of one pair: record each match found for it. */
  method RecordPair(web: Web, teams: seq<string>, i: nat, j: nat, perPair: nat, index: MatchIndex,
                    ghost table: seq<seq<seq<string>>>, ghost start: MatchIndex)
      returns (index': MatchIndex)
    requires i < j < |teams| && table == PairTable(web, teams, perPair)
    requires index == RegisterFrom(start, RowHits(table, teams, i, j))
    ensures index' == RegisterFrom(start, RowHits(table, teams, i, j + 1))
  {
    var matches := FindMatchesBetweenTeams(web, teams[i], teams[j], perPair);
    index' := RecordMatches(index, matches, teams[i], teams[j]);
    RowStep(start, table, teams, i, j);
  }

  /** The loop over the matches found for one pair. */
  method RecordMatches(index: MatchIndex, matches: seq<string>, team1: string, team2: string) returns (index': MatchIndex)
    ensures index' == RegisterFrom(index, HitsOf(matches, team1, team2))
  {
    ghost var hits := HitsOf(matches, team1, team2);
    index' := index;
    for k := 0 to |matches|
      invariant index' == RegisterFrom(index, hits[..k])
    {
      HitsOfAt(matches, team1, team2, k);
      assert hits[..k + 1][..k] == hits[..k];
      var u := matches[k];
      if u !in index'.urls {
        index' := MatchIndex(index'.urls + [u], index'.teamsOf[u := [team1, team2]]);
      }
    }
    assert hits[..|matches|] == hits;
  }

  /** One more pair of a row registers its hits after those of the row so far. */
  lemma RowStep(start: MatchIndex, table: seq<seq<seq<string>>>, teams: seq<string>, i: nat, j: nat)
    requires i < j < |teams| && Square(table, |teams|)
    ensures RegisterFrom(start, RowHits(table, teams, i, j + 1)) ==
            RegisterFrom(RegisterFrom(start, RowHits(table, teams, i, j)), PairHits(table, teams, i, j))
  {
    RegisterConcat(start, RowHits(table, teams, i, j), PairHits(table, teams, i, j));
  }

  /** One more row registers its hits after those of the rows so far. */
  lemma AllStep(table: seq<seq<seq<string>>>, teams: seq<string>, i: nat)
    requires i < |teams| && Square(table, |teams|)
    ensures Register(AllHits(table, teams, i + 1)) ==
            RegisterFrom(Register(AllHits(table, teams, i)), RowHits(table, teams, i, |teams|))
  {
    RegisterConcat(MatchIndex([], map[]), AllHits(table, teams, i), RowHits(table, teams, i, |teams|));
  }

  /** The visits of the pairs (i, i+1), ..., (i, |teams|-1). */
  method RecordRow(web: Web, teams: seq<string>, i: nat, perPair: nat, index: MatchIndex, ghost table: seq<seq<seq<string>>>)
      returns (index': MatchIndex)
    requires i < |teams| && table == PairTable(web, teams, perPair)
    requires index == Register(AllHits(table, teams, i))
    ensures index' == Register(AllHits(table, teams, i + 1))
  {
    index' := index;
    var j := i + 1;
    while j < |teams|
      invariant i + 1 <= j <= |teams|
      invariant index' == RegisterFrom(index, RowHits(table, teams, i, j))
    {
      index' := RecordPair(web, teams, i, j, perPair, index', table, index);
      j := j + 1;
    }
    assert j == |teams|;
    AllStep(table, teams, i);
  }

  /** `find_match_urls_for_teams`. */
  method FindMatchUrlsForTeams(web: Web, teams: seq<string>, perPair: nat) returns (index: MatchIndex)
    ensures index == MatchUrlsForTeams(web, teams, perPair)
  {
    if |teams| < 2 {
      return MatchIndex([], map[]);
    }
    index := RecordAll(web, teams, perPair, PairTable(web, teams, perPair));
  }

  /** The loop of `find_match_urls_for_teams` over the first team of each pair. */
  method RecordAll(web: Web, teams: seq<string>, perPair: nat, ghost table: seq<seq<seq<string>>>) returns (index: MatchIndex)
    requires table == PairTable(web, teams, perPair)
    ensures index == Register(AllHits(table, teams, |teams|))
  {
    index := MatchIndex([], map[]);
    for i := 0 to |teams|
      invariant index == Register(AllHits(table, teams, i))
    {
      index := RecordRow(web, teams, i, perPair, index, table);
    }
  }

  lemma {:induction false} RegisterConcat(m: MatchIndex, a: seq<Hit>, b: seq<Hit>)
    ensures RegisterFrom(m, a + b) == RegisterFrom(RegisterFrom(m, a), b)
  {
    if b == [] {
      assert a + b == a;
    } else {
      assert (a + b)[..|a + b| - 1] == a + b[..|b| - 1];
      assert (a + b)[|a + b| - 1] == b[|b| - 1];
      RegisterConcat(m, a, b[..|b| - 1]);
    }
  }

  /** The recorded URLs are distinct, are exactly the URLs hit, and each is
      mapped to the pair of its first hit. */
  lemma {:induction false} RegisterProperties(hits: seq<Hit>)
    ensures NoDuplicates(Register(hits).urls)
    ensures forall u :: u in Register(hits).teamsOf <==> u in Register(hits).urls
    ensures forall u :: u in Register(hits).urls <==> exists k :: 0 <= k < |hits| && hits[k].url == u
    ensures forall k :: 0 <= k < |hits| && (forall l :: 0 <= l < k ==> hits[l].url != hits[k].url) ==>
      Register(hits).teamsOf[hits[k].url] == [hits[k].team1, hits[k].team2]
  {
    if hits != [] {
      var p := hits[..|hits| - 1];
      var h := hits[|hits| - 1];
      RegisterProperties(p);
      assert forall k :: 0 <= k < |p| ==> hits[k] == p[k];
      var m := Register(p);
      if h.url !in m.urls {
        NoDuplicatesSnoc(m.urls, h.url);
      }
    }
  }

  /** Each recorded pair is the pair of a hit of its URL. */
  lemma {:induction false} RegisterPairs(hits: seq<Hit>)
    ensures forall u :: u in Register(hits).teamsOf ==>
      exists k :: 0 <= k < |hits| && hits[k].url == u && Register(hits).teamsOf[u] == [hits[k].team1, hits[k].team2]
  {
    if hits != [] {
      var p := hits[..|hits| - 1];
      var h := hits[|hits| - 1];
      var m := Register(p);
      RegisterPairs(p);
      assert Register(hits) == Record(m, h);
      forall u | u in Register(hits).teamsOf
        ensures exists k :: 0 <= k < |hits| && hits[k].url == u && Register(hits).teamsOf[u] == [hits[k].team1, hits[k].team2]
      {
        if h.url !in m.urls && u == h.url {
          assert hits[|hits| - 1].url == u;
        } else {
          var k :| 0 <= k < |p| && p[k].url == u && m.teamsOf[u] == [p[k].team1, p[k].team2];
          assert hits[k] == p[k];
        }
      }
    }
  }

  lemma {:induction false} HitsOfMembers(ms: seq<string>, team1: string, team2: string)
    ensures forall h :: h in HitsOf(ms, team1, team2) <==> h.url in ms && h.team1 == team1 && h.team2 == team2
  {
    if ms != [] {
      var p := ms[..|ms| - 1];
      var last := Hit(ms[|ms| - 1], team1, team2);
      HitsOfMembers(p, team1, team2);
      assert ms == p + [ms[|ms| - 1]];
      forall h ensures h in HitsOf(ms, team1, team2) <==> h.url in ms && h.team1 == team1 && h.team2 == team2 {
        assert h in HitsOf(ms, team1, team2) <==> h in HitsOf(p, team1, team2) || h == last;
      }
    }
  }

  /** A hit of row `i` up to column `j` is a match found for `teams[i]`
      against some `teams[k]` with `i < k < j`. */
  lemma {:induction false} RowHitsSound(table: seq<seq<seq<string>>>, teams: seq<string>, i: nat, j: nat, h: Hit)
    returns (k: nat)
    requires i < j <= |teams| && Square(table, |teams|) && h in RowHits(table, teams, i, j)
    ensures i < k < j && h.url in table[i][k] && h.team1 == teams[i] && h.team2 == teams[k]
    decreases j
  {
    var prev, last := RowHits(table, teams, i, j - 1), PairHits(table, teams, i, j - 1);
    assert RowHits(table, teams, i, j) == prev + last;
    if h in prev {
      k := RowHitsSound(table, teams, i, j - 1, h);
    } else {
      assert h in last;
      k := j - 1;
      HitsOfMembers(table[i][j - 1], teams[i], teams[j - 1]);
    }
  }

  /** Every match found for `teams[i]` against `teams[k]`, `i < k < j`, is a
      hit of row `i` up to column `j`. */
  lemma {:induction false} RowHitsComplete(table: seq<seq<seq<string>>>, teams: seq<string>, i: nat, j: nat, k: nat, u: string)
    requires i < k < j <= |teams| && Square(table, |teams|) && u in table[i][k]
    ensures Hit(u, teams[i], teams[k]) in RowHits(table, teams, i, j)
    decreases j
  {
    var h := Hit(u, teams[i], teams[k]);
    var prev, last := RowHits(table, teams, i, j - 1), PairHits(table, teams, i, j - 1);
    assert RowHits(table, teams, i, j) == prev + last;
    if k < j - 1 {
      RowHitsComplete(table, teams, i, j - 1, k, u);
      assert h in prev;
    } else {
      HitsOfMembers(table[i][j - 1], teams[i], teams[j - 1]);
      assert h in last;
    }
  }

  /** A hit of the first `n` rows is a match found for some pair of
      positions `a < b` with `a < n`. */
  lemma {:induction false} AllHitsSound(table: seq<seq<seq<string>>>, teams: seq<string>, n: nat, h: Hit)
    returns (a: nat, b: nat)
    requires n <= |teams| && Square(table, |teams|) && h in AllHits(table, teams, n)
    ensures a < n && a < b < |teams| && h.url in table[a][b] && h.team1 == teams[a] && h.team2 == teams[b]
  {
    var prev, row := AllHits(table, teams, n - 1), RowHits(table, teams, n - 1, |teams|);
    assert AllHits(table, teams, n) == prev + row;
    if h in prev {
      a, b := AllHitsSound(table, teams, n - 1, h);
    } else {
      assert h in row;
      a := n - 1;
      b := RowHitsSound(table, teams, n - 1, |teams|, h);
    }
  }

  /** Every match found for a pair of positions `a < b` with `a < n` is a
      hit of the first `n` rows. */
  lemma {:induction false} AllHitsComplete(table: seq<seq<seq<string>>>, teams: seq<string>, n: nat, a: nat, b: nat, u: string)
    requires a < n <= |teams| && a < b < |teams| && Square(table, |teams|) && u in table[a][b]
    ensures Hit(u, teams[a], teams[b]) in AllHits(table, teams, n)
  {
    var h := Hit(u, teams[a], teams[b]);
    var prev, row := AllHits(table, teams, n - 1), RowHits(table, teams, n - 1, |teams|);
    assert AllHits(table, teams, n) == prev + row;
    if a < n - 1 {
      AllHitsComplete(table, teams, n - 1, a, b, u);
      assert h in prev;
    } else {
      RowHitsComplete(table, teams, n - 1, |teams|, b, u);
      assert h in row;
    }
  }

  /** Every URL of the index was found for some ordered pair of distinct
      positions, and is mapped to the teams of such a pair. */
  lemma MatchUrlsSound(web: Web, teams: seq<string>, perPair: nat, u: string)
    requires u in MatchUrlsForTeams(web, teams, perPair).urls
    ensures u in MatchUrlsForTeams(web, teams, perPair).teamsOf
    ensures exists a, b :: (0 <= a < b < |teams| && u in MatchesBetween(web, teams[a], teams[b], perPair) &&
                            MatchUrlsForTeams(web, teams, perPair).teamsOf[u] == [teams[a], teams[b]])
  {
    var table := PairTable(web, teams, perPair);
    var hits := AllHits(table, teams, |teams|);
    RegisterProperties(hits);
    RegisterPairs(hits);
    var k :| 0 <= k < |hits| && hits[k].url == u && Register(hits).teamsOf[u] == [hits[k].team1, hits[k].team2];
    var h := hits[k];
    assert h in hits;
    var a, b := AllHitsSound(table, teams, |teams|, h);
    assert u in MatchesBetween(web, teams[a], teams[b], perPair);
  }

  /** Every URL found for an ordered pair of distinct positions is in the index. */
  lemma MatchUrlsComplete(web: Web, teams: seq<string>, perPair: nat, a: nat, b: nat, u: string)
    requires a < b < |teams| && u in MatchesBetween(web, teams[a], teams[b], perPair)
    ensures u in MatchUrlsForTeams(web, teams, perPair).urls
  {
    var table := PairTable(web, teams, perPair);
    var hits := AllHits(table, teams, |teams|);
    RegisterProperties(hits);
    var h := Hit(u, teams[a], teams[b]);
    assert table[a][b] == MatchesBetween(web, teams[a], teams[b], perPair);
    AllHitsComplete(table, teams, |teams|, a, b, u);
    var k :| 0 <= k < |hits| && hits[k] == h;
  }

  /** The URLs of the index are distinct and every one has its pair. */
  lemma MatchUrlsDistinct(web: Web, teams: seq<string>, perPair: nat)
    ensures NoDuplicates(MatchUrlsForTeams(web, teams, perPair).urls)
    ensures forall u :: u in MatchUrlsForTeams(web, teams, perPair).teamsOf <==> u in MatchUrlsForTeams(web, teams, perPair).urls
  {
    if |teams| >= 2 {
      RegisterProperties(AllHits(PairTable(web, teams, perPair), teams, |teams|));
    }
  }
}
