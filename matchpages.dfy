/**
  What the scraper reads off a match page (scraper/vlr.py): the title and
  the two team names of the header, the match date, the per-map records of
  one player (`parse_match_page`) and the player links of both teams
  (`extract_player_links_from_match`).
*/
module MatchPages {
  import opened Wrappers
  import opened Seqs
  import opened Text
  import opened Names
  import opened Pages
  import opened Links

  const UNKNOWN_MATCH: string := "<Unknown Match>"
  const UNKNOWN_DATE: string := "<Unknown Date>"
  const UNKNOWN_AGENT: string := "<Unknown Agent>"

  // ---------------------------------------------------------------------
  // Header: title, teams, date
  // ---------------------------------------------------------------------

  /** `get_match_title`. */
  function MatchTitle(doc: Document): string {
    if |doc.headerTeams| >= 2 then Strip(doc.headerTeams[0]) + " vs " + Strip(doc.headerTeams[1])
    else UNKNOWN_MATCH
  }

  /** `get_match_teams`: both team names, or none. */
  function MatchTeams(doc: Document): (r: seq<string>)
    ensures |r| == 0 || |r| == 2
    ensures r != [] <==> |doc.headerTeams| >= 2
    ensures r != [] ==> MatchTitle(doc) == r[0] + " vs " + r[1]
  {
    if |doc.headerTeams| >= 2 then [Strip(doc.headerTeams[0]), Strip(doc.headerTeams[1])] else []
  }

  /** The placeholder title is given exactly to pages with fewer than two
      team names: a real title always holds " vs ", the placeholder does not. */
  lemma TitleUnknownIff(doc: Document)
    ensures MatchTitle(doc) == UNKNOWN_MATCH <==> |doc.headerTeams| < 2
  {
    if |doc.headerTeams| >= 2 {
      var a := Strip(doc.headerTeams[0]);
      var t := a + " vs " + Strip(doc.headerTeams[1]);
      assert t[|a| + 1] == 'v';
    }
  }

  function Pad2(n: nat): (r: string)
    ensures IsDigits(r)
  {
    if n < 10 then "0" + NatToString(n) else NatToString(n)
  }

  /** `dt.strftime("%Y-%m-%d")`. */
  function FormatDay(d: Day): (r: string)
    ensures ' ' !in r && ':' !in r
  {
    var y, m, dd := NatToString(d.year), Pad2(d.month), Pad2(d.day);
    assert forall c :: c in y + "-" + m + "-" + dd ==> c in y || c == '-' || c in m || c in dd;
    y + "-" + m + "-" + dd
  }

  /** The date one date selector's element gives: its timestamp when that
      parses, else the first word of its stripped text; None sends the scan on
      to the next selector. */
  function DateOf(web: Web, tag: Option<DateTag>): (r: Option<string>)
    ensures r.Some? ==> r.value != "" && ' ' !in r.value
  {
    match tag
    case None => None
    case Some(t) =>
      var parsed := if t.stamp != "" then web.parseStamp(t.stamp) else None;
      if parsed.Some? then
        assert |FormatDay(parsed.value)| > 0 by { assert NatToString(parsed.value.year) != []; }
        Some(FormatDay(parsed.value))
      else
        var text := Strip(t.text);
        if text == "" then None
        else if ' ' in text then
          StripEnds(t.text);
          Some(TakeWord(text))
        else Some(text)
  }

  /** `get_match_date`: the first selector that yields a date, else the placeholder. */
  function MatchDate(web: Web, tags: seq<Option<DateTag>>): string {
    if tags == [] then UNKNOWN_DATE
    else
      match DateOf(web, tags[0])
      case Some(d) => d
      case None => MatchDate(web, tags[1..])
  }

  /** The placeholder date is returned exactly when no selector yields a
      date: every real date is free of spaces, the placeholder is not. */
  lemma {:induction false} DateUnknownIff(web: Web, tags: seq<Option<DateTag>>)
    ensures MatchDate(web, tags) == UNKNOWN_DATE <==> forall i :: 0 <= i < |tags| ==> DateOf(web, tags[i]).None?
  {
    assert UNKNOWN_DATE[8] == ' ';
    if tags != [] {
      DateUnknownIff(web, tags[1..]);
      assert forall i :: 1 <= i < |tags| ==> tags[i] == tags[1..][i - 1];
    }
  }

  // ---------------------------------------------------------------------
  // Map records of one player
  // ---------------------------------------------------------------------

  /** One map of a match, as `parse_match_page` records it for the player. */
  datatype MapRecord = MapRecord(
    mapName: string, agent: string, kills: int,
    matchUrl: string, matchTitle: string, matchDate: string)

  /** `" ".join(label.replace("PICK", "").split()).strip()`. */
  function MapName(mapLabel: string): string {
    Strip(JoinWords(Words(ReplaceAll(mapLabel, "PICK", ""))))
  }

  /** Sections with no usable map name are skipped. */
  predicate UsableMap(mapLabel: Option<string>) {
    mapLabel.Some? &&
    var name := MapName(mapLabel.value);
    name != "" && Lower(name) != "all maps" && Lower(name) != "<unknown map>"
  }

  /** Python's `int(s)` on ASCII text: optional surrounding whitespace, an
      optional sign, then decimal digits. */
  function ParseInt(s: string): (r: Option<int>)
    ensures IsDigits(Strip(s)) ==> r == Some(ParseNat(Strip(s)))
  {
    var t := Strip(s);
    if IsDigits(t) then Some(ParseNat(t))
    else if |t| >= 2 && t[0] == '-' && IsDigits(t[1..]) then Some(-(ParseNat(t[1..]) as int))
    else if |t| >= 2 && t[0] == '+' && IsDigits(t[1..]) then Some(ParseNat(t[1..]))
    else None
  }

  /** The kills of a row: the first number found, trying each kills cell's
      `.mod-both` text and then its own text; 0 when none parses. */
  function KillsOf(cells: seq<KillCell>): int {
    if cells == [] then 0
    else
      var both := if cells[0].both.Some? then ParseInt(cells[0].both.value) else None;
      if both.Some? then both.value
      else if ParseInt(cells[0].text).Some? then ParseInt(cells[0].text).value
      else KillsOf(cells[1..])
  }

  predicate CellParses(c: KillCell) {
    (c.both.Some? && ParseInt(c.both.value).Some?) || ParseInt(c.text).Some?
  }

  /** Kills default to 0 when no kills cell holds a number. */
  lemma {:induction false} KillsDefault(cells: seq<KillCell>)
    requires forall i :: 0 <= i < |cells| ==> !CellParses(cells[i])
    ensures KillsOf(cells) == 0
  {
    if cells != [] {
      assert !CellParses(cells[0]);
      KillsDefault(cells[1..]);
    }
  }

  /** Kills come from the first kills cell that holds a number. */
  lemma KillsFromFirstCell(c: KillCell, rest: seq<KillCell>)
    requires CellParses(c)
    ensures KillsOf([c] + rest) ==
      if c.both.Some? && ParseInt(c.both.value).Some? then ParseInt(c.both.value).value
      else ParseInt(c.text).value
  {
    assert ([c] + rest)[0] == c;
  }

  /** `agent_img["alt"].strip()` for the first image with a non-empty `alt`. */
  function AgentOf(alts: seq<string>): string {
    if alts == [] then UNKNOWN_AGENT
    else if alts[0] != "" then Strip(alts[0])
    else AgentOf(alts[1..])
  }

  /** `title or data-title or text.strip()`. */
  function CellName(e: Element): string {
    if e.title != "" then e.title else if e.dataTitle != "" then e.dataTitle else Strip(e.text)
  }

  /** A row belongs to the player when its normalised name equals the
      player's or one contains the other. */
  predicate RowAccepted(row: StatRow, player: string) {
    row.cell.Some? && NameAccepted(CellName(row.cell.value), player)
  }

  predicate NameAccepted(name: string, player: string) {
    name != "" && SameNormalized(NormalizeName(name), player)
  }

  /** The position of the first accepted row at or after `i`. */
  function FirstAccepted(rows: seq<StatRow>, player: string, i: nat): (k: Option<nat>)
    requires i <= |rows|
    ensures k.Some? ==> i <= k.value < |rows|
    decreases |rows| - i
  {
    if i == |rows| then None
    else if RowAccepted(rows[i], player) then Some(i)
    else FirstAccepted(rows, player, i + 1)
  }

  /** The position found is accepted and no earlier one is; when none is
      found, no row from `i` on is accepted. */
  lemma {:induction false} FirstAcceptedIsFirst(rows: seq<StatRow>, player: string, i: nat)
    requires i <= |rows|
    ensures FirstAccepted(rows, player, i).Some? ==>
      RowAccepted(rows[FirstAccepted(rows, player, i).value], player) &&
      forall j :: i <= j < FirstAccepted(rows, player, i).value ==> !RowAccepted(rows[j], player)
    ensures FirstAccepted(rows, player, i).None? ==> forall j :: i <= j < |rows| ==> !RowAccepted(rows[j], player)
    decreases |rows| - i
  {
    if i < |rows| && !RowAccepted(rows[i], player) {
      FirstAcceptedIsFirst(rows, player, i + 1);
    }
  }

  /** The record one section contributes: its first accepted row, if the map is usable. */
  function SectionRecord(sec: MapSection, player: string, url: string, title: string, date: string): seq<MapRecord> {
    if !UsableMap(sec.mapLabel) then []
    else
      match FirstAccepted(sec.rows, player, 0)
      case None => []
      case Some(k) =>
        [MapRecord(MapName(sec.mapLabel.value), AgentOf(sec.rows[k].agentAlts), KillsOf(sec.rows[k].killCells), url, title, date)]
  }

  /** The records of a list of sections, in section order. */
  function PageRecords(secs: seq<MapSection>, player: string, url: string, title: string, date: string): (r: seq<MapRecord>)
    ensures |r| <= |secs|
    ensures forall i :: 0 <= i < |r| ==> r[i].matchUrl == url && r[i].matchTitle == title && r[i].matchDate == date
  {
    if secs == [] then []
    else PageRecords(secs[..|secs| - 1], player, url, title, date) + SectionRecord(secs[|secs| - 1], player, url, title, date)
  }

  /** What `parse_match_page(url, player)` returns. */
  function MatchRecords(web: Web, url: string, player: string): seq<MapRecord> {
    match FetchSoup(web, url)
    case None => []
    case Some(doc) =>
      PageRecords(doc.sections, NormalizeName(player), url, MatchTitle(doc), MatchDate(web, doc.dateTags))
  }

  /** The body of `parse_match_page`'s loop over the map sections: the
      record of the first row that belongs to the player. */
  method ParseSection(sec: MapSection, q: string, url: string, title: string, date: string) returns (rec: seq<MapRecord>)
    ensures rec == SectionRecord(sec, q, url, title, date)
  {
    if !UsableMap(sec.mapLabel) {
      return [];
    }
    var pick: Option<nat> := None;
    for r := 0 to |sec.rows|
      invariant FirstAccepted(sec.rows, q, 0) == FirstAccepted(sec.rows, q, r)
    {
      if RowAccepted(sec.rows[r], q) {
        pick := Some(r);
        break;
      }
    }
    if pick.None? {
      return [];
    }
    var row := sec.rows[pick.value];
    rec := [MapRecord(MapName(sec.mapLabel.value), AgentOf(row.agentAlts), KillsOf(row.killCells), url, title, date)];
  }

  /** `parse_match_page`. */
  method ParseMatchPage(web: Web, url: string, player: string) returns (records: seq<MapRecord>)
    ensures records == MatchRecords(web, url, player)
  {
    var soup := FetchSoup(web, url);
    if soup.None? {
      return [];
    }
    var doc := soup.value;
    var title := MatchTitle(doc);
    var date := MatchDate(web, doc.dateTags);
    var secs := doc.sections;
    var q := NormalizeName(player);
    records := [];
    for s := 0 to |secs|
      invariant records == PageRecords(secs[..s], q, url, title, date)
    {
      assert secs[..s + 1][..s] == secs[..s];
      var rec := ParseSection(secs[s], q, url, title, date);
      records := records + rec;
    }
    assert secs[..|secs|] == secs;
  }

  /** Records follow the sections: those of a concatenation are the
      concatenation of the records. */
  lemma {:induction false} PageRecordsConcat(a: seq<MapSection>, b: seq<MapSection>, player: string, url: string, title: string, date: string)
    ensures PageRecords(a + b, player, url, title, date) == PageRecords(a, player, url, title, date) + PageRecords(b, player, url, title, date)
  {
    if b == [] {
      assert a + b == a;
    } else {
      var c := b[..|b| - 1];
      assert (a + b)[..|a + b| - 1] == a + c;
      assert (a + b)[|a + b| - 1] == b[|b| - 1];
      PageRecordsConcat(a, c, player, url, title, date);
    }
  }

  /** Every record names a usable map and was found in some section whose
      row for the player it reports. */
  lemma {:induction false} RecordsFromSections(secs: seq<MapSection>, player: string, url: string, title: string, date: string, m: MapRecord)
    requires m in PageRecords(secs, player, url, title, date)
    ensures exists i :: 0 <= i < |secs| && UsableMap(secs[i].mapLabel) && m.mapName == MapName(secs[i].mapLabel.value) &&
                       (exists k :: 0 <= k < |secs[i].rows| && RowAccepted(secs[i].rows[k], player) && m.kills == KillsOf(secs[i].rows[k].killCells))
  {
    var p := secs[..|secs| - 1];
    var last := secs[|secs| - 1];
    if m in PageRecords(p, player, url, title, date) {
      RecordsFromSections(p, player, url, title, date, m);
      var i :| 0 <= i < |p| && UsableMap(p[i].mapLabel) && m.mapName == MapName(p[i].mapLabel.value) &&
        (exists k :: 0 <= k < |p[i].rows| && RowAccepted(p[i].rows[k], player) && m.kills == KillsOf(p[i].rows[k].killCells));
      assert p[i] == secs[i];
    } else {
      assert m in SectionRecord(last, player, url, title, date);
      var k := FirstAccepted(last.rows, player, 0).value;
      FirstAcceptedIsFirst(last.rows, player, 0);
      assert secs[|secs| - 1] == last;
    }
  }

  /** A row whose name consists of separators only normalises to "" and so
      is taken for any player: the permissive rule at its widest. */
  lemma SeparatorNameAccepted(row: StatRow, player: string)
    requires row.cell.Some? && CellName(row.cell.value) != ""
    requires NormalizeName(CellName(row.cell.value)) == ""
    ensures RowAccepted(row, player)
  {
    ContainsEmpty(player);
  }

  // ---------------------------------------------------------------------
  // Player links of both teams
  // ---------------------------------------------------------------------

  /** One entry of the player-link map: the normalised name it is keyed by,
      the profile URL, the name as displayed, and the team once withTeams. */
  datatype LinkEntry = LinkEntry(key: string, url: string, displayName: string, team: Option<string>)

  /** What `extract_player_links_from_match` returns: the player map in
      insertion order and the match's team names. */
  datatype MatchPlayers = MatchPlayers(players: seq<LinkEntry>, teams: seq<string>)

  function Keys(entries: seq<LinkEntry>): (r: seq<string>)
    ensures |r| == |entries|
    ensures forall i :: 0 <= i < |entries| ==> r[i] == entries[i].key
  {
    if entries == [] then [] else Keys(entries[..|entries| - 1]) + [entries[|entries| - 1].key]
  }

  /** The name a player row shows: the link's title, data-title or text, then
      the cell's title or text, then its `div.text-of`. */
  function RowPlayerName(c: LinkCell, l: PlayerLink): string {
    var name :=
      if l.attrs.title != "" then l.attrs.title
      else if l.attrs.dataTitle != "" then l.attrs.dataTitle
      else if Strip(l.attrs.text) != "" then Strip(l.attrs.text)
      else if c.attrs.title != "" then c.attrs.title
      else Strip(c.attrs.text);
    if name != "" then name
    else match c.textOf
      case None => ""
      case Some(t) => if t.title != "" then t.title else Strip(t.text)
  }

  /** The link entry a row offers, still without a team. */
  function RowLink(row: Option<LinkCell>): (r: Option<LinkEntry>)
    ensures r.Some? ==> r.value.displayName != "" && r.value.key == NormalizeName(r.value.displayName)
    ensures r.Some? ==> r.value.team.None? && StartsWith(r.value.url, "http")
  {
    match row
    case None => None
    case Some(c) =>
      match c.link
      case None => None
      case Some(l) =>
        var href := l.href;
        var name := RowPlayerName(c, l);
        if href == "" || !Contains(href, "/player/") || name == "" then None
        else if StartsWith(href, "/player/") then Some(LinkEntry(NormalizeName(name), BASE_URL + href, name, None))
        else if StartsWith(href, "http") then Some(LinkEntry(NormalizeName(name), href, name, None))
        else None
  }

  /** The entry each row offers, in row order. */
  function Offers(rows: seq<Option<LinkCell>>): (r: seq<Option<LinkEntry>>)
    ensures |r| == |rows|
  {
    if rows == [] then [] else Offers(rows[..|rows| - 1]) + [RowLink(rows[|rows| - 1])]
  }

  /** A dict filled by `if key and key not in d: d[key] = entry`: the first
      offer of each non-empty key wins. */
  function FirstWins(offers: seq<Option<LinkEntry>>): seq<LinkEntry> {
    if offers == [] then []
    else
      var rest := FirstWins(offers[..|offers| - 1]);
      match offers[|offers| - 1]
      case None => rest
      case Some(e) => if e.key != "" && e.key !in Keys(rest) then rest + [e] else rest
  }

  /** The player map before teams are assigned. */
  function CollectLinks(rows: seq<Option<LinkCell>>): seq<LinkEntry> {
    FirstWins(Offers(rows))
  }

  /** The label of a player cell in the team tables: its title, else its text. */
  function CellLabel(c: Option<Element>): string {
    match c
    case None => ""
    case Some(e) => if e.title != "" then e.title else Strip(e.text)
  }

  /** The normalised name a player cell contributes to its team's set. */
  function LabelKeys(c: Option<Element>): set<string> {
    var l := CellLabel(c);
    if l != "" then {NormalizeName(l)} else {}
  }

  /** The normalised labels of a list of player cells. */
  function NamesOf(cells: seq<Option<Element>>): set<string> {
    if cells == [] then {} else NamesOf(cells[..|cells| - 1]) + LabelKeys(cells[|cells| - 1])
  }

  /** Team 1 of a section: its first table, or the first five rows of a
      section laid out as one table. */
  function SectionTeam1(sec: MapSection): set<string> {
    if |sec.tables| >= 2 then NamesOf(sec.tables[0]) else NamesOf(Take(sec.bodyRows, 5))
  }

  function SectionTeam2(sec: MapSection): set<string> {
    if |sec.tables| >= 2 then NamesOf(sec.tables[1])
    else NamesOf(if |sec.bodyRows| <= 5 then [] else sec.bodyRows[5..])
  }

  function Team1Of(secs: seq<MapSection>): set<string> {
    if secs == [] then {} else Team1Of(secs[..|secs| - 1]) + SectionTeam1(secs[|secs| - 1])
  }

  function Team2Of(secs: seq<MapSection>): set<string> {
    if secs == [] then {} else Team2Of(secs[..|secs| - 1]) + SectionTeam2(secs[|secs| - 1])
  }

  /** The team an entry receives: team 1's name when its key is in team 1's
      set, else team 2's name when in team 2's set, else none. */
  function TeamFor(key: string, t1: set<string>, t2: set<string>, teams: seq<string>): Option<string>
    requires |teams| >= 2
  {
    if key in t1 then Some(teams[0]) else if key in t2 then Some(teams[1]) else None
  }

  /** An entry after the assignment loop: its team is set when its key is in one of the sets. */
  function WithTeam(e: LinkEntry, t1: set<string>, t2: set<string>, teams: seq<string>): LinkEntry
    requires |teams| >= 2
  {
    match TeamFor(e.key, t1, t2, teams)
    case Some(t) => e.(team := Some(t))
    case None => e
  }

  function AssignTeams(entries: seq<LinkEntry>, t1: set<string>, t2: set<string>, teams: seq<string>): (r: seq<LinkEntry>)
    requires |teams| >= 2
    ensures |r| == |entries|
    ensures forall i :: 0 <= i < |r| ==> r[i] == WithTeam(entries[i], t1, t2, teams)
  {
    if entries == [] then []
    else AssignTeams(entries[..|entries| - 1], t1, t2, teams) + [WithTeam(entries[|entries| - 1], t1, t2, teams)]
  }

  /** What `extract_player_links_from_match(url)` returns. */
  function MatchPlayersOf(web: Web, url: string): MatchPlayers {
    match FetchSoup(web, url)
    case None => MatchPlayers([], [])
    case Some(doc) =>
      var teams := MatchTeams(doc);
      var links := CollectLinks(doc.playerRows);
      if doc.sections != [] && |teams| >= 2 then
        MatchPlayers(AssignTeams(links, Team1Of(doc.sections), Team2Of(doc.sections), teams), teams)
      else MatchPlayers(links, teams)
  }

  method CollectNames(cells: seq<Option<Element>>, acc: set<string>) returns (names: set<string>)
    ensures names == acc + NamesOf(cells)
  {
    names := acc;
    for r := 0 to |cells|
      invariant names == acc + NamesOf(cells[..r])
    {
      assert cells[..r + 1][..r] == cells[..r];
      names := names + LabelKeys(cells[r]);
    }
    assert cells[..|cells|] == cells;
  }

  /** The loop of `extract_player_links_from_match` over the player rows. */
  method CollectPlayerLinks(rows: seq<Option<LinkCell>>) returns (links: seq<LinkEntry>)
    ensures links == CollectLinks(rows)
  {
    links := [];
    for i := 0 to |rows|
      invariant links == FirstWins(Offers(rows[..i]))
    {
      assert rows[..i + 1][..i] == rows[..i];
      var e := RowLink(rows[i]);
      assert Offers(rows[..i + 1]) == Offers(rows[..i]) + [e];
      if e.Some? && e.value.key != "" && e.value.key !in Keys(links) {
        links := links + [e.value];
      }
    }
    assert rows[..|rows|] == rows;
  }

  /** The loop of `extract_player_links_from_match` over the map sections,
      building the normalised names of each team. */
  method CollectTeamSets(secs: seq<MapSection>) returns (t1: set<string>, t2: set<string>)
    ensures t1 == Team1Of(secs) && t2 == Team2Of(secs)
  {
    t1, t2 := {}, {};
    for s := 0 to |secs|
      invariant t1 == Team1Of(secs[..s]) && t2 == Team2Of(secs[..s])
    {
      assert secs[..s + 1][..s] == secs[..s];
      var sec := secs[s];
      if |sec.tables| >= 2 {
        t1 := CollectNames(sec.tables[0], t1);
        t2 := CollectNames(sec.tables[1], t2);
      } else {
        t1 := CollectNames(Take(sec.bodyRows, 5), t1);
        t2 := CollectNames(if |sec.bodyRows| <= 5 then [] else sec.bodyRows[5..], t2);
      }
    }
    assert secs[..|secs|] == secs;
  }

  /** The final loop of `extract_player_links_from_match`, which sets the
      team of each entry in place. */
  method AssignTeamsTo(links: seq<LinkEntry>, t1: set<string>, t2: set<string>, teams: seq<string>) returns (withTeams: seq<LinkEntry>)
    requires |teams| >= 2
    ensures withTeams == AssignTeams(links, t1, t2, teams)
  {
    withTeams := links;
    for i := 0 to |links|
      invariant |withTeams| == |links|
      invariant forall j :: 0 <= j < i ==> withTeams[j] == WithTeam(links[j], t1, t2, teams)
      invariant forall j :: i <= j < |links| ==> withTeams[j] == links[j]
    {
      if links[i].key in t1 {
        withTeams := withTeams[i := links[i].(team := Some(teams[0]))];
      } else if links[i].key in t2 {
        withTeams := withTeams[i := links[i].(team := Some(teams[1]))];
      }
    }
  }

  /** `extract_player_links_from_match`. */
  method ExtractPlayerLinks(web: Web, url: string) returns (result: MatchPlayers)
    ensures result == MatchPlayersOf(web, url)
  {
    var soup := FetchSoup(web, url);
    if soup.None? {
      return MatchPlayers([], []);
    }
    var doc := soup.value;
    var teams := MatchTeams(doc);
    var links := CollectPlayerLinks(doc.playerRows);
    var secs := doc.sections;
    if secs != [] && |teams| >= 2 {
      var t1, t2 := CollectTeamSets(secs);
      var withTeams := AssignTeamsTo(links, t1, t2, teams);
      return MatchPlayers(withTeams, teams);
    }
    return MatchPlayers(links, teams);
  }

  lemma {:induction false} KeysOfSnoc(entries: seq<LinkEntry>, e: LinkEntry)
    ensures Keys(entries + [e]) == Keys(entries) + [e.key]
  {
    assert (entries + [e])[..|entries|] == entries;
  }

  lemma {:induction false} OfferAt(rows: seq<Option<LinkCell>>, j: nat)
    requires j < |rows|
    ensures Offers(rows)[j] == RowLink(rows[j])
  {
    if j < |rows| - 1 {
      assert rows[..|rows| - 1][j] == rows[j];
      OfferAt(rows[..|rows| - 1], j);
    }
  }

  /** The map is keyed by distinct names. */
  lemma {:induction false} FirstWinsDistinct(offers: seq<Option<LinkEntry>>)
    ensures NoDuplicates(Keys(FirstWins(offers)))
  {
    if offers != [] {
      var rest := FirstWins(offers[..|offers| - 1]);
      FirstWinsDistinct(offers[..|offers| - 1]);
      var e := offers[|offers| - 1];
      if e.Some? && e.value.key != "" && e.value.key !in Keys(rest) {
        KeysOfSnoc(rest, e.value);
        NoDuplicatesSnoc(Keys(rest), e.value.key);
      }
    }
  }

  /** The map has no entry under the empty name. */
  lemma {:induction false} FirstWinsNonEmpty(offers: seq<Option<LinkEntry>>)
    ensures forall i :: 0 <= i < |FirstWins(offers)| ==> FirstWins(offers)[i].key != ""
  {
    if offers != [] {
      FirstWinsNonEmpty(offers[..|offers| - 1]);
    }
  }

  /** Every key of the map comes from an offer of it. */
  lemma {:induction false} FirstWinsFrom(offers: seq<Option<LinkEntry>>, key: string)
    requires key in Keys(FirstWins(offers))
    ensures exists j :: 0 <= j < |offers| && offers[j].Some? && offers[j].value.key == key
  {
    var p := offers[..|offers| - 1];
    var rest := FirstWins(p);
    var e := offers[|offers| - 1];
    if e.Some? && e.value.key != "" && e.value.key !in Keys(rest) {
      KeysOfSnoc(rest, e.value);
    }
    if key in Keys(rest) {
      FirstWinsFrom(p, key);
      var j :| 0 <= j < |p| && p[j].Some? && p[j].value.key == key;
      assert p[j] == offers[j];
    }
  }

  /** A key no offer carries is not in the map. */
  lemma {:induction false} FirstWinsAbsent(offers: seq<Option<LinkEntry>>, key: string)
    requires forall j :: 0 <= j < |offers| ==> offers[j].None? || offers[j].value.key != key
    ensures key !in Keys(FirstWins(offers))
  {
    if offers != [] {
      var p := offers[..|offers| - 1];
      var rest := FirstWins(p);
      var e := offers[|offers| - 1];
      assert forall j :: 0 <= j < |p| ==> p[j] == offers[j];
      FirstWinsAbsent(p, key);
      if e.Some? && e.value.key != "" && e.value.key !in Keys(rest) {
        KeysOfSnoc(rest, e.value);
      }
    }
  }

  /** The first offer of a non-empty key is the entry kept for it. */
  lemma {:induction false} FirstOfferWins(offers: seq<Option<LinkEntry>>, k: nat)
    requires k < |offers| && offers[k].Some? && offers[k].value.key != ""
    requires forall j :: 0 <= j < k ==> offers[j].None? || offers[j].value.key != offers[k].value.key
    ensures offers[k].value in FirstWins(offers)
  {
    var e := offers[k].value;
    var p := offers[..|offers| - 1];
    if k < |offers| - 1 {
      assert forall j :: 0 <= j <= k ==> p[j] == offers[j];
      FirstOfferWins(p, k);
    } else {
      assert forall j :: 0 <= j < |p| ==> p[j] == offers[j];
      FirstWinsAbsent(p, e.key);
    }
  }

  /** The player map is keyed by distinct, non-empty normalised names, and
      holds for each the entry of the first row offering it. */
  lemma CollectLinksProperties(rows: seq<Option<LinkCell>>, k: nat)
    requires k < |rows| && RowLink(rows[k]).Some? && RowLink(rows[k]).value.key != ""
    requires forall j :: 0 <= j < k ==> RowLink(rows[j]).None? || RowLink(rows[j]).value.key != RowLink(rows[k]).value.key
    ensures NoDuplicates(Keys(CollectLinks(rows)))
    ensures forall i :: 0 <= i < |CollectLinks(rows)| ==> CollectLinks(rows)[i].key != ""
    ensures RowLink(rows[k]).value in CollectLinks(rows)
  {
    var offers := Offers(rows);
    FirstWinsDistinct(offers);
    FirstWinsNonEmpty(offers);
    forall j | 0 <= j <= k ensures offers[j] == RowLink(rows[j]) {
      OfferAt(rows, j);
    }
    FirstOfferWins(offers, k);
  }

  /** Every key of the player map is the name of some row's link. */
  lemma LinksFromRows(rows: seq<Option<LinkCell>>, key: string)
    requires key in Keys(CollectLinks(rows))
    ensures exists j :: 0 <= j < |rows| && RowLink(rows[j]).Some? && RowLink(rows[j]).value.key == key
  {
    FirstWinsFrom(Offers(rows), key);
    var j :| 0 <= j < |rows| && Offers(rows)[j].Some? && Offers(rows)[j].value.key == key;
    OfferAt(rows, j);
  }

  lemma {:induction false} NamesOfMember(cells: seq<Option<Element>>, i: nat)
    requires i < |cells| && CellLabel(cells[i]) != ""
    ensures NormalizeName(CellLabel(cells[i])) in NamesOf(cells)
  {
    if i < |cells| - 1 {
      assert cells[..|cells| - 1][i] == cells[i];
      NamesOfMember(cells[..|cells| - 1], i);
    }
  }

  /** In a section laid out as a single table, the named rows at positions
      below 5 count for team 1 and the others for team 2. */
  lemma SingleTableSplit(sec: MapSection, i: nat)
    requires |sec.tables| < 2 && i < |sec.bodyRows| && CellLabel(sec.bodyRows[i]) != ""
    ensures i < 5 ==> NormalizeName(CellLabel(sec.bodyRows[i])) in SectionTeam1(sec)
    ensures i >= 5 ==> NormalizeName(CellLabel(sec.bodyRows[i])) in SectionTeam2(sec)
  {
    if i < 5 {
      assert Take(sec.bodyRows, 5)[i] == sec.bodyRows[i];
      NamesOfMember(Take(sec.bodyRows, 5), i);
    } else {
      assert sec.bodyRows[5..][i - 5] == sec.bodyRows[i];
      NamesOfMember(sec.bodyRows[5..], i - 5);
    }
  }

  /** The player map of a match page is keyed by distinct names, whether or
      not teams were assigned. */
  lemma MatchPlayersDistinct(web: Web, url: string)
    ensures NoDuplicates(Keys(MatchPlayersOf(web, url).players))
  {
    match FetchSoup(web, url)
    case None =>
    case Some(doc) =>
      var teams := MatchTeams(doc);
      var links := CollectLinks(doc.playerRows);
      FirstWinsDistinct(Offers(doc.playerRows));
      if doc.sections != [] && |teams| >= 2 {
        var withTeams := AssignTeams(links, Team1Of(doc.sections), Team2Of(doc.sections), teams);
        assert Keys(withTeams) == Keys(links);
      }
  }
}
