/**
  `players_by_match` (app.py): the result rows arranged for display. Rows
  are first grouped by team. With match information, each two-team match
  collects the rows of the teams that resemble its own, and whatever is left
  goes to "Other". With only the single match's teams, the rows of resembling
  teams go to that match and those of other teams to "Other". With neither,
  every team is its own group. A player name is placed at most once, and
  empty names are not placed, except in the last arrangement.
*/
module Grouping {
  import opened Wrappers
  import opened Seqs
  import opened Text
  import opened Names
  import opened Merger
  import opened Discovery

  /** One entry of `players_by_team`. */
  datatype TeamBucket = TeamBucket(team: Option<string>, rows: seq<ResultRow>)

  /** One entry of `players_by_match`. The key and the teams are None only
      where a row's team was None and rows are grouped by team. */
  datatype MatchGroup = MatchGroup(key: Option<string>, teams: seq<Option<string>>, players: seq<ResultRow>)

  /** The groups built so far and the names already placed. */
  datatype Arrangement = Arrangement(groups: seq<MatchGroup>, taken: set<string>)

  const OTHER: Option<string> := Some("Other")

  // ---------------------------------------------------------------------
  // Grouping by team
  // ---------------------------------------------------------------------

  function BucketTeams(buckets: seq<TeamBucket>): (r: seq<Option<string>>)
    ensures |r| == |buckets|
    ensures forall i :: 0 <= i < |buckets| ==> r[i] == buckets[i].team
  {
    if buckets == [] then [] else BucketTeams(buckets[..|buckets| - 1]) + [buckets[|buckets| - 1].team]
  }

  /** A row joins the bucket of its team, or opens one at the end. */
  function AddToBucket(buckets: seq<TeamBucket>, row: ResultRow): seq<TeamBucket> {
    var teams := BucketTeams(buckets);
    if row.team in teams then
      var k := FirstIndex(teams, row.team);
      buckets[k := buckets[k].(rows := buckets[k].rows + [row])]
    else buckets + [TeamBucket(row.team, [row])]
  }

  /** `players_by_team`. */
  function ByTeam(results: seq<ResultRow>): seq<TeamBucket> {
    if results == [] then [] else AddToBucket(ByTeam(results[..|results| - 1]), results[|results| - 1])
  }

  /** The loop that fills `players_by_team`. */
  method GroupByTeam(results: seq<ResultRow>) returns (buckets: seq<TeamBucket>)
    ensures buckets == ByTeam(results)
  {
    buckets := [];
    for i := 0 to |results|
      invariant buckets == ByTeam(results[..i])
    {
      assert results[..i + 1][..i] == results[..i];
      var row := results[i];
      ghost var before := buckets;
      var teams := BucketTeams(buckets);
      if row.team !in teams {
        buckets := buckets + [TeamBucket(row.team, [])];
        assert BucketTeams(buckets) == teams + [row.team];
        FirstIndexOfNew(teams, row.team);
      }
      var k := FirstIndex(BucketTeams(buckets), row.team);
      buckets := buckets[k := buckets[k].(rows := buckets[k].rows + [row])];
      if row.team !in teams {
        assert k == |before|;
        assert buckets[..k] == before && buckets[k] == TeamBucket(row.team, [row]);
        assert buckets == before + [TeamBucket(row.team, [row])];
      }
      assert buckets == AddToBucket(before, row);
    }
    assert results[..|results|] == results;
  }

  /** The rows of all buckets, bucket after bucket. */
  function AllRows(buckets: seq<TeamBucket>): seq<ResultRow> {
    if buckets == [] then [] else AllRows(buckets[..|buckets| - 1]) + buckets[|buckets| - 1].rows
  }

  lemma {:induction false} AllRowsAppend(buckets: seq<TeamBucket>, k: nat, row: ResultRow)
    requires k < |buckets|
    ensures multiset(AllRows(buckets[k := buckets[k].(rows := buckets[k].rows + [row])])) ==
      multiset(AllRows(buckets)) + multiset{row}
  {
    var updated := buckets[k := buckets[k].(rows := buckets[k].rows + [row])];
    var prev := buckets[..|buckets| - 1];
    var last := buckets[|buckets| - 1];
    if k == |buckets| - 1 {
      assert updated[..|updated| - 1] == prev;
      assert AllRows(updated) == AllRows(prev) + (last.rows + [row]);
      assert AllRows(buckets) == AllRows(prev) + last.rows;
      assert AllRows(updated) == AllRows(buckets) + [row];
    } else {
      var prevUpdated := prev[k := prev[k].(rows := prev[k].rows + [row])];
      assert updated[..|updated| - 1] == prevUpdated;
      assert updated[|updated| - 1] == last;
      AllRowsAppend(prev, k, row);
      assert AllRows(updated) == AllRows(prevUpdated) + last.rows;
      assert AllRows(buckets) == AllRows(prev) + last.rows;
    }
  }

  lemma {:induction false} BucketTeamsOfAdd(buckets: seq<TeamBucket>, row: ResultRow)
    ensures BucketTeams(AddToBucket(buckets, row)) ==
      if row.team in BucketTeams(buckets) then BucketTeams(buckets) else BucketTeams(buckets) + [row.team]
  {
    var teams := BucketTeams(buckets);
    var r := AddToBucket(buckets, row);
    if row.team in teams {
      assert BucketTeams(r) == teams;
    } else {
      assert BucketTeams(r) == teams + [row.team];
    }
  }

  /** Buckets have distinct teams. */
  lemma {:induction false} ByTeamDistinct(results: seq<ResultRow>)
    ensures NoDuplicates(BucketTeams(ByTeam(results)))
  {
    if results != [] {
      var prev := results[..|results| - 1];
      var buckets := ByTeam(prev);
      var row := results[|results| - 1];
      ByTeamDistinct(prev);
      BucketTeamsOfAdd(buckets, row);
      if row.team !in BucketTeams(buckets) {
        NoDuplicatesSnoc(BucketTeams(buckets), row.team);
      }
    }
  }

  /** Every row sits in the bucket of its team. */
  lemma {:induction false} ByTeamKeyed(results: seq<ResultRow>, k: nat, j: nat)
    requires k < |ByTeam(results)| && j < |ByTeam(results)[k].rows|
    ensures ByTeam(results)[k].rows[j].team == ByTeam(results)[k].team
  {
    var prev := results[..|results| - 1];
    var buckets := ByTeam(prev);
    var row := results[|results| - 1];
    var teams := BucketTeams(buckets);
    var r := ByTeam(results);
    if row.team in teams {
      var i := FirstIndex(teams, row.team);
      if k == i && j == |buckets[k].rows| {
        assert r[k].rows[j] == row;
      } else {
        assert r[k].rows[j] == buckets[k].rows[j];
        ByTeamKeyed(prev, k, j);
      }
    } else if k < |buckets| {
      assert r[k] == buckets[k];
      ByTeamKeyed(prev, k, j);
    }
  }

  lemma AddToBucketRows(buckets: seq<TeamBucket>, row: ResultRow)
    ensures multiset(AllRows(AddToBucket(buckets, row))) == multiset(AllRows(buckets)) + multiset{row}
  {
    var teams := BucketTeams(buckets);
    if row.team in teams {
      AllRowsAppend(buckets, FirstIndex(teams, row.team), row);
    } else {
      var r := buckets + [TeamBucket(row.team, [row])];
      assert r[..|r| - 1] == buckets;
      assert AllRows(r) == AllRows(buckets) + [row];
    }
  }

  /** No row is lost or repeated. */
  lemma {:induction false} ByTeamRows(results: seq<ResultRow>)
    ensures multiset(AllRows(ByTeam(results))) == multiset(results)
  {
    if results != [] {
      var prev := results[..|results| - 1];
      var row := results[|results| - 1];
      ByTeamRows(prev);
      AddToBucketRows(ByTeam(prev), row);
      assert results == prev + [row];
    }
  }

  // ---------------------------------------------------------------------
  // Groups and placement
  // ---------------------------------------------------------------------

  function GroupKeys(groups: seq<MatchGroup>): (r: seq<Option<string>>)
    ensures |r| == |groups|
    ensures forall i :: 0 <= i < |groups| ==> r[i] == groups[i].key
  {
    if groups == [] then [] else GroupKeys(groups[..|groups| - 1]) + [groups[|groups| - 1].key]
  }

  /** `if key not in players_by_match: players_by_match[key] = {...}`. */
  function EnsureGroup(groups: seq<MatchGroup>, key: Option<string>, teams: seq<Option<string>>): seq<MatchGroup> {
    if key in GroupKeys(groups) then groups else groups + [MatchGroup(key, teams, [])]
  }

  /** `players_by_match[key]['players'].append(row)`. */
  function Place(groups: seq<MatchGroup>, key: Option<string>, row: ResultRow): seq<MatchGroup> {
    if key in GroupKeys(groups) then
      var k := FirstIndex(GroupKeys(groups), key);
      groups[k := groups[k].(players := groups[k].players + [row])]
    else groups
  }

  /** The names of the placed rows, group after group. */
  function Placed(groups: seq<MatchGroup>): seq<string> {
    if groups == [] then [] else Placed(groups[..|groups| - 1]) + RowNames(groups[|groups| - 1].players)
  }

  function RowNames(rows: seq<ResultRow>): (r: seq<string>)
    ensures |r| == |rows|
    ensures forall i :: 0 <= i < |rows| ==> r[i] == rows[i].player
  {
    if rows == [] then [] else RowNames(rows[..|rows| - 1]) + [rows[|rows| - 1].player]
  }

  /** The non-empty names in a sequence of names. */
  function NonEmptyNames(names: seq<string>): set<string> {
    set n | n in names && n != ""
  }

  /** The non-empty names among some rows. */
  function NamesIn(rows: seq<ResultRow>): set<string> {
    NonEmptyNames(RowNames(rows))
  }

  /** A row is placed under `key` unless its name is empty or already placed. */
  function Offer(st: Arrangement, key: Option<string>, row: ResultRow): Arrangement {
    if row.player != "" && row.player !in st.taken
    then Arrangement(Place(st.groups, key, row), st.taken + {row.player})
    else st
  }

  /** The rows offered in turn under one key. */
  function OfferRows(st: Arrangement, key: Option<string>, rows: seq<ResultRow>): Arrangement {
    if rows == [] then st else Offer(OfferRows(st, key, rows[..|rows| - 1]), key, rows[|rows| - 1])
  }

  /** What placement keeps true: no empty name is placed, group keys are
      distinct, and each name is placed exactly once when taken and
      never otherwise. */
  ghost predicate Placement(st: Arrangement) {
    "" !in st.taken &&
    NoDuplicates(GroupKeys(st.groups)) &&
    forall n :: multiset(Placed(st.groups))[n] == if n in st.taken then 1 else 0
  }

  lemma {:induction false} PlacedOfNew(groups: seq<MatchGroup>, key: Option<string>, teams: seq<Option<string>>)
    ensures Placed(EnsureGroup(groups, key, teams)) == Placed(groups)
    ensures GroupKeys(EnsureGroup(groups, key, teams)) ==
      if key in GroupKeys(groups) then GroupKeys(groups) else GroupKeys(groups) + [key]
  {
    if key !in GroupKeys(groups) {
      var r := groups + [MatchGroup(key, teams, [])];
      assert r[..|r| - 1] == groups;
      assert RowNames([]) == [];
    }
  }

  lemma RowNamesSnoc(rows: seq<ResultRow>, row: ResultRow)
    ensures RowNames(rows + [row]) == RowNames(rows) + [row.player]
  {
    assert (rows + [row])[..|rows|] == rows;
  }

  lemma PlacedAppendLast(groups: seq<MatchGroup>, row: ResultRow)
    requires groups != []
    ensures Placed(groups[|groups| - 1 := groups[|groups| - 1].(players := groups[|groups| - 1].players + [row])]) ==
      Placed(groups) + [row.player]
  {
    var k := |groups| - 1;
    var updated := groups[k := groups[k].(players := groups[k].players + [row])];
    assert updated[..k] == groups[..k];
    RowNamesSnoc(groups[k].players, row);
  }

  lemma {:induction false} PlacedAppend(groups: seq<MatchGroup>, k: nat, row: ResultRow)
    requires k < |groups|
    ensures multiset(Placed(groups[k := groups[k].(players := groups[k].players + [row])])) ==
      multiset(Placed(groups)) + multiset{row.player}
  {
    if k == |groups| - 1 {
      PlacedAppendLast(groups, row);
    } else {
      var updated := groups[k := groups[k].(players := groups[k].players + [row])];
      var prev := groups[..|groups| - 1];
      var last := groups[|groups| - 1];
      var prevUpdated := prev[k := prev[k].(players := prev[k].players + [row])];
      assert updated[..|updated| - 1] == prevUpdated;
      assert updated[|updated| - 1] == last;
      PlacedAppend(prev, k, row);
      assert Placed(updated) == Placed(prevUpdated) + RowNames(last.players);
    }
  }

  lemma PlaceKeys(groups: seq<MatchGroup>, key: Option<string>, row: ResultRow)
    ensures GroupKeys(Place(groups, key, row)) == GroupKeys(groups)
  {
    var r := Place(groups, key, row);
    assert forall i :: 0 <= i < |r| ==> GroupKeys(r)[i] == GroupKeys(groups)[i];
  }

  /** An offer keeps the placement; the name, when not empty, is taken
      afterwards. */
  lemma OfferKeeps(st: Arrangement, key: Option<string>, row: ResultRow)
    requires Placement(st) && key in GroupKeys(st.groups)
    ensures Placement(Offer(st, key, row))
    ensures GroupKeys(Offer(st, key, row).groups) == GroupKeys(st.groups)
    ensures Offer(st, key, row).taken == st.taken + ({row.player} - {""})
  {
    var name := row.player;
    if name != "" && name !in st.taken {
      var r := Offer(st, key, row);
      var k := FirstIndex(GroupKeys(st.groups), key);
      PlacedAppend(st.groups, k, row);
      PlaceKeys(st.groups, key, row);
      var before := multiset(Placed(st.groups));
      assert multiset(Placed(r.groups)) == before + multiset{name};
      forall n ensures multiset(Placed(r.groups))[n] == if n in r.taken then 1 else 0 {
        assert multiset(Placed(r.groups))[n] == before[n] + (if n == name then 1 else 0);
      }
    }
  }

  lemma {:induction false} OfferRowsKeeps(st: Arrangement, key: Option<string>, rows: seq<ResultRow>)
    requires Placement(st) && key in GroupKeys(st.groups)
    ensures Placement(OfferRows(st, key, rows))
    ensures GroupKeys(OfferRows(st, key, rows).groups) == GroupKeys(st.groups)
    ensures OfferRows(st, key, rows).taken == st.taken + NamesIn(rows)
  {
    if rows != [] {
      var prev := rows[..|rows| - 1];
      var mid := OfferRows(st, key, prev);
      OfferRowsKeeps(st, key, prev);
      OfferKeeps(mid, key, rows[|rows| - 1]);
      NamesInSnoc(prev, rows[|rows| - 1]);
    } else {
      assert NamesIn(rows) == {};
    }
  }

  lemma NamesInSnoc(rows: seq<ResultRow>, row: ResultRow)
    ensures NamesIn(rows + [row]) == NamesIn(rows) + ({row.player} - {""})
  {
    RowNamesSnoc(rows, row);
  }

  lemma RowNamesConcat(a: seq<ResultRow>, b: seq<ResultRow>)
    ensures RowNames(a + b) == RowNames(a) + RowNames(b)
  {
    var r := RowNames(a + b);
    assert forall i :: 0 <= i < |r| ==> r[i] == (RowNames(a) + RowNames(b))[i];
  }

  /** The names of the rows of all buckets. */
  lemma AllRowsNames(buckets: seq<TeamBucket>)
    requires buckets != []
    ensures NamesIn(AllRows(buckets)) == NamesIn(AllRows(buckets[..|buckets| - 1])) + NamesIn(buckets[|buckets| - 1].rows)
  {
    RowNamesConcat(AllRows(buckets[..|buckets| - 1]), buckets[|buckets| - 1].rows);
  }

  /** Rows that are a permutation of each other have the same names. */
  lemma NamesInPermutation(a: seq<ResultRow>, b: seq<ResultRow>)
    requires multiset(a) == multiset(b)
    ensures NamesIn(a) == NamesIn(b)
  {
    forall n | n in NamesIn(a) ensures n in NamesIn(b) {
      NamesInOf(a, b, n);
    }
    forall n | n in NamesIn(b) ensures n in NamesIn(a) {
      NamesInOf(b, a, n);
    }
  }

  lemma NamesInOf(a: seq<ResultRow>, b: seq<ResultRow>, n: string)
    requires multiset(a) == multiset(b) && n in NamesIn(a)
    ensures n in NamesIn(b)
  {
    var names := RowNames(a);
    var i :| 0 <= i < |names| && names[i] == n;
    assert a[i] in multiset(b);
    var j :| 0 <= j < |b| && b[j] == a[i];
    assert RowNames(b)[j] == n;
  }

  /** Offering rows under a key, the loop of `for player in players`. */
  method OfferEach(groups0: seq<MatchGroup>, taken0: set<string>, key: Option<string>, rows: seq<ResultRow>)
    returns (groups: seq<MatchGroup>, taken: set<string>)
    ensures Arrangement(groups, taken) == OfferRows(Arrangement(groups0, taken0), key, rows)
  {
    groups, taken := groups0, taken0;
    for i := 0 to |rows|
      invariant Arrangement(groups, taken) == OfferRows(Arrangement(groups0, taken0), key, rows[..i])
    {
      assert rows[..i + 1][..i] == rows[..i];
      var name := rows[i].player;
      if name != "" && name !in taken {
        var keys := GroupKeys(groups);
        if key in keys {
          var k := FirstIndex(keys, key);
          groups := groups[k := groups[k].(players := groups[k].players + [rows[i]])];
        }
        taken := taken + {name};
      }
    }
    assert rows[..|rows|] == rows;
  }

  // ---------------------------------------------------------------------
  // The team-to-match test
  // ---------------------------------------------------------------------

  /** `team_matches`: the normalised team equals either team's normalised
      name, or one of them contains the other. */
  predicate TeamMatches(team: Option<string>, team1: string, team2: string) {
    var n := NormalizeOptional(team);
    var n1 := NormalizeName(team1);
    var n2 := NormalizeName(team2);
    n == n1 || n == n2 || Contains(n, n1) || Contains(n1, n) || Contains(n, n2) || Contains(n2, n)
  }

  /** The test is the permissive name equality against either team. */
  lemma TeamMatchesIff(team: Option<string>, team1: string, team2: string)
    ensures TeamMatches(team, team1, team2) <==>
      SameNormalized(NormalizeOptional(team), NormalizeName(team1)) ||
      SameNormalized(NormalizeOptional(team), NormalizeName(team2))
  {
  }

  /** A row without a team normalises to "" and so resembles every match:
      such rows join the first match they are compared with. */
  lemma NoTeamMatchesEveryMatch(team: Option<string>, team1: string, team2: string)
    requires team.None? || team == Some("")
    ensures TeamMatches(team, team1, team2)
  {
    assert NormalizeOptional(team) == "";
    assert "" <= NormalizeName(team1);
  }

  // ---------------------------------------------------------------------
  // With match information
  // ---------------------------------------------------------------------

  /** `f"{team1} vs {team2}"`. */
  function MatchKey(team1: string, team2: string): Option<string> {
    Some(team1 + " vs " + team2)
  }

  /** The buckets whose team resembles the match's offer their rows to it. */
  function AssignBuckets(st: Arrangement, key: Option<string>, team1: string, team2: string, buckets: seq<TeamBucket>): Arrangement {
    if buckets == [] then st
    else
      var mid := AssignBuckets(st, key, team1, team2, buckets[..|buckets| - 1]);
      var b := buckets[|buckets| - 1];
      if TeamMatches(b.team, team1, team2) then OfferRows(mid, key, b.rows) else mid
  }

  /** One entry of `all_matches_info`; one with fewer than two teams is skipped. */
  function MatchStep(st: Arrangement, buckets: seq<TeamBucket>, info: MatchInfo): Arrangement {
    if |info.teams| >= 2 then
      var key := MatchKey(info.teams[0], info.teams[1]);
      var withGroup := st.(groups := EnsureGroup(st.groups, key, [Some(info.teams[0]), Some(info.teams[1])]));
      AssignBuckets(withGroup, key, info.teams[0], info.teams[1], buckets)
    else st
  }

  function ByMatches(st: Arrangement, buckets: seq<TeamBucket>, infos: seq<MatchInfo>): Arrangement {
    if infos == [] then st else MatchStep(ByMatches(st, buckets, infos[..|infos| - 1]), buckets, infos[|infos| - 1])
  }

  /** The non-empty names placed in the groups. */
  function PlacedNames(groups: seq<MatchGroup>): set<string> {
    NonEmptyNames(Placed(groups))
  }

  /** A leftover row goes to "Other", which is opened when first needed. */
  function OfferOther(st: Arrangement, row: ResultRow): Arrangement {
    if row.player != "" && row.player !in st.taken
    then Offer(st.(groups := EnsureGroup(st.groups, OTHER, [])), OTHER, row)
    else st
  }

  function OtherRows(st: Arrangement, rows: seq<ResultRow>): Arrangement {
    if rows == [] then st else OfferOther(OtherRows(st, rows[..|rows| - 1]), rows[|rows| - 1])
  }

  function OtherBuckets(st: Arrangement, buckets: seq<TeamBucket>): Arrangement {
    if buckets == [] then st else OtherRows(OtherBuckets(st, buckets[..|buckets| - 1]), buckets[|buckets| - 1].rows)
  }

  /** The arrangement with match information: the matches in turn, then
      "Other" for every name not yet placed. */
  function ArrangeByMatches(results: seq<ResultRow>, infos: seq<MatchInfo>): seq<MatchGroup> {
    var buckets := ByTeam(results);
    var st := ByMatches(Arrangement([], {}), buckets, infos);
    OtherBuckets(Arrangement(st.groups, PlacedNames(st.groups)), buckets).groups
  }

  // ---------------------------------------------------------------------
  // With the single match's teams
  // ---------------------------------------------------------------------

  /** Each bucket offers its rows to the match, or to "Other" (opened even
      when nothing ends up in it) when its team does not resemble the match's. */
  function SingleBuckets(st: Arrangement, key: Option<string>, team1: string, team2: string, buckets: seq<TeamBucket>): Arrangement {
    if buckets == [] then st
    else
      SingleBucket(SingleBuckets(st, key, team1, team2, buckets[..|buckets| - 1]), key, team1, team2, buckets[|buckets| - 1])
  }

  function SingleBucket(st: Arrangement, key: Option<string>, team1: string, team2: string, b: TeamBucket): Arrangement {
    if TeamMatches(b.team, team1, team2) then OfferRows(st, key, b.rows)
    else OfferRows(st.(groups := EnsureGroup(st.groups, OTHER, [])), OTHER, b.rows)
  }

  function ArrangeSingleMatch(results: seq<ResultRow>, team1: string, team2: string): seq<MatchGroup> {
    var key := MatchKey(team1, team2);
    var st := Arrangement([MatchGroup(key, [Some(team1), Some(team2)], [])], {});
    SingleBuckets(st, key, team1, team2, ByTeam(results)).groups
  }

  // ---------------------------------------------------------------------
  // With neither
  // ---------------------------------------------------------------------

  function TeamGroups(buckets: seq<TeamBucket>): (r: seq<MatchGroup>)
    ensures |r| == |buckets|
    ensures forall i :: 0 <= i < |buckets| ==> r[i] == MatchGroup(buckets[i].team, [buckets[i].team], buckets[i].rows)
  {
    if buckets == [] then []
    else
      var b := buckets[|buckets| - 1];
      TeamGroups(buckets[..|buckets| - 1]) + [MatchGroup(b.team, [b.team], b.rows)]
  }

  // ---------------------------------------------------------------------
  // The whole arrangement
  // ---------------------------------------------------------------------

  /** `players_by_match`, from the results, `all_matches_info` and `match_teams`. */
  function PlayersByMatch(results: seq<ResultRow>, infos: seq<MatchInfo>, matchTeams: seq<string>): seq<MatchGroup> {
    if |infos| > 0 then ArrangeByMatches(results, infos)
    else if |matchTeams| >= 2 then ArrangeSingleMatch(results, matchTeams[0], matchTeams[1])
    else TeamGroups(ByTeam(results))
  }

  // ---------------------------------------------------------------------
  // The loops of `players_by_match`
  // ---------------------------------------------------------------------

  /** The loop over `players_by_team` for one match. */
  method AssignToMatch(groups0: seq<MatchGroup>, taken0: set<string>, key: Option<string>, team1: string, team2: string, buckets: seq<TeamBucket>)
    returns (groups: seq<MatchGroup>, taken: set<string>)
    ensures Arrangement(groups, taken) == AssignBuckets(Arrangement(groups0, taken0), key, team1, team2, buckets)
  {
    groups, taken := groups0, taken0;
    for j := 0 to |buckets|
      invariant Arrangement(groups, taken) == AssignBuckets(Arrangement(groups0, taken0), key, team1, team2, buckets[..j])
    {
      assert buckets[..j + 1][..j] == buckets[..j];
      var b := buckets[j];
      if TeamMatches(b.team, team1, team2) {
        groups, taken := OfferEach(groups, taken, key, b.rows);
      }
    }
    assert buckets[..|buckets|] == buckets;
  }

  /** The loop over `all_matches_info`. */
  method AssignMatches(buckets: seq<TeamBucket>, infos: seq<MatchInfo>) returns (groups: seq<MatchGroup>, taken: set<string>)
    ensures Arrangement(groups, taken) == ByMatches(Arrangement([], {}), buckets, infos)
  {
    groups, taken := [], {};
    for i := 0 to |infos|
      invariant Arrangement(groups, taken) == ByMatches(Arrangement([], {}), buckets, infos[..i])
    {
      assert infos[..i + 1][..i] == infos[..i];
      var teams := infos[i].teams;
      if |teams| >= 2 {
        var team1, team2 := teams[0], teams[1];
        var key := MatchKey(team1, team2);
        if key !in GroupKeys(groups) {
          groups := groups + [MatchGroup(key, [Some(team1), Some(team2)], [])];
        }
        groups, taken := AssignToMatch(groups, taken, key, team1, team2, buckets);
      }
    }
    assert infos[..|infos|] == infos;
  }

  lemma NonEmptyNamesConcat(a: seq<string>, b: seq<string>)
    ensures NonEmptyNames(a + b) == NonEmptyNames(a) + NonEmptyNames(b)
  {
  }

  /** The loop that rebuilds `all_assigned_player_names` from the groups. */
  method PlacedNameSet(groups: seq<MatchGroup>) returns (names: set<string>)
    ensures names == PlacedNames(groups)
  {
    names := {};
    for g := 0 to |groups|
      invariant names == PlacedNames(groups[..g])
    {
      var rows := groups[g].players;
      for p := 0 to |rows|
        invariant names == PlacedNames(groups[..g]) + NamesIn(rows[..p])
      {
        assert rows[..p + 1] == rows[..p] + [rows[p]];
        NamesInSnoc(rows[..p], rows[p]);
        if rows[p].player != "" {
          names := names + {rows[p].player};
        }
      }
      assert rows[..|rows|] == rows;
      assert groups[..g + 1][..g] == groups[..g];
      NonEmptyNamesConcat(Placed(groups[..g]), RowNames(rows));
    }
    assert groups[..|groups|] == groups;
  }

  /** Offering rows to "Other", the inner loop of the last pass. */
  method OtherEach(groups0: seq<MatchGroup>, taken0: set<string>, rows: seq<ResultRow>)
    returns (groups: seq<MatchGroup>, taken: set<string>)
    ensures Arrangement(groups, taken) == OtherRows(Arrangement(groups0, taken0), rows)
  {
    groups, taken := groups0, taken0;
    for p := 0 to |rows|
      invariant Arrangement(groups, taken) == OtherRows(Arrangement(groups0, taken0), rows[..p])
    {
      assert rows[..p + 1][..p] == rows[..p];
      var name := rows[p].player;
      if name != "" && name !in taken {
        ghost var before := groups;
        if OTHER !in GroupKeys(groups) {
          groups := groups + [MatchGroup(OTHER, [], [])];
        }
        assert groups == EnsureGroup(before, OTHER, []);
        PlacedOfNew(before, OTHER, []);
        var k := FirstIndex(GroupKeys(groups), OTHER);
        groups := groups[k := groups[k].(players := groups[k].players + [rows[p]])];
        taken := taken + {name};
      }
    }
    assert rows[..|rows|] == rows;
  }

  /** The last pass: every row not yet placed goes to "Other". */
  method AssignOther(groups0: seq<MatchGroup>, taken0: set<string>, buckets: seq<TeamBucket>)
    returns (groups: seq<MatchGroup>, taken: set<string>)
    ensures Arrangement(groups, taken) == OtherBuckets(Arrangement(groups0, taken0), buckets)
  {
    groups, taken := groups0, taken0;
    for j := 0 to |buckets|
      invariant Arrangement(groups, taken) == OtherBuckets(Arrangement(groups0, taken0), buckets[..j])
    {
      assert buckets[..j + 1][..j] == buckets[..j];
      groups, taken := OtherEach(groups, taken, buckets[j].rows);
    }
    assert buckets[..|buckets|] == buckets;
  }

  /** The single-match branch: one group for the match, then each team's
      rows to it or to "Other". The set of names already placed starts out
      empty, as nothing is placed yet. */
  method SingleMatchGroups(buckets: seq<TeamBucket>, team1: string, team2: string) returns (groups: seq<MatchGroup>)
    ensures groups == SingleBuckets(Arrangement([MatchGroup(MatchKey(team1, team2), [Some(team1), Some(team2)], [])], {}),
      MatchKey(team1, team2), team1, team2, buckets).groups
  {
    var key := MatchKey(team1, team2);
    ghost var st0 := Arrangement([MatchGroup(key, [Some(team1), Some(team2)], [])], {});
    groups := [MatchGroup(key, [Some(team1), Some(team2)], [])];
    var taken: set<string> := {};
    for j := 0 to |buckets|
      invariant Arrangement(groups, taken) == SingleBuckets(st0, key, team1, team2, buckets[..j])
    {
      assert buckets[..j + 1][..j] == buckets[..j];
      var b := buckets[j];
      if TeamMatches(b.team, team1, team2) {
        groups, taken := OfferEach(groups, taken, key, b.rows);
      } else {
        if OTHER !in GroupKeys(groups) {
          groups := groups + [MatchGroup(OTHER, [], [])];
        }
        groups, taken := OfferEach(groups, taken, OTHER, b.rows);
      }
    }
    assert buckets[..|buckets|] == buckets;
  }

  /** The branch without match information: one group per team. */
  method TeamGroupsOf(buckets: seq<TeamBucket>) returns (groups: seq<MatchGroup>)
    ensures groups == TeamGroups(buckets)
  {
    groups := [];
    for j := 0 to |buckets|
      invariant groups == TeamGroups(buckets[..j])
    {
      assert buckets[..j + 1][..j] == buckets[..j];
      groups := groups + [MatchGroup(buckets[j].team, [buckets[j].team], buckets[j].rows)];
    }
    assert buckets[..|buckets|] == buckets;
  }

  /** `players_by_match` as `get_slate` builds it. */
  method ArrangePlayers(results: seq<ResultRow>, infos: seq<MatchInfo>, matchTeams: seq<string>) returns (groups: seq<MatchGroup>)
    ensures groups == PlayersByMatch(results, infos, matchTeams)
  {
    var buckets := GroupByTeam(results);
    if |infos| > 0 {
      var matched, taken := AssignMatches(buckets, infos);
      var placed := PlacedNameSet(matched);
      groups, taken := AssignOther(matched, placed, buckets);
    } else if |matchTeams| >= 2 {
      groups := SingleMatchGroups(buckets, matchTeams[0], matchTeams[1]);
    } else {
      groups := TeamGroupsOf(buckets);
    }
  }

  // ---------------------------------------------------------------------
  // Placement is kept
  // ---------------------------------------------------------------------

  lemma EmptyPlacement()
    ensures Placement(Arrangement([], {}))
  {
    assert Placed([]) == [];
  }

  /** Opening a group keeps the placement and makes its key present. */
  lemma EnsureGroupKeeps(st: Arrangement, key: Option<string>, teams: seq<Option<string>>)
    requires Placement(st)
    ensures Placement(st.(groups := EnsureGroup(st.groups, key, teams)))
    ensures key in GroupKeys(EnsureGroup(st.groups, key, teams))
    ensures GroupKeys(st.groups) <= GroupKeys(EnsureGroup(st.groups, key, teams))
  {
    PlacedOfNew(st.groups, key, teams);
    if key !in GroupKeys(st.groups) {
      NoDuplicatesSnoc(GroupKeys(st.groups), key);
    }
  }

  /** Under the placement, the placed names are the taken ones. */
  lemma PlacedNamesTaken(st: Arrangement)
    requires Placement(st)
    ensures PlacedNames(st.groups) == st.taken
  {
    var m := multiset(Placed(st.groups));
    forall n ensures n in Placed(st.groups) <==> n in st.taken {
      assert n in Placed(st.groups) <==> m[n] > 0;
    }
  }

  lemma {:induction false} AssignKeeps(st: Arrangement, key: Option<string>, team1: string, team2: string, buckets: seq<TeamBucket>)
    requires Placement(st) && key in GroupKeys(st.groups)
    ensures Placement(AssignBuckets(st, key, team1, team2, buckets))
    ensures GroupKeys(AssignBuckets(st, key, team1, team2, buckets).groups) == GroupKeys(st.groups)
    ensures st.taken <= AssignBuckets(st, key, team1, team2, buckets).taken <= st.taken + NamesIn(AllRows(buckets))
  {
    if buckets != [] {
      var prev := buckets[..|buckets| - 1];
      var b := buckets[|buckets| - 1];
      var mid := AssignBuckets(st, key, team1, team2, prev);
      AssignKeeps(st, key, team1, team2, prev);
      AllRowsNames(buckets);
      if TeamMatches(b.team, team1, team2) {
        OfferRowsKeeps(mid, key, b.rows);
      }
    }
  }

  lemma MatchStepKeeps(st: Arrangement, buckets: seq<TeamBucket>, info: MatchInfo)
    requires Placement(st)
    ensures Placement(MatchStep(st, buckets, info))
    ensures st.taken <= MatchStep(st, buckets, info).taken <= st.taken + NamesIn(AllRows(buckets))
  {
    if |info.teams| >= 2 {
      var key := MatchKey(info.teams[0], info.teams[1]);
      EnsureGroupKeeps(st, key, [Some(info.teams[0]), Some(info.teams[1])]);
      var withGroup := st.(groups := EnsureGroup(st.groups, key, [Some(info.teams[0]), Some(info.teams[1])]));
      AssignKeeps(withGroup, key, info.teams[0], info.teams[1], buckets);
    }
  }

  lemma {:induction false} ByMatchesKeeps(st: Arrangement, buckets: seq<TeamBucket>, infos: seq<MatchInfo>)
    requires Placement(st)
    ensures Placement(ByMatches(st, buckets, infos))
    ensures st.taken <= ByMatches(st, buckets, infos).taken <= st.taken + NamesIn(AllRows(buckets))
  {
    if infos != [] {
      ByMatchesKeeps(st, buckets, infos[..|infos| - 1]);
      MatchStepKeeps(ByMatches(st, buckets, infos[..|infos| - 1]), buckets, infos[|infos| - 1]);
    }
  }

  lemma OfferOtherKeeps(st: Arrangement, row: ResultRow)
    requires Placement(st)
    ensures Placement(OfferOther(st, row))
    ensures OfferOther(st, row).taken == st.taken + ({row.player} - {""})
  {
    if row.player != "" && row.player !in st.taken {
      EnsureGroupKeeps(st, OTHER, []);
      OfferKeeps(st.(groups := EnsureGroup(st.groups, OTHER, [])), OTHER, row);
    }
  }

  lemma {:induction false} OtherRowsKeeps(st: Arrangement, rows: seq<ResultRow>)
    requires Placement(st)
    ensures Placement(OtherRows(st, rows))
    ensures OtherRows(st, rows).taken == st.taken + NamesIn(rows)
  {
    if rows != [] {
      var prev := rows[..|rows| - 1];
      var mid := OtherRows(st, prev);
      OtherRowsKeeps(st, prev);
      OfferOtherKeeps(mid, rows[|rows| - 1]);
      NamesInSnoc(prev, rows[|rows| - 1]);
    } else {
      assert NamesIn(rows) == {};
    }
  }

  lemma {:induction false} OtherBucketsKeeps(st: Arrangement, buckets: seq<TeamBucket>)
    requires Placement(st)
    ensures Placement(OtherBuckets(st, buckets))
    ensures OtherBuckets(st, buckets).taken == st.taken + NamesIn(AllRows(buckets))
  {
    if buckets != [] {
      var prev := buckets[..|buckets| - 1];
      OtherBucketsKeeps(st, prev);
      OtherRowsKeeps(OtherBuckets(st, prev), buckets[|buckets| - 1].rows);
      AllRowsNames(buckets);
    } else {
      assert NamesIn([]) == {};
    }
  }

  lemma {:induction false} SingleKeeps(st: Arrangement, key: Option<string>, team1: string, team2: string, buckets: seq<TeamBucket>)
    requires Placement(st) && key in GroupKeys(st.groups)
    ensures Placement(SingleBuckets(st, key, team1, team2, buckets))
    ensures key in GroupKeys(SingleBuckets(st, key, team1, team2, buckets).groups)
    ensures SingleBuckets(st, key, team1, team2, buckets).taken == st.taken + NamesIn(AllRows(buckets))
  {
    if buckets != [] {
      var prev := buckets[..|buckets| - 1];
      var b := buckets[|buckets| - 1];
      var mid := SingleBuckets(st, key, team1, team2, prev);
      SingleKeeps(st, key, team1, team2, prev);
      AllRowsNames(buckets);
      SingleBucketKeeps(mid, key, team1, team2, b);
    } else {
      assert NamesIn([]) == {};
    }
  }

  lemma SingleBucketKeeps(st: Arrangement, key: Option<string>, team1: string, team2: string, b: TeamBucket)
    requires Placement(st) && key in GroupKeys(st.groups)
    ensures Placement(SingleBucket(st, key, team1, team2, b))
    ensures key in GroupKeys(SingleBucket(st, key, team1, team2, b).groups)
    ensures SingleBucket(st, key, team1, team2, b).taken == st.taken + NamesIn(b.rows)
  {
    if TeamMatches(b.team, team1, team2) {
      OfferRowsKeeps(st, key, b.rows);
    } else {
      OtherOfferKeeps(st, key, b.rows);
    }
  }

  /** A bucket sent to "Other" in the single-match arrangement. */
  lemma OtherOfferKeeps(st: Arrangement, key: Option<string>, rows: seq<ResultRow>)
    requires Placement(st) && key in GroupKeys(st.groups)
    ensures Placement(OfferRows(st.(groups := EnsureGroup(st.groups, OTHER, [])), OTHER, rows))
    ensures key in GroupKeys(OfferRows(st.(groups := EnsureGroup(st.groups, OTHER, [])), OTHER, rows).groups)
    ensures OfferRows(st.(groups := EnsureGroup(st.groups, OTHER, [])), OTHER, rows).taken == st.taken + NamesIn(rows)
  {
    EnsureGroupKeeps(st, OTHER, []);
    OfferRowsKeeps(st.(groups := EnsureGroup(st.groups, OTHER, [])), OTHER, rows);
  }

  // ---------------------------------------------------------------------
  // What the arrangement promises
  // ---------------------------------------------------------------------

  /** With match information, every distinct non-empty name of the results
      is placed exactly once, under a match or "Other", and no other name
      is placed; group keys are distinct. */
  lemma ArrangeByMatchesOnce(results: seq<ResultRow>, infos: seq<MatchInfo>)
    ensures NoDuplicates(GroupKeys(ArrangeByMatches(results, infos)))
    ensures forall n :: multiset(Placed(ArrangeByMatches(results, infos)))[n] == if n in NamesIn(results) then 1 else 0
  {
    var buckets := ByTeam(results);
    EmptyPlacement();
    ByMatchesKeeps(Arrangement([], {}), buckets, infos);
    var st := ByMatches(Arrangement([], {}), buckets, infos);
    PlacedNamesTaken(st);
    OtherBucketsKeeps(Arrangement(st.groups, PlacedNames(st.groups)), buckets);
    ByTeamRows(results);
    NamesInPermutation(AllRows(buckets), results);
  }

  /** With only the single match's teams, the same holds, and the match's
      group is present. */
  lemma ArrangeSingleMatchOnce(results: seq<ResultRow>, team1: string, team2: string)
    ensures NoDuplicates(GroupKeys(ArrangeSingleMatch(results, team1, team2)))
    ensures MatchKey(team1, team2) in GroupKeys(ArrangeSingleMatch(results, team1, team2))
    ensures forall n :: multiset(Placed(ArrangeSingleMatch(results, team1, team2)))[n] == if n in NamesIn(results) then 1 else 0
  {
    var key := MatchKey(team1, team2);
    var groups := [MatchGroup(key, [Some(team1), Some(team2)], [])];
    var st := Arrangement(groups, {});
    assert groups[..0] == [];
    assert Placed(groups) == [] && GroupKeys(groups) == [key];
    ByTeamRows(results);
    SingleKeeps(st, key, team1, team2, ByTeam(results));
    NamesInPermutation(AllRows(ByTeam(results)), results);
  }

  /** The rows of all groups, group after group. */
  function AllPlayers(groups: seq<MatchGroup>): seq<ResultRow> {
    if groups == [] then [] else AllPlayers(groups[..|groups| - 1]) + groups[|groups| - 1].players
  }

  lemma {:induction false} TeamGroupsRows(buckets: seq<TeamBucket>)
    ensures AllPlayers(TeamGroups(buckets)) == AllRows(buckets)
  {
    if buckets != [] {
      var r := TeamGroups(buckets);
      TeamGroupsRows(buckets[..|buckets| - 1]);
      assert r[..|r| - 1] == TeamGroups(buckets[..|buckets| - 1]);
    }
  }

  /** With neither, each team is one group keyed by the team, holding exactly
      that team's rows: no row is dropped or repeated, and keys are distinct. */
  lemma TeamGroupsKeepAll(results: seq<ResultRow>)
    ensures multiset(AllPlayers(TeamGroups(ByTeam(results)))) == multiset(results)
    ensures NoDuplicates(GroupKeys(TeamGroups(ByTeam(results))))
    ensures forall k, j :: 0 <= k < |TeamGroups(ByTeam(results))| && 0 <= j < |TeamGroups(ByTeam(results))[k].players| ==>
      TeamGroups(ByTeam(results))[k].players[j].team == TeamGroups(ByTeam(results))[k].key
  {
    var buckets := ByTeam(results);
    var groups := TeamGroups(buckets);
    TeamGroupsRows(buckets);
    ByTeamRows(results);
    ByTeamDistinct(results);
    assert GroupKeys(groups) == BucketTeams(buckets);
    forall k, j | 0 <= k < |groups| && 0 <= j < |groups[k].players| ensures groups[k].players[j].team == groups[k].key {
      ByTeamKeyed(results, k, j);
    }
  }
}
