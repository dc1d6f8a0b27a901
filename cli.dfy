/**
  The command-line front end (main.py): `do_full_slate` reads the slate
  strictly, builds one summary row per kills line, names the output
  workbook and colours each average against the line.
*/
module Cli {
  import opened Wrappers
  import opened Seqs
  import opened Text
  import opened Pages
  import opened Links
  import opened Aggregation
  import opened Slate
  import opened Merger

  // ---------------------------------------------------------------------
  // The slate filter
  // ---------------------------------------------------------------------

  /** One `(player, line)` of `player_info`. */
  datatype Line = Line(player: string, line: Option<string>)

  /** `item["over_under"]["title"]`, None where the lookup raises (a
      missing or null over/under or title). */
  function StrictTitle(item: SlateItem): Option<string> {
    match item.overUnder
    case None => None
    case Some(ou) => ou.title
  }

  /** `player_info` after the loop over the slate, or None when the loop
      raises on an item without a title. */
  function CliLines(items: seq<SlateItem>): Option<seq<Line>> {
    if items == [] then Some([])
    else
      match CliLines(items[..|items| - 1])
      case None => None
      case Some(prev) =>
        var item := items[|items| - 1];
        match StrictTitle(item)
        case None => None
        case Some(t) => Some(if Contains(t, MARKER) then prev + [Line(PlayerName(t), item.statValue)] else prev)
  }

  /** The loop of `do_full_slate` over the slate. */
  method ReadSlate(items: seq<SlateItem>) returns (r: Option<seq<Line>>)
    ensures r == CliLines(items)
  {
    var info: seq<Line> := [];
    for i := 0 to |items|
      invariant CliLines(items[..i]) == Some(info)
    {
      assert items[..i + 1][..i] == items[..i];
      var item := items[i];
      if item.overUnder.None? || item.overUnder.value.title.None? {
        CrashPersists(items, i + 1);
        return None;
      }
      var title := item.overUnder.value.title.value;
      if Contains(title, MARKER) {
        info := info + [Line(Strip(ReplaceAll(title, SUFFIX, "")), item.statValue)];
      }
    }
    assert items[..|items|] == items;
    r := Some(info);
  }

  /** Once the loop has raised, it stays raised. */
  lemma {:induction false} CrashPersists(items: seq<SlateItem>, k: nat)
    requires k <= |items| && CliLines(items[..k]).None?
    ensures CliLines(items).None?
    decreases |items| - k
  {
    if k < |items| {
      assert items[..k + 1][..k] == items[..k];
      CrashPersists(items, k + 1);
    } else {
      assert items[..k] == items;
    }
  }

  /** The strict loop raises exactly when some item has no title. */
  lemma {:induction false} CliLinesRaise(items: seq<SlateItem>)
    ensures CliLines(items).None? <==> exists i :: 0 <= i < |items| && StrictTitle(items[i]).None?
  {
    if items != [] {
      var prev := items[..|items| - 1];
      CliLinesRaise(prev);
      if CliLines(prev).None? {
        var i :| 0 <= i < |prev| && StrictTitle(prev[i]).None?;
        assert items[i] == prev[i];
      } else if StrictTitle(items[|items| - 1]).Some? {
        forall i | 0 <= i < |items| ensures StrictTitle(items[i]).Some? {
          if i < |prev| {
            assert items[i] == prev[i];
          }
        }
      }
    }
  }

  /** The `(player, line)` pairs of the web endpoint's entries. */
  function LinesOf(entries: seq<PlayerEntry>): (r: seq<Line>)
    ensures |r| == |entries|
    ensures forall i :: 0 <= i < |entries| ==> r[i] == Line(entries[i].player, entries[i].line)
  {
    if entries == [] then [] else LinesOf(entries[..|entries| - 1]) + [Line(entries[|entries| - 1].player, entries[|entries| - 1].line)]
  }

  lemma EmptyHasNoMarker()
    ensures !Contains("", MARKER)
  {
  }

  /** When it does not raise, the strict loop keeps the same players and
      lines, in the same order, as the web endpoint's lenient one. */
  lemma {:induction false} CliLinesAgree(items: seq<SlateItem>)
    requires CliLines(items).Some?
    ensures CliLines(items).value == LinesOf(SlateEntries(items))
  {
    if items != [] {
      var prev := items[..|items| - 1];
      var item := items[|items| - 1];
      CliLinesAgree(prev);
      assert items == prev + [item];
      SlateEntriesConcat(prev, [item]);
      assert SlateEntries([item]) == if EntryOf(item).Some? then [EntryOf(item).value] else [] by {
        assert [item][..0] == [];
      }
      EmptyHasNoMarker();
      var entries := SlateEntries(items);
      var before := LinesOf(SlateEntries(prev));
      if EntryOf(item).Some? {
        assert LinesOf(entries) == before + [Line(EntryOf(item).value.player, EntryOf(item).value.line)];
      } else {
        assert LinesOf(entries) == before;
      }
    } else {
      assert SlateEntries([]) == [];
    }
  }

  // ---------------------------------------------------------------------
  // Summary rows
  // ---------------------------------------------------------------------

  /** One entry of `summary_rows`. */
  datatype SummaryRow = SummaryRow(player: string, line: Option<string>, team: Option<string>,
                                   avg5: Option<real>, avg10: Option<real>, avg25: Option<real>)

  /** `scrape_current_team(soup) if soup else None`. */
  function ProfileTeam(web: Web, url: string): Option<string> {
    match FetchSoup(web, url)
    case None => None
    case Some(doc) => CurrentTeam(doc)
  }

  /** The row for one player, or None when `find_player_url` raises, which
      nothing in `do_full_slate` catches. */
  function SummaryOf(web: Web, l: Line): Option<SummaryRow> {
    match PlayerSearch(web, l.player)
    case Threw(_) => None
    case Found(url) =>
      if !Truthy(url) then Some(SummaryRow(l.player, l.line, None, None, None, None))
      else
        var kills := KillTotals(GoodMatches(web, MatchHistory(web, url.value), l.player));
        Some(SummaryRow(l.player, l.line, ProfileTeam(web, url.value),
                        Average(kills, 5), Average(kills, 10), Average(kills, 25)))
  }

  /** `summary_rows` after the loop, or None when it raised. */
  function Summaries(web: Web, lines: seq<Line>): Option<seq<SummaryRow>> {
    if lines == [] then Some([])
    else
      match Summaries(web, lines[..|lines| - 1])
      case None => None
      case Some(prev) =>
        match SummaryOf(web, lines[|lines| - 1])
        case None => None
        case Some(row) => Some(prev + [row])
  }

  /** The body of the loop for one player. */
  method SummarizePlayer(web: Web, l: Line) returns (r: Option<SummaryRow>)
    ensures r == SummaryOf(web, l)
  {
    var found := FindPlayerUrl(web, l.player);
    if found.Threw? {
      return None;
    }
    var url := found.url;
    if !Truthy(url) {
      return Some(SummaryRow(l.player, l.line, None, None, None, None));
    }
    var soup := FetchSoup(web, url.value);
    var team := if soup.Some? then CurrentTeam(soup.value) else None;
    var links := ScrapeMatchLinks(web, url.value);
    var good := AnalyzeLinks(web, links, l.player);
    WindowsPositive();
    var avgs := ComputeAverages(good, WINDOWS);
    r := Some(SummaryRow(l.player, l.line, team, avgs[5], avgs[10], avgs[25]));
  }

  /** The loop of `do_full_slate` over `player_info`. */
  method Summarize(web: Web, lines: seq<Line>) returns (r: Option<seq<SummaryRow>>)
    ensures r == Summaries(web, lines)
  {
    var rows: seq<SummaryRow> := [];
    for i := 0 to |lines|
      invariant Summaries(web, lines[..i]) == Some(rows)
    {
      assert lines[..i + 1][..i] == lines[..i];
      var row := SummarizePlayer(web, lines[i]);
      if row.None? {
        SummariesRaisePersist(web, lines, i + 1);
        return None;
      }
      rows := rows + [row.value];
    }
    assert lines[..|lines|] == lines;
    r := Some(rows);
  }

  lemma {:induction false} SummariesRaisePersist(web: Web, lines: seq<Line>, k: nat)
    requires k <= |lines| && Summaries(web, lines[..k]).None?
    ensures Summaries(web, lines).None?
    decreases |lines| - k
  {
    if k < |lines| {
      assert lines[..k + 1][..k] == lines[..k];
      SummariesRaisePersist(web, lines, k + 1);
    } else {
      assert lines[..k] == lines;
    }
  }

  /** A player without a profile still gets a row, with no team and no
      averages; a found profile gives its team and the window averages of
      its good matches, each absent exactly when there are too few. */
  lemma SummaryOfShape(web: Web, l: Line)
    ensures SummaryOf(web, l).None? <==> PlayerSearch(web, l.player).Threw?
    ensures SummaryOf(web, l).Some? ==> SummaryOf(web, l).value.player == l.player && SummaryOf(web, l).value.line == l.line
    ensures PlayerSearch(web, l.player).Found? && !Truthy(PlayerSearch(web, l.player).url) ==>
      SummaryOf(web, l) == Some(SummaryRow(l.player, l.line, None, None, None, None))
    ensures PlayerSearch(web, l.player).Found? && Truthy(PlayerSearch(web, l.player).url) ==>
      var url := PlayerSearch(web, l.player).url.value;
      var good := GoodMatches(web, MatchHistory(web, url), l.player);
      SummaryOf(web, l).value.team == ProfileTeam(web, url) &&
      (SummaryOf(web, l).value.avg5.None? <==> |good| < 5) &&
      (SummaryOf(web, l).value.avg10.None? <==> |good| < 10) &&
      (SummaryOf(web, l).value.avg25.None? <==> |good| < 25) &&
      SummaryOf(web, l).value.avg5 == Average(KillTotals(good), 5)
  {
  }

  /** One row per player, in order, unless some search raised. */
  lemma {:induction false} SummariesShape(web: Web, lines: seq<Line>, i: nat)
    ensures Summaries(web, lines).None? <==> exists j :: 0 <= j < |lines| && PlayerSearch(web, lines[j].player).Threw?
    ensures Summaries(web, lines).Some? ==> |Summaries(web, lines).value| == |lines|
    ensures Summaries(web, lines).Some? && i < |lines| ==> Summaries(web, lines).value[i] == SummaryOf(web, lines[i]).value
  {
    if lines != [] {
      var prev := lines[..|lines| - 1];
      var last := lines[|lines| - 1];
      SummariesShape(web, prev, i);
      SummaryOfShape(web, last);
      if Summaries(web, prev).None? {
        var j :| 0 <= j < |prev| && PlayerSearch(web, prev[j].player).Threw?;
        assert lines[j] == prev[j];
      } else if SummaryOf(web, last).Some? {
        forall j | 0 <= j < |lines| ensures !PlayerSearch(web, lines[j].player).Threw? {
          if j < |prev| {
            assert lines[j] == prev[j];
            SummaryOfShape(web, prev[j]);
          }
        }
        if i < |prev| {
          assert lines[i] == prev[i];
        }
      }
    }
  }

  /** For a profile the web endpoint analysed, the command line shows the
      same three averages. */
  lemma SummaryAgreesWithEndpoint(web: Web, e: PlayerEntry, team: Option<string>)
    requires PlayerSearch(web, e.player).Found? && Truthy(PlayerSearch(web, e.player).url)
    requires AnalyzedRow(web, e, PlayerSearch(web, e.player).url.value, team).outcome.Analyzed?
    ensures var row := AnalyzedRow(web, e, PlayerSearch(web, e.player).url.value, team);
      var s := SummaryOf(web, Line(e.player, e.line)).value;
      s.avg5 == row.avg5 && s.avg10 == row.avg10 && s.avg25 == row.avg25
  {
    AnalyzedRowShape(web, e, PlayerSearch(web, e.player).url.value, team);
  }

  // ---------------------------------------------------------------------
  // The output file name
  // ---------------------------------------------------------------------

  const FILE_PREFIX: string := "underdog_slate_"
  const EXTENSION: string := ".xlsx"

  /** `f"underdog_slate_{date}"`, for the day's `%Y-%m-%d` text. */
  function FileBase(date: string): string {
    FILE_PREFIX + date
  }

  /** `f"{file_base}_{k}.xlsx"`. */
  function Versioned(base: string, k: nat): string {
    base + "_" + NatToString(k) + EXTENSION
  }

  /** The name as written: the plain name when nothing matches the pattern,
      else the version one past the number of matches. */
  function OutputFileName(date: string, existing: set<string>): string {
    if existing == {} then FileBase(date) + EXTENSION else Versioned(FileBase(date), |existing| + 1)
  }

  /** With the plain name and the third version on disk, the name chosen is
      the third version again, and the export overwrites it. */
  lemma OutputFileNameOverwrites(date: string)
    ensures var base := FileBase(date);
      OutputFileName(date, {base + EXTENSION, Versioned(base, 3)}) in {base + EXTENSION, Versioned(base, 3)}
  {
    var base := FileBase(date);
    var plain := base + EXTENSION;
    var third := Versioned(base, 3);
    assert NatToString(3) == "3";
    assert plain[|base|] == '.' && third[|base|] == '_';
    assert {plain, third} != {};
    assert |{plain, third}| == 2;
  }

  /** Versions with different numbers have different names. */
  lemma VersionedInjective(base: string, j: nat, k: nat)
    requires Versioned(base, j) == Versioned(base, k)
    ensures j == k
  {
    var a := Versioned(base, j);
    var b := Versioned(base, k);
    assert |NatToString(j)| == |NatToString(k)|;
    assert NatToString(j) == a[|base| + 1..|a| - |EXTENSION|];
    assert NatToString(k) == b[|base| + 1..|b| - |EXTENSION|];
    ParseNatToString(j);
    ParseNatToString(k);
  }

  /** The versions numbered `2` to `hi`. */
  function VersionsUpTo(base: string, hi: nat): set<string> {
    set k | 2 <= k <= hi :: Versioned(base, k)
  }

  lemma {:induction false} VersionsUpToSize(base: string, hi: nat)
    requires hi >= 1
    ensures |VersionsUpTo(base, hi)| == hi - 1
  {
    if hi == 1 {
      assert VersionsUpTo(base, hi) == {};
    } else {
      VersionsUpToSize(base, hi - 1);
      var v := Versioned(base, hi);
      assert VersionsUpTo(base, hi) == VersionsUpTo(base, hi - 1) + {v};
      if v in VersionsUpTo(base, hi - 1) {
        var k :| 2 <= k <= hi - 1 && Versioned(base, k) == v;
        VersionedInjective(base, k, hi);
      }
    }
  }

  /** The first free version from `k` on, `hi` at the latest. */
  function FirstFree(base: string, existing: set<string>, k: nat, hi: nat): (r: nat)
    requires 2 <= k <= hi
    ensures k <= r <= hi
    ensures forall j :: k <= j < r ==> Versioned(base, j) in existing
    ensures r < hi ==> Versioned(base, r) !in existing
    decreases hi - k
  {
    if k == hi || Versioned(base, k) !in existing then k else FirstFree(base, existing, k + 1, hi)
  }

  /** The corrected name: the plain name when it is free, else the first
      free version. */
  function FreshFileName(date: string, existing: set<string>): string {
    var base := FileBase(date);
    if base + EXTENSION !in existing then base + EXTENSION
    else Versioned(base, FirstFree(base, existing, 2, |existing| + 2))
  }

  /** The plain name is no version. */
  lemma PlainIsNoVersion(base: string, k: nat)
    ensures Versioned(base, k) != base + EXTENSION
  {
    assert Versioned(base, k)[|base|] == '_' && (base + EXTENSION)[|base|] == '.';
  }

  /** Some version from `2` to `|existing| + 2` is free: there are more of
      them than files. */
  lemma FreeVersion(base: string, existing: set<string>) returns (k: nat)
    ensures 2 <= k <= |existing| + 2 && Versioned(base, k) !in existing
  {
    var hi := |existing| + 2;
    var versions := VersionsUpTo(base, hi);
    VersionsUpToSize(base, hi);
    var taken := versions * existing;
    var extra := versions - existing;
    assert versions == extra + taken && extra * taken == {};
    assert taken <= existing;
    assert |extra| >= 1;
    var v :| v in extra;
    k :| 2 <= k <= hi && Versioned(base, k) == v;
  }

  /** The corrected name never names a file that exists. */
  lemma FreshFileNameIsFree(date: string, existing: set<string>)
    ensures FreshFileName(date, existing) !in existing
  {
    var base := FileBase(date);
    if base + EXTENSION in existing {
      var k := FreeVersion(base, existing);
      var r := FirstFree(base, existing, 2, |existing| + 2);
      assert r <= k;
    }
  }

  /** Where the files on disk are just the plain name and the versions `2`
      to `m`, the layout the written rule assumes, the corrected name is the
      written one. */
  lemma FreshFileNameAgrees(date: string, m: nat)
    requires m >= 1
    ensures var base := FileBase(date);
      var existing := {base + EXTENSION} + VersionsUpTo(base, m);
      FreshFileName(date, existing) == OutputFileName(date, existing)
  {
    var base := FileBase(date);
    var plain := base + EXTENSION;
    var versions := VersionsUpTo(base, m);
    var existing := {plain} + versions;
    VersionsUpToSize(base, m);
    forall v | v in versions ensures v != plain && v != Versioned(base, m + 1) {
      var k :| 2 <= k <= m && Versioned(base, k) == v;
      PlainIsNoVersion(base, k);
      if v == Versioned(base, m + 1) {
        VersionedInjective(base, k, m + 1);
      }
    }
    assert |existing| == m;
    PlainIsNoVersion(base, m + 1);
    assert Versioned(base, m + 1) !in existing;
    forall j | 2 <= j <= m ensures Versioned(base, j) in existing {
      assert Versioned(base, j) in versions;
    }
    var r := FirstFree(base, existing, 2, m + 2);
    assert r == m + 1;
  }

  // ---------------------------------------------------------------------
  // Colours
  // ---------------------------------------------------------------------

  /** What `color_val` prints: grey N/A, green, red, yellow, or the plain
      value when the line does not parse as a number. */
  datatype Shade = NotAvailable | Green | Red | Yellow | Plain

  /** The three fills `color_code_excel` applies. */
  datatype Fill = AboveFill | BelowFill | EqualFill

  /** `color_val(avg, line)`; `parse` is `float` on the line's text. */
  function ColorVal(avg: Option<real>, line: Option<string>, parse: string -> Option<real>): Shade {
    if avg.None? || line.None? then NotAvailable
    else
      match parse(line.value)
      case None => Plain
      case Some(l) => if avg.value > l then Green else if avg.value < l then Red else Yellow
  }

  /** The fill of one average cell against its row's line cell; none when
      either is empty or the line does not parse. */
  function CellFill(avg: Option<real>, line: Option<string>, parse: string -> Option<real>): Option<Fill> {
    var lineVal := if line.Some? then parse(line.value) else None;
    if avg.Some? && lineVal.Some? then
      if avg.value > lineVal.value then Some(AboveFill)
      else if avg.value < lineVal.value then Some(BelowFill)
      else Some(EqualFill)
    else None
  }

  /** With both values present, exactly one colour applies, by comparison;
      otherwise the N/A or plain form is shown. */
  lemma ColorValCases(avg: Option<real>, line: Option<string>, parse: string -> Option<real>)
    ensures ColorVal(avg, line, parse) == NotAvailable <==> avg.None? || line.None?
    ensures ColorVal(avg, line, parse) == Plain <==> avg.Some? && line.Some? && parse(line.value).None?
    ensures avg.Some? && line.Some? && parse(line.value).Some? ==>
      (ColorVal(avg, line, parse) == Green <==> avg.value > parse(line.value).value) &&
      (ColorVal(avg, line, parse) == Red <==> avg.value < parse(line.value).value) &&
      (ColorVal(avg, line, parse) == Yellow <==> avg.value == parse(line.value).value)
  {
  }

  /** The workbook's fill and the console's colour tell the same story. */
  lemma FillMatchesConsole(avg: Option<real>, line: Option<string>, parse: string -> Option<real>)
    ensures CellFill(avg, line, parse) == Some(AboveFill) <==> ColorVal(avg, line, parse) == Green
    ensures CellFill(avg, line, parse) == Some(BelowFill) <==> ColorVal(avg, line, parse) == Red
    ensures CellFill(avg, line, parse) == Some(EqualFill) <==> ColorVal(avg, line, parse) == Yellow
    ensures CellFill(avg, line, parse).None? <==> ColorVal(avg, line, parse) in {NotAvailable, Plain}
  {
  }
}
