/**
  The web as the scraper sees it. An HTTP request either raises, fails
  (a non-2xx status), or loads a page; a loaded page is a `Document` holding
  what each BeautifulSoup selector chain of scraper/vlr.py finds on it.
  `urlparse(...).path` and `datetime.strptime` are opaque functions of the web.
*/
module Pages {
  import opened Wrappers

  /** The attributes and text of an element; "" stands for a missing attribute. */
  datatype Element = Element(title: string, dataTitle: string, text: string)

  /** An `<a href>` element: its href, its text and its parent element's text. */
  datatype Anchor = Anchor(href: string, text: string, parentText: string)

  /** A search hit `a.wf-module-item.search-item`: the text of its
      `div.search-item-title` if it has one, and its href ("" when absent). */
  datatype SearchItem = SearchItem(title: Option<string>, href: string)

  /** A calendar day, ordered by (year, month, day). */
  datatype Day = Day(year: nat, month: nat, day: nat)

  predicate DayLe(a: Day, b: Day) {
    a.year < b.year || (a.year == b.year && (a.month < b.month || (a.month == b.month && a.day <= b.day)))
  }

  /** An element found by one of the date selectors: its timestamp attribute
      (`data-utc-ts`, else `data-timestamp`; "" when neither) and its text. */
  datatype DateTag = DateTag(stamp: string, text: string)

  /** A kills cell found by one kills selector: the text of its `.mod-both`
      child if it has one, and its own text. */
  datatype KillCell = KillCell(both: Option<string>, text: string)

  /** A row of a map's stats table: the player cell (the first of the name
      selectors that matches), the `alt` of the image each agent selector
      finds ("" when none), and the cell each kills selector finds. */
  datatype StatRow = StatRow(cell: Option<Element>, agentAlts: seq<string>, killCells: seq<KillCell>)

  /** One `div.vm-stats-game` section: its map label text (the first map
      selector that matches), the rows of its stats table (the first
      non-empty row selector), the player cells of the rows of each of its
      tables, and the player cells of all of its body rows. */
  datatype MapSection = MapSection(
    mapLabel: Option<string>,
    rows: seq<StatRow>,
    tables: seq<seq<Option<Element>>>,
    bodyRows: seq<Option<Element>>)

  /** The player link `a[href*='/player/']` inside a player cell. */
  datatype PlayerLink = PlayerLink(href: string, attrs: Element)

  /** The player cell of a stats-table row, with its link and `div.text-of`. */
  datatype LinkCell = LinkCell(attrs: Element, link: Option<PlayerLink>, textOf: Option<Element>)

  /** A page. */
  datatype Document = Document(
    anchors: seq<Anchor>,                // a[href]
    searchItems: seq<SearchItem>,        // a.wf-module-item.search-item
    teamLinkHref: Option<string>,        // href of the first linked a.wf-module-item in the "Current Teams" card
    teamName: Option<string>,            // text of that card's team-name div
    headerTeams: seq<string>,            // div.match-header-link-name .wf-title-med
    dateTags: seq<Option<DateTag>>,      // what each of the four date selectors finds, in order
    hasStatsTables: bool,                // table.wf-table-inset, table.wf-table
    sections: seq<MapSection>,           // div.vm-stats-game, else the alternative selector
    playerRows: seq<Option<LinkCell>>,   // rows of the stats tables, with their player cell
    laterMatchLinks: seq<string>)        // what the later passes of the match-history scan collect

  datatype Fetch = Raised(message: string) | Failed | Loaded(doc: Document)

  /** `fetch` answers a GET of a URL; `urlPath` is `urlparse(u).path` (None
      when it raises); `parseStamp` is `strptime` of a timestamp attribute in
      the format its shape selects; `parseDay` is `strptime(s, "%Y-%m-%d")`. */
  datatype Web = Web(
    fetch: string -> Fetch,
    urlPath: string -> Option<string>,
    parseStamp: string -> Option<Day>,
    parseDay: string -> Option<Day>)

  /** `fetch_soup`: a page, or None when the request raised or failed. */
  function FetchSoup(web: Web, url: string): (r: Option<Document>)
    ensures r.Some? <==> web.fetch(url).Loaded?
  {
    match web.fetch(url)
    case Loaded(doc) => Some(doc)
    case _ => None
  }
}
