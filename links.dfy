/**
  Links on VLR pages (scraper/vlr.py): which hrefs name a match, the
  match-history scan of a player's page, the choice of a player search
  result and the rewrite of its href, and the team link on a player's page.
*/
module Links {
  import opened Wrappers
  import opened Seqs
  import opened Text
  import opened Names
  import opened Pages

  const BASE_URL: string := "https://www.vlr.gg"

  // ---------------------------------------------------------------------
  // Match links
  // ---------------------------------------------------------------------

  /** A path names a match when its first segment, once the outer slashes
      are stripped, is a run of at least four digits. */
  predicate IsMatchPath(path: string) {
    var first := Before(StripSlashes(path), "/");
    IsDigits(first) && |first| >= 4
  }

  /** The match URL an href contributes: a relative match path is prefixed
      with the site, an absolute vlr.gg URL with a match path is kept as is. */
  function MatchLinkOf(web: Web, href: string): (r: Option<string>)
    ensures r.Some? ==> StartsWith(r.value, "http")
    ensures r.Some? && StartsWith(href, "/") ==> r.value == BASE_URL + href
    ensures r.Some? && !StartsWith(href, "/") ==> r.value == href && Contains(href, "vlr.gg")
  {
    if href == "" then None
    else if StartsWith(href, "/") then
      if IsMatchPath(href) then Some(BASE_URL + href) else None
    else if StartsWith(href, "http") && Contains(href, "vlr.gg") then
      match web.urlPath(href)
      case Some(path) => if IsMatchPath(path) then Some(href) else None
      case None => None
    else None
  }

  /** The match URLs of a list of anchors, in order, repetitions included. */
  function Candidates(web: Web, anchors: seq<Anchor>): seq<string> {
    if anchors == [] then []
    else
      var rest := Candidates(web, anchors[..|anchors| - 1]);
      match MatchLinkOf(web, anchors[|anchors| - 1].href)
      case Some(u) => rest + [u]
      case None => rest
  }

  /** The scan over `a[href]` shared by `scrape_match_links` and
      `get_match_from_team`: keep each match URL the first time it is seen. */
  method CollectMatchLinks(web: Web, anchors: seq<Anchor>) returns (links: seq<string>)
    ensures links == Dedup(Candidates(web, anchors))
  {
    links := [];
    for i := 0 to |anchors|
      invariant links == Dedup(Candidates(web, anchors[..i]))
    {
      assert anchors[..i + 1][..i] == anchors[..i];
      var u := MatchLinkOf(web, anchors[i].href);
      if u.Some? && u.value !in links {
        links := links + [u.value];
      }
    }
    assert anchors[..|anchors|] == anchors;
  }

  /** A URL is a candidate exactly when some anchor contributes it. */
  lemma {:induction false} CandidatesIff(web: Web, anchors: seq<Anchor>, u: string)
    ensures u in Candidates(web, anchors) <==>
      exists i :: 0 <= i < |anchors| && MatchLinkOf(web, anchors[i].href) == Some(u)
  {
    if anchors != [] {
      var p := anchors[..|anchors| - 1];
      CandidatesIff(web, p, u);
      assert forall i :: 0 <= i < |p| ==> p[i] == anchors[i];
    }
  }

  /** The collected links are distinct, and are exactly the URLs some anchor
      contributes, in the order in which they first appear. */
  lemma CollectedLinks(web: Web, anchors: seq<Anchor>, u: string)
    ensures NoDuplicates(Dedup(Candidates(web, anchors)))
    ensures u in Dedup(Candidates(web, anchors)) <==>
      exists i :: 0 <= i < |anchors| && MatchLinkOf(web, anchors[i].href) == Some(u)
  {
    DedupNoDuplicates(Candidates(web, anchors));
    DedupElements(Candidates(web, anchors));
    CandidatesIff(web, anchors, u);
  }

  /** A relative href contributes a link exactly when its first path segment
      is four or more digits. */
  lemma RelativeHrefKept(web: Web, href: string)
    requires StartsWith(href, "/")
    ensures MatchLinkOf(web, href).Some? <==> IsMatchPath(href)
    ensures IsMatchPath(href) ==> MatchLinkOf(web, href) == Some(BASE_URL + href)
  {
  }

  /** `player_url.replace("/player/", "/player/matches/")`. */
  function HistoryUrl(playerUrl: string): string {
    ReplaceAll(playerUrl, "/player/", "/player/matches/")
  }

  /** The links `scrape_match_links` returns: none when the history page
      cannot be fetched; else the distinct links of the first pass over
      `a[href]` when there are any, and only otherwise what the later passes
      collect. */
  function MatchHistory(web: Web, playerUrl: string): seq<string> {
    match FetchSoup(web, HistoryUrl(playerUrl))
    case None => []
    case Some(doc) =>
      var first := Dedup(Candidates(web, doc.anchors));
      if first != [] then first else doc.laterMatchLinks
  }

  /** `scrape_match_links`. */
  method ScrapeMatchLinks(web: Web, playerUrl: string) returns (links: seq<string>)
    ensures links == MatchHistory(web, playerUrl)
  {
    var soup := FetchSoup(web, HistoryUrl(playerUrl));
    if soup.None? {
      return [];
    }
    links := CollectMatchLinks(web, soup.value.anchors);
    if links == [] {
      links := soup.value.laterMatchLinks;
    }
  }

  /** When some anchor of the history page gives a match link, the result is
      the first pass's distinct links and the later passes are not used. */
  lemma MatchHistoryFirstPass(web: Web, playerUrl: string, i: nat)
    requires FetchSoup(web, HistoryUrl(playerUrl)).Some?
    requires i < |FetchSoup(web, HistoryUrl(playerUrl)).value.anchors|
    requires MatchLinkOf(web, FetchSoup(web, HistoryUrl(playerUrl)).value.anchors[i].href).Some?
    ensures MatchHistory(web, playerUrl) == Dedup(Candidates(web, FetchSoup(web, HistoryUrl(playerUrl)).value.anchors))
    ensures NoDuplicates(MatchHistory(web, playerUrl))
  {
    var anchors := FetchSoup(web, HistoryUrl(playerUrl)).value.anchors;
    var u := MatchLinkOf(web, anchors[i].href).value;
    CollectedLinks(web, anchors, u);
    assert u in Dedup(Candidates(web, anchors));
  }

  lemma BaseHasNoPlayerSegment(rest: string)
    ensures NoOccurrenceBefore(BASE_URL + rest, "/player/", |BASE_URL|)
  {
    var s := BASE_URL + rest;
    forall i | 0 <= i < |BASE_URL| && i <= |s|
      ensures !("/player/" <= s[i..])
    {
      assert s[i] == BASE_URL[i];
      if BASE_URL[i] == '/' {
        assert i == 6 || i == 7;
        assert s[i + 1] == BASE_URL[i + 1];
      }
    }
  }

  /** The match-history page of a profile URL `https://www.vlr.gg/player/<rest>`
      is `https://www.vlr.gg/player/matches/<rest>`. */
  lemma HistoryOfProfile(rest: string)
    requires !Contains(rest, "/player/")
    ensures HistoryUrl(BASE_URL + "/player/" + rest) == BASE_URL + "/player/matches/" + rest
  {
    var pat := "/player/";
    BaseHasNoPlayerSegment(pat + rest);
    assert BASE_URL + "/player/" + rest == BASE_URL + (pat + rest);
    ReplaceAfterPrefix(BASE_URL, pat + rest, pat, "/player/matches/");
    assert (pat + rest)[|pat|..] == rest;
    ReplaceAbsent(rest, pat, "/player/matches/");
  }

  // ---------------------------------------------------------------------
  // Player search
  // ---------------------------------------------------------------------

  /** The rewrite of a search result's href into a profile URL. When the href
      holds `/player/` without starting with it, what is kept is the text
      between its first and second `/player/` (`href.split('/player/')[1]`). */
  function ProfileUrl(href: string): (r: string)
    ensures StartsWith(r, BASE_URL)
    ensures Contains(href, "/player/") ==> StartsWith(r, BASE_URL + "/player/")
  {
    if StartsWith(href, "/player/") then
      assert BASE_URL + href == BASE_URL + "/player/" + href[8..];
      BASE_URL + href
    else if Contains(href, "/player/") then BASE_URL + "/player/" + Before(After(href, "/player/"), "/player/")
    else BASE_URL + href
  }

  /** A redirect href `<pre>/player/<slug>` with a single `/player/` becomes
      the profile URL of `<slug>`. */
  lemma ProfileUrlOfRedirect(pre: string, slug: string)
    requires pre != []
    requires NoOccurrenceBefore(pre + "/player/" + slug, "/player/", |pre|)
    requires !Contains(slug, "/player/")
    ensures ProfileUrl(pre + "/player/" + slug) == BASE_URL + "/player/" + slug
  {
    var href := pre + "/player/" + slug;
    assert !StartsWith(href, "/player/") by {
      assert href[0..] == href;
    }
    assert href[|pre|..] == "/player/" + slug;
    ContainsWitness(href, "/player/", |pre|);
    AfterFirst(pre, "/player/", slug);
    BeforeAbsent(slug, "/player/");
  }

  /** The search result counts as the player when its normalised title
      contains the normalised query. */
  predicate TitleMatches(item: SearchItem, query: string) {
    item.title.Some? && Contains(NormalizeName(item.title.value), query)
  }

  /** The position of the first result at or after `i` whose title matches. */
  function FirstTitleMatch(items: seq<SearchItem>, query: string, i: nat): (k: Option<nat>)
    requires i <= |items|
    ensures k.Some? ==> i <= k.value < |items| && TitleMatches(items[k.value], query)
    ensures k.Some? ==> forall j :: i <= j < k.value ==> !TitleMatches(items[j], query)
    ensures k.None? ==> forall j :: i <= j < |items| ==> !TitleMatches(items[j], query)
    decreases |items| - i
  {
    if i == |items| then None
    else if TitleMatches(items[i], query) then Some(i)
    else FirstTitleMatch(items, query, i + 1)
  }

  /** The result `find_player_url` settles on: the first matching one,
      otherwise the first one of all, otherwise none. */
  function SearchPick(items: seq<SearchItem>, query: string): Option<nat> {
    match FirstTitleMatch(items, query, 0)
    case Some(k) => Some(k)
    case None => if items == [] then None else Some(0)
  }

  method SelectSearchItem(items: seq<SearchItem>, query: string) returns (pick: Option<nat>)
    ensures pick == SearchPick(items, query)
    ensures pick.None? <==> items == []
    ensures pick.Some? ==> pick.value < |items|
    ensures pick.Some? && TitleMatches(items[pick.value], query) ==>
      forall j :: 0 <= j < pick.value ==> !TitleMatches(items[j], query)
    ensures pick.Some? && !TitleMatches(items[pick.value], query) ==>
      pick.value == 0 && forall j :: 0 <= j < |items| ==> !TitleMatches(items[j], query)
  {
    for i := 0 to |items|
      invariant forall j :: 0 <= j < i ==> !TitleMatches(items[j], query)
      invariant FirstTitleMatch(items, query, 0) == FirstTitleMatch(items, query, i)
    {
      if TitleMatches(items[i], query) {
        return Some(i);
      }
    }
    if items != [] {
      return Some(0);
    }
    return None;
  }

  /** The search rule is determined: it settles on a position exactly when
      that is the first matching result, or the first result when none matches. */
  lemma SearchPickCharacterised(items: seq<SearchItem>, query: string, k: nat)
    requires k < |items|
    ensures SearchPick(items, query) == Some(k) <==>
      (TitleMatches(items[k], query) && forall j :: 0 <= j < k ==> !TitleMatches(items[j], query)) ||
      (k == 0 && forall j :: 0 <= j < |items| ==> !TitleMatches(items[j], query))
  {
    var f := FirstTitleMatch(items, query, 0);
    if f.Some? && f.value != k && TitleMatches(items[k], query) {
      assert k > f.value;
    }
  }

  /** The outcome of `find_player_url`: the exception `requests.get` raised,
      or the URL found (None when the search failed or found nothing). */
  datatype Lookup = Threw(message: string) | Found(url: Option<string>)

  function SearchUrl(name: string): string {
    BASE_URL + "/search/?q=" + name + "&type=players"
  }

  /** What `find_player_url` returns for `name`. */
  function PlayerSearch(web: Web, name: string): Lookup {
    match web.fetch(SearchUrl(name))
    case Raised(m) => Threw(m)
    case Failed => Found(None)
    case Loaded(doc) =>
      match SearchPick(doc.searchItems, NormalizeName(name))
      case None => Found(None)
      case Some(k) => Found(Some(ProfileUrl(doc.searchItems[k].href)))
  }

  /** `find_player_url`. */
  method FindPlayerUrl(web: Web, name: string) returns (r: Lookup)
    ensures r == PlayerSearch(web, name)
    ensures r.Found? && r.url.Some? ==> StartsWith(r.url.value, BASE_URL)
    ensures r.Found? && r.url.None? ==>
      web.fetch(SearchUrl(name)).Failed? || web.fetch(SearchUrl(name)).doc.searchItems == []
    ensures r.Found? && web.fetch(SearchUrl(name)).Loaded? && web.fetch(SearchUrl(name)).doc.searchItems != [] ==>
      r.url.Some?
  {
    var res := web.fetch(SearchUrl(name));
    if res.Raised? {
      return Threw(res.message);
    }
    if res.Failed? {
      return Found(None);
    }
    var items := res.doc.searchItems;
    var pick := SelectSearchItem(items, NormalizeName(name));
    if pick.None? {
      return Found(None);
    }
    return Found(Some(ProfileUrl(items[pick.value].href)));
  }

  // ---------------------------------------------------------------------
  // Team link
  // ---------------------------------------------------------------------

  /** The team URL the "Current Teams" link's href gives. */
  function TeamUrl(href: Option<string>): (r: Option<string>)
    ensures r.Some? ==> href.Some? && StartsWith(r.value, "http")
    ensures r.Some? ==> r.value == href.value || r.value == BASE_URL + href.value
    ensures r.Some? && r.value != href.value ==> Contains(href.value, "/team/")
  {
    match href
    case None => None
    case Some(h) =>
      if h == "" then None
      else if StartsWith(h, "/team/") then
        assert h[0..] == h;
        ContainsAt(h, "/team/");
        Some(BASE_URL + h)
      else if StartsWith(h, "http") then Some(h)
      else if Contains(h, "/team/") then Some(BASE_URL + h)
      else None
  }

  /** `get_team_url_from_player`. */
  function TeamUrlOfPlayer(web: Web, playerUrl: string): (r: Option<string>)
    ensures r.Some? ==> FetchSoup(web, playerUrl).Some?
  {
    match FetchSoup(web, playerUrl)
    case None => None
    case Some(doc) => TeamUrl(doc.teamLinkHref)
  }

  /** `scrape_current_team`: the stripped text of the team-name div. */
  function CurrentTeam(doc: Document): (r: Option<string>)
    ensures r.Some? ==> doc.teamName.Some? && r.value == Strip(doc.teamName.value)
  {
    match doc.teamName
    case None => None
    case Some(t) => Some(Strip(t))
  }
}
