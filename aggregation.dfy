/**
  Kill aggregation: `group_kills_by_match` (scraper/vlr.py) groups the
  per-map records of one player by match, in the order the matches are
  first seen, keeps the first `maxMaps` maps of each match and returns only
  the matches with exactly `maxMaps` maps and a positive kill total;
  `compute_averages` (app.py, and the identical copy in main.py) averages
  the totals of the first w returned matches for each window w.
*/
module Aggregation {
  import opened Wrappers
  import opened Seqs
  import opened MatchPages

  /** One entry of `map_kills`. */
  datatype MapKill = MapKill(mapName: string, agent: string, kills: int)

  /** One value of the `match_data` dict while the records are read. */
  datatype Bucket = Bucket(player: string, matchTitle: string, matchDate: string, matchUrl: string,
                           mapKills: seq<MapKill>, mapsCounted: nat)

  /** A returned match: its bucket together with `total_kills`. */
  datatype MatchTotal = MatchTotal(player: string, matchTitle: string, matchDate: string, matchUrl: string,
                                   mapKills: seq<MapKill>, mapsCounted: nat, totalKills: int)

  /** The `match_data` dict: its keys in insertion order, and its values. */
  datatype Grouping = Grouping(order: seq<string>, buckets: map<string, Bucket>)

  /** The windows `compute_averages` uses by default. */
  const WINDOWS: seq<nat> := [5, 10, 25]

  function KillOf(m: MapRecord): MapKill {
    MapKill(m.mapName, m.agent, m.kills)
  }

  /** `sum(m["kills"] for m in map_kills)`. */
  function Sum(ks: seq<MapKill>): int {
    if ks == [] then 0 else Sum(ks[..|ks| - 1]) + ks[|ks| - 1].kills
  }

  // ---------------------------------------------------------------------
  // Specification of group_kills_by_match
  // ---------------------------------------------------------------------

  /** The body of the first loop for one record: open the bucket of its
      match if needed, then add the map while fewer than `maxMaps` are
      counted. */
  function Add(g: Grouping, m: MapRecord, player: string, maxMaps: nat): Grouping {
    var key := m.matchUrl;
    var buckets := if key in g.buckets then g.buckets
                   else g.buckets[key := Bucket(player, m.matchTitle, m.matchDate, key, [], 0)];
    var order := if key in g.buckets then g.order else g.order + [key];
    var b := buckets[key];
    if b.mapsCounted < maxMaps
    then Grouping(order, buckets[key := b.(mapKills := b.mapKills + [KillOf(m)], mapsCounted := b.mapsCounted + 1)])
    else Grouping(order, buckets)
  }

  /** `match_data` after the first loop. */
  function Bucketed(records: seq<MapRecord>, player: string, maxMaps: nat): (g: Grouping)
    ensures forall u :: u in g.order <==> u in g.buckets
  {
    if records == [] then Grouping([], map[])
    else Add(Bucketed(records[..|records| - 1], player, maxMaps), records[|records| - 1], player, maxMaps)
  }

  /** The filter of the second loop. */
  predicate Eligible(b: Bucket, maxMaps: nat) {
    b.mapsCounted == maxMaps && Sum(b.mapKills) > 0
  }

  function WithTotal(b: Bucket): MatchTotal {
    MatchTotal(b.player, b.matchTitle, b.matchDate, b.matchUrl, b.mapKills, b.mapsCounted, Sum(b.mapKills))
  }

  /** The second loop over the keys in `order`. */
  function Totals(order: seq<string>, buckets: map<string, Bucket>, maxMaps: nat): seq<MatchTotal>
    requires forall u :: u in order ==> u in buckets
  {
    if order == [] then []
    else
      assert order[|order| - 1] in order;
      assert forall u :: u in order[..|order| - 1] ==> u in order;
      var rest := Totals(order[..|order| - 1], buckets, maxMaps);
      var b := buckets[order[|order| - 1]];
      if Eligible(b, maxMaps) then rest + [WithTotal(b)] else rest
  }

  /** What `group_kills_by_match(all_maps, player_name, max_maps)` returns. */
  function GroupKills(records: seq<MapRecord>, player: string, maxMaps: nat): seq<MatchTotal> {
    var g := Bucketed(records, player, maxMaps);
    Totals(g.order, g.buckets, maxMaps)
  }

  // ---------------------------------------------------------------------
  // group_kills_by_match
  // ---------------------------------------------------------------------

  method GroupKillsByMatch(records: seq<MapRecord>, player: string, maxMaps: nat) returns (filtered: seq<MatchTotal>)
    ensures filtered == GroupKills(records, player, maxMaps)
  {
    var order: seq<string> := [];
    var matchData: map<string, Bucket> := map[];
    for i := 0 to |records|
      invariant Grouping(order, matchData) == Bucketed(records[..i], player, maxMaps)
    {
      assert records[..i + 1][..i] == records[..i];
      var m := records[i];
      var key := m.matchUrl;
      if key !in matchData {
        matchData := matchData[key := Bucket(player, m.matchTitle, m.matchDate, key, [], 0)];
        order := order + [key];
      }
      var b := matchData[key];
      if b.mapsCounted < maxMaps {
        matchData := matchData[key := b.(mapKills := b.mapKills + [KillOf(m)], mapsCounted := b.mapsCounted + 1)];
      }
    }
    assert records[..|records|] == records;
    filtered := SelectEligible(order, matchData, maxMaps);
  }

  /** The second loop of `group_kills_by_match`. */
  method SelectEligible(order: seq<string>, matchData: map<string, Bucket>, maxMaps: nat) returns (filtered: seq<MatchTotal>)
    requires forall u :: u in order ==> u in matchData
    ensures filtered == Totals(order, matchData, maxMaps)
  {
    filtered := [];
    for k := 0 to |order|
      invariant forall u :: u in order[..k] ==> u in order
      invariant filtered == Totals(order[..k], matchData, maxMaps)
    {
      assert order[..k + 1][..k] == order[..k];
      assert forall u :: u in order[..k + 1] ==> u in order;
      var b := matchData[order[k]];
      var total := Sum(b.mapKills);
      if b.mapsCounted == maxMaps && total > 0 {
        filtered := filtered + [WithTotal(b)];
      }
    }
    assert order[..|order|] == order;
  }

  // ---------------------------------------------------------------------
  // Reference definitions
  // ---------------------------------------------------------------------

  /** The match URL of every record, in input order. */
  function UrlsOf(records: seq<MapRecord>): (r: seq<string>)
    ensures |r| == |records|
  {
    if records == [] then [] else UrlsOf(records[..|records| - 1]) + [records[|records| - 1].matchUrl]
  }

  /** The maps of every record of match `u`, in input order. */
  function KillsFor(records: seq<MapRecord>, u: string): seq<MapKill> {
    if records == [] then []
    else
      var m := records[|records| - 1];
      KillsFor(records[..|records| - 1], u) + (if m.matchUrl == u then [KillOf(m)] else [])
  }

  /** Whether match `u` is one the source keeps: at least `maxMaps` maps,
      and a positive total over the first `maxMaps`. */
  predicate Kept(records: seq<MapRecord>, u: string, maxMaps: nat) {
    u in UrlsOf(records) && |KillsFor(records, u)| >= maxMaps && Sum(Take(KillsFor(records, u), maxMaps)) > 0
  }

  // ---------------------------------------------------------------------
  // Lemmas about the buckets
  // ---------------------------------------------------------------------

  lemma {:induction false} UrlsOfAt(records: seq<MapRecord>, k: nat)
    requires k < |records|
    ensures UrlsOf(records)[k] == records[k].matchUrl
  {
    if k < |records| - 1 {
      UrlsOfAt(records[..|records| - 1], k);
    }
  }

  lemma {:induction false} KillsForAbsent(records: seq<MapRecord>, u: string)
    requires u !in UrlsOf(records)
    ensures KillsFor(records, u) == []
  {
    if records != [] {
      assert UrlsOf(records) == UrlsOf(records[..|records| - 1]) + [records[|records| - 1].matchUrl];
      KillsForAbsent(records[..|records| - 1], u);
    }
  }

  /** The keys, in insertion order, are the distinct match URLs in order of
      first occurrence. */
  lemma {:induction false} BucketedOrder(records: seq<MapRecord>, player: string, maxMaps: nat)
    ensures Bucketed(records, player, maxMaps).order == Dedup(UrlsOf(records))
    ensures forall u :: u in Bucketed(records, player, maxMaps).buckets <==> u in UrlsOf(records)
  {
    DedupElements(UrlsOf(records));
    if records != [] {
      var p := records[..|records| - 1];
      BucketedOrder(p, player, maxMaps);
      DedupElements(UrlsOf(p));
      assert UrlsOf(records) == UrlsOf(p) + [records[|records| - 1].matchUrl];
      assert UrlsOf(records)[..|UrlsOf(records)| - 1] == UrlsOf(p);
    }
  }

  lemma TakeSnoc<T>(s: seq<T>, x: T, n: nat)
    ensures |s| >= n ==> Take(s + [x], n) == Take(s, n)
    ensures |s| < n ==> Take(s + [x], n) == s + [x]
  {
    if |s| >= n {
      assert (s + [x])[..n] == s[..n];
    }
  }

  /** The bucket of match `u`: opened by its first record, holding the first
      `maxMaps` of its maps in input order. */
  lemma {:induction false} BucketOf(records: seq<MapRecord>, player: string, maxMaps: nat, u: string)
    requires u in UrlsOf(records)
    ensures u in Bucketed(records, player, maxMaps).buckets
    ensures FirstIndex(UrlsOf(records), u) < |records|
    ensures Bucketed(records, player, maxMaps).buckets[u] ==
      var first := records[FirstIndex(UrlsOf(records), u)];
      var kills := Take(KillsFor(records, u), maxMaps);
      Bucket(player, first.matchTitle, first.matchDate, u, kills, |kills|)
  {
    BucketedOrder(records, player, maxMaps);
    var p := records[..|records| - 1];
    var m := records[|records| - 1];
    assert UrlsOf(records) == UrlsOf(p) + [m.matchUrl];
    BucketedOrder(p, player, maxMaps);
    var g := Bucketed(p, player, maxMaps);
    TakeSnoc(KillsFor(p, u), KillOf(m), maxMaps);
    var kills := Take(KillsFor(records, u), maxMaps);
    if u in UrlsOf(p) {
      BucketOf(p, player, maxMaps, u);
      FirstIndexOfExtension(UrlsOf(p), m.matchUrl, u);
      var first := p[FirstIndex(UrlsOf(p), u)];
      assert records[FirstIndex(UrlsOf(records), u)] == first;
      var old_kills := Take(KillsFor(p, u), maxMaps);
      assert g.buckets[u] == Bucket(player, first.matchTitle, first.matchDate, u, old_kills, |old_kills|);
      if m.matchUrl != u {
        assert KillsFor(records, u) == KillsFor(p, u);
        assert Bucketed(records, player, maxMaps).buckets[u] == g.buckets[u];
      } else if |old_kills| < maxMaps {
        assert KillsFor(records, u) == KillsFor(p, u) + [KillOf(m)];
        assert kills == old_kills + [KillOf(m)];
      } else {
        assert KillsFor(records, u) == KillsFor(p, u) + [KillOf(m)];
        assert kills == old_kills;
      }
    } else {
      assert m.matchUrl == u;
      KillsForAbsent(p, u);
      FirstIndexOfNew(UrlsOf(p), u);
      assert KillsFor(records, u) == [KillOf(m)];
    }
  }

  // ---------------------------------------------------------------------
  // Lemmas about the second loop
  // ---------------------------------------------------------------------

  /** Every selected match comes from an eligible bucket of `order`. */
  lemma {:induction false} TotalsSound(order: seq<string>, buckets: map<string, Bucket>, maxMaps: nat)
    requires forall u :: u in order ==> u in buckets
    requires forall u :: u in buckets ==> buckets[u].matchUrl == u
    ensures forall i :: 0 <= i < |Totals(order, buckets, maxMaps)| ==>
      var t := Totals(order, buckets, maxMaps)[i];
      t.matchUrl in order && Eligible(buckets[t.matchUrl], maxMaps) && t == WithTotal(buckets[t.matchUrl])
  {
    if order != [] {
      var p := order[..|order| - 1];
      assert forall u :: u in p ==> u in order;
      TotalsSound(p, buckets, maxMaps);
    }
  }

  /** Every eligible bucket of `order` is selected. */
  lemma {:induction false} TotalsComplete(order: seq<string>, buckets: map<string, Bucket>, maxMaps: nat, u: string)
    requires forall u :: u in order ==> u in buckets
    requires forall u :: u in buckets ==> buckets[u].matchUrl == u
    requires u in order && Eligible(buckets[u], maxMaps)
    ensures exists i :: 0 <= i < |Totals(order, buckets, maxMaps)| && Totals(order, buckets, maxMaps)[i].matchUrl == u
  {
    var p := order[..|order| - 1];
    assert forall v :: v in p ==> v in order;
    var t := Totals(order, buckets, maxMaps);
    if u == order[|order| - 1] {
      assert t[|t| - 1].matchUrl == u;
    } else {
      assert u in p;
      TotalsComplete(p, buckets, maxMaps, u);
      var i :| 0 <= i < |Totals(p, buckets, maxMaps)| && Totals(p, buckets, maxMaps)[i].matchUrl == u;
      assert t[i] == Totals(p, buckets, maxMaps)[i];
    }
  }

  /** The selected matches keep the order of `order`. */
  lemma {:induction false} TotalsOrdered(order: seq<string>, buckets: map<string, Bucket>, maxMaps: nat)
    requires forall u :: u in order ==> u in buckets
    requires forall u :: u in buckets ==> buckets[u].matchUrl == u
    requires NoDuplicates(order)
    ensures forall i, j :: 0 <= i < j < |Totals(order, buckets, maxMaps)| ==>
      var t := Totals(order, buckets, maxMaps);
      t[i].matchUrl in order && t[j].matchUrl in order &&
      FirstIndex(order, t[i].matchUrl) < FirstIndex(order, t[j].matchUrl)
  {
    TotalsSound(order, buckets, maxMaps);
    if order != [] {
      var p := order[..|order| - 1];
      var x := order[|order| - 1];
      assert order == p + [x];
      assert forall u :: u in p ==> u in order;
      TotalsOrdered(p, buckets, maxMaps);
      TotalsSound(p, buckets, maxMaps);
      var tp := Totals(p, buckets, maxMaps);
      var t := Totals(order, buckets, maxMaps);
      forall i, j | 0 <= i < j < |t|
        ensures FirstIndex(order, t[i].matchUrl) < FirstIndex(order, t[j].matchUrl)
      {
        assert t[i] == tp[i];
        FirstIndexOfExtension(p, x, t[i].matchUrl);
        if j < |tp| {
          assert t[j] == tp[j];
          FirstIndexOfExtension(p, x, t[j].matchUrl);
        } else {
          assert t[j].matchUrl == x;
          assert x !in p;
          FirstIndexOfNew(p, x);
        }
      }
    }
  }

  // ---------------------------------------------------------------------
  // What group_kills_by_match promises
  // ---------------------------------------------------------------------

  /** Every bucket is keyed by its own match URL. */
  lemma BucketsKeyed(records: seq<MapRecord>, player: string, maxMaps: nat)
    ensures forall u :: u in Bucketed(records, player, maxMaps).buckets ==> Bucketed(records, player, maxMaps).buckets[u].matchUrl == u
  {
    BucketedOrder(records, player, maxMaps);
    forall u | u in Bucketed(records, player, maxMaps).buckets
      ensures Bucketed(records, player, maxMaps).buckets[u].matchUrl == u
    {
      BucketOf(records, player, maxMaps, u);
    }
  }

  /** Each returned match has exactly `maxMaps` maps, all counted, and a
      positive total that is the sum of its map kills; its maps are the first
      `maxMaps` records of its URL, and its title and date those of the
      first record of its URL. */
  lemma GroupKillsShape(records: seq<MapRecord>, player: string, maxMaps: nat, i: nat)
    requires i < |GroupKills(records, player, maxMaps)|
    ensures var t := GroupKills(records, player, maxMaps)[i];
      t.mapsCounted == |t.mapKills| == maxMaps && t.totalKills == Sum(t.mapKills) && t.totalKills > 0 &&
      t.player == player && t.matchUrl in UrlsOf(records) && FirstIndex(UrlsOf(records), t.matchUrl) < |records| &&
      t.mapKills == Take(KillsFor(records, t.matchUrl), maxMaps) &&
      t.matchTitle == records[FirstIndex(UrlsOf(records), t.matchUrl)].matchTitle &&
      t.matchDate == records[FirstIndex(UrlsOf(records), t.matchUrl)].matchDate
  {
    var g := Bucketed(records, player, maxMaps);
    BucketedOrder(records, player, maxMaps);
    BucketsKeyed(records, player, maxMaps);
    TotalsSound(g.order, g.buckets, maxMaps);
    var t := GroupKills(records, player, maxMaps)[i];
    BucketOf(records, player, maxMaps, t.matchUrl);
  }

  /** A match is returned exactly when it has at least `maxMaps` maps and
      its first `maxMaps` maps have a positive total. */
  lemma GroupKillsIff(records: seq<MapRecord>, player: string, maxMaps: nat, u: string)
    ensures (exists i :: 0 <= i < |GroupKills(records, player, maxMaps)| && GroupKills(records, player, maxMaps)[i].matchUrl == u)
        <==> Kept(records, u, maxMaps)
  {
    var g := Bucketed(records, player, maxMaps);
    var r := GroupKills(records, player, maxMaps);
    BucketedOrder(records, player, maxMaps);
    BucketsKeyed(records, player, maxMaps);
    if Kept(records, u, maxMaps) {
      BucketOf(records, player, maxMaps, u);
      TotalsComplete(g.order, g.buckets, maxMaps, u);
    }
    if exists i :: 0 <= i < |r| && r[i].matchUrl == u {
      var i :| 0 <= i < |r| && r[i].matchUrl == u;
      GroupKillsShape(records, player, maxMaps, i);
    }
  }

  /** No match URL is returned twice, and the returned matches follow the
      order in which their URLs first occur in the records. */
  lemma GroupKillsOrder(records: seq<MapRecord>, player: string, maxMaps: nat)
    ensures forall i, j :: 0 <= i < j < |GroupKills(records, player, maxMaps)| ==>
      var r := GroupKills(records, player, maxMaps);
      r[i].matchUrl in UrlsOf(records) && r[j].matchUrl in UrlsOf(records) &&
      FirstIndex(UrlsOf(records), r[i].matchUrl) < FirstIndex(UrlsOf(records), r[j].matchUrl)
  {
    var g := Bucketed(records, player, maxMaps);
    var r := GroupKills(records, player, maxMaps);
    var s := UrlsOf(records);
    BucketedOrder(records, player, maxMaps);
    BucketsKeyed(records, player, maxMaps);
    DedupNoDuplicates(s);
    TotalsOrdered(g.order, g.buckets, maxMaps);
    forall i, j | 0 <= i < j < |r|
      ensures r[i].matchUrl in s && r[j].matchUrl in s && FirstIndex(s, r[i].matchUrl) < FirstIndex(s, r[j].matchUrl)
    {
      var x, y := r[i].matchUrl, r[j].matchUrl;
      assert x in g.order && y in g.order && FirstIndex(g.order, x) < FirstIndex(g.order, y);
      var a, b := FirstIndex(g.order, x), FirstIndex(g.order, y);
      OrderOfFirstSeen(s, a, b);
      assert Dedup(s)[a] == x && Dedup(s)[b] == y;
    }
  }

  /** Positions in `Dedup(s)` follow first occurrences in `s`. */
  lemma OrderOfFirstSeen(s: seq<string>, a: nat, b: nat)
    requires a < b < |Dedup(s)|
    ensures Dedup(s)[a] in s && Dedup(s)[b] in s && FirstIndex(s, Dedup(s)[a]) < FirstIndex(s, Dedup(s)[b])
  {
    DedupFirstOccurrenceOrder(s);
  }

  // ---------------------------------------------------------------------
  // compute_averages
  // ---------------------------------------------------------------------

  /** `[m['total_kills'] for m in good_matches]`. */
  function KillTotals(ms: seq<MatchTotal>): (r: seq<int>)
    ensures |r| == |ms|
  {
    if ms == [] then [] else KillTotals(ms[..|ms| - 1]) + [ms[|ms| - 1].totalKills]
  }

  function SumInts(xs: seq<int>): int {
    if xs == [] then 0 else SumInts(xs[..|xs| - 1]) + xs[|xs| - 1]
  }

  /** The average over window `w`: absent when fewer than `w` totals are
      given, else the exact mean of the first `w` (the source rounds it to
      two decimals). */
  function Average(kills: seq<int>, w: nat): Option<real>
    requires w > 0
  {
    if |kills| >= w then Some(Mean(SumInts(kills[..w]), w)) else None
  }

  /** `sum / w`, exactly. */
  function Mean(sum: int, w: nat): real
    requires w > 0
  {
    (sum as real) / (w as real)
  }

  method ComputeAverages(goodMatches: seq<MatchTotal>, windows: seq<nat>) returns (averages: map<nat, Option<real>>)
    requires forall j :: 0 <= j < |windows| ==> windows[j] > 0
    ensures forall w :: w in averages <==> w in windows
    ensures forall w :: w in averages ==> w > 0 && averages[w] == Average(KillTotals(goodMatches), w)
  {
    var kills := KillTotals(goodMatches);
    averages := map[];
    for i := 0 to |windows|
      invariant forall w :: w in averages <==> w in windows[..i]
      invariant forall w :: w in averages ==> w > 0 && averages[w] == Average(kills, w)
    {
      var w := windows[i];
      averages := averages[w := if |kills| >= w then Some(Mean(SumInts(kills[..w]), w)) else None];
    }
    assert windows[..|windows|] == windows;
  }

  lemma {:induction false} KillTotalsAt(ms: seq<MatchTotal>, i: nat)
    requires i < |ms|
    ensures KillTotals(ms)[i] == ms[i].totalKills
  {
    if i < |ms| - 1 {
      KillTotalsAt(ms[..|ms| - 1], i);
    }
  }

  lemma {:induction false} SumIntsAtLeast(xs: seq<int>, lo: int)
    requires forall i :: 0 <= i < |xs| ==> lo <= xs[i]
    ensures |xs| * lo <= SumInts(xs)
  {
    if xs != [] {
      SumIntsAtLeast(xs[..|xs| - 1], lo);
    }
  }

  lemma {:induction false} SumIntsAtMost(xs: seq<int>, hi: int)
    requires forall i :: 0 <= i < |xs| ==> xs[i] <= hi
    ensures SumInts(xs) <= |xs| * hi
  {
    if xs != [] {
      SumIntsAtMost(xs[..|xs| - 1], hi);
    }
  }

  /** The mean of `w` values whose sum is at least `w * lo` is at least `lo`. */
  lemma MeanAtLeast(s: int, w: nat, lo: int)
    requires w > 0 && w * lo <= s
    ensures lo as real <= Mean(s, w)
  {
    var m := (s as real) / (w as real);
    assert m * (w as real) == s as real;
    assert (w * lo) as real == (lo as real) * (w as real);
    if m < lo as real {
      assert m * (w as real) < (lo as real) * (w as real);
    }
  }

  lemma MeanAtMost(s: int, w: nat, hi: int)
    requires w > 0 && s <= w * hi
    ensures Mean(s, w) <= hi as real
  {
    var m := (s as real) / (w as real);
    assert m * (w as real) == s as real;
    assert (w * hi) as real == (hi as real) * (w as real);
    if m > hi as real {
      assert m * (w as real) > (hi as real) * (w as real);
    }
  }

  /** The window totals, taken from the matches themselves. */
  lemma {:induction false} WindowTotalsAt(ms: seq<MatchTotal>, w: nat, i: nat)
    requires i < w <= |ms|
    ensures KillTotals(ms)[..w][i] == ms[i].totalKills
  {
    KillTotalsAt(ms, i);
  }

  lemma WindowMeanAtLeast(ms: seq<MatchTotal>, w: nat, lo: int)
    requires 0 < w <= |ms|
    requires forall i :: 0 <= i < w ==> lo <= ms[i].totalKills
    ensures lo as real <= Mean(SumInts(KillTotals(ms)[..w]), w)
  {
    var ks := KillTotals(ms)[..w];
    forall i | 0 <= i < |ks| ensures lo <= ks[i] {
      WindowTotalsAt(ms, w, i);
    }
    SumIntsAtLeast(ks, lo);
    MeanAtLeast(SumInts(ks), w, lo);
  }

  lemma WindowMeanAtMost(ms: seq<MatchTotal>, w: nat, hi: int)
    requires 0 < w <= |ms|
    requires forall i :: 0 <= i < w ==> ms[i].totalKills <= hi
    ensures Mean(SumInts(KillTotals(ms)[..w]), w) <= hi as real
  {
    var ks := KillTotals(ms)[..w];
    forall i | 0 <= i < |ks| ensures ks[i] <= hi {
      WindowTotalsAt(ms, w, i);
    }
    SumIntsAtMost(ks, hi);
    MeanAtMost(SumInts(ks), w, hi);
  }

  /** An average is at least any lower bound of the totals of its window. */
  lemma AverageAtLeast(ms: seq<MatchTotal>, w: nat, lo: int)
    requires 0 < w <= |ms|
    requires forall i :: 0 <= i < w ==> lo <= ms[i].totalKills
    ensures Average(KillTotals(ms), w).Some? && lo as real <= Average(KillTotals(ms), w).value
  {
    WindowMeanAtLeast(ms, w, lo);
  }

  /** An average is at most any upper bound of the totals of its window. */
  lemma AverageAtMost(ms: seq<MatchTotal>, w: nat, hi: int)
    requires 0 < w <= |ms|
    requires forall i :: 0 <= i < w ==> ms[i].totalKills <= hi
    ensures Average(KillTotals(ms), w).Some? && Average(KillTotals(ms), w).value <= hi as real
  {
    WindowMeanAtMost(ms, w, hi);
  }

  /** Every average over the returned matches is at least one kill, since
      each of their totals is positive. */
  lemma AveragesPositive(records: seq<MapRecord>, player: string, maxMaps: nat, w: nat)
    requires 0 < w <= |GroupKills(records, player, maxMaps)|
    ensures Average(KillTotals(GroupKills(records, player, maxMaps)), w).Some?
    ensures Average(KillTotals(GroupKills(records, player, maxMaps)), w).value >= 1.0
  {
    var ms := GroupKills(records, player, maxMaps);
    forall i | 0 <= i < w ensures 1 <= ms[i].totalKills {
      GroupKillsShape(records, player, maxMaps, i);
    }
    AverageAtLeast(ms, w, 1);
  }
}
