/**
  The Underdog pick'em slate as `get_slate` (app.py) reads it: the items
  whose over/under title names a "Kills on Maps 1+2" line, each with the
  player name cut out of the title, the line and the two prices.
*/
module Slate {
  import opened Wrappers
  import opened Seqs
  import opened Text

  /** What a kills line's title contains. */
  const MARKER: string := "Kills on Maps 1+2 O/U"
  /** What is cut out of the title to leave the player name. */
  const SUFFIX: string := " Kills on Maps 1+2 O/U"
  const NA: string := "N/A"

  /** `item["over_under"]`, with its "title" (None when missing or null). An
      empty dict is `OverUnder(None)`. */
  datatype OverUnder = OverUnder(title: Option<string>)

  /** One entry of `item["options"]`, with its "american_price" when present. */
  datatype Choice = Choice(americanPrice: Option<string>)

  /** A slate item: "over_under" (None when missing or null), "stat_value"
      and "options" (empty when missing). */
  datatype SlateItem = SlateItem(overUnder: Option<OverUnder>, statValue: Option<string>, options: seq<Choice>)

  /** One entry of `player_info`. */
  datatype PlayerEntry = PlayerEntry(player: string, line: Option<string>, oddsOver: string, oddsUnder: string)

  /** The title of an item that has a non-empty one. */
  function TitleOf(item: SlateItem): Option<string> {
    match item.overUnder
    case None => None
    case Some(ou) =>
      match ou.title
      case None => None
      case Some(t) => if t == "" then None else Some(t)
  }

  /** `title.replace(" Kills on Maps 1+2 O/U", "").strip()`. */
  function PlayerName(title: string): string {
    Strip(ReplaceAll(title, SUFFIX, ""))
  }

  /** `options[k].get("american_price", "N/A")` when there are more than `k`
      options, else "N/A". */
  function PriceAt(options: seq<Choice>, k: nat): string {
    if |options| > k then options[k].americanPrice.GetOr(NA) else NA
  }

  /** The entry one item contributes, if any. */
  function EntryOf(item: SlateItem): Option<PlayerEntry> {
    match TitleOf(item)
    case None => None
    case Some(t) =>
      if Contains(t, MARKER)
      then Some(PlayerEntry(PlayerName(t), item.statValue, PriceAt(item.options, 0), PriceAt(item.options, 1)))
      else None
  }

  /** `player_info` after the loop over the slate. */
  function SlateEntries(items: seq<SlateItem>): seq<PlayerEntry> {
    FilterMap(EntryOf, items)
  }

  /** The loop of `get_slate` over the slate items. */
  method ParseSlate(items: seq<SlateItem>) returns (info: seq<PlayerEntry>)
    ensures info == SlateEntries(items)
  {
    info := [];
    for i := 0 to |items|
      invariant info == FilterMap(EntryOf, items[..i])
    {
      assert items[..i + 1][..i] == items[..i];
      var item := items[i];
      assert FilterMap(EntryOf, items[..i + 1]) == info + (if EntryOf(item).Some? then [EntryOf(item).value] else []);
      if item.overUnder.None? || item.overUnder.value.title.None? || item.overUnder.value.title.value == "" {
        continue;
      }
      var title := item.overUnder.value.title.value;
      if Contains(title, MARKER) {
        var player := Strip(ReplaceAll(title, SUFFIX, ""));
        var oddsOver := if |item.options| >= 1 then item.options[0].americanPrice.GetOr(NA) else NA;
        var oddsUnder := if |item.options| >= 2 then item.options[1].americanPrice.GetOr(NA) else NA;
        info := info + [PlayerEntry(player, item.statValue, oddsOver, oddsUnder)];
      }
    }
    assert items[..|items|] == items;
  }

  // ---------------------------------------------------------------------
  // Properties
  // ---------------------------------------------------------------------

  /** An item is kept exactly when it has an over/under with a non-empty
      title containing the marker; its entry carries the item's line, and a
      price is "N/A" when there are too few options. */
  lemma EntryOfIff(item: SlateItem)
    ensures EntryOf(item).Some? <==>
      item.overUnder.Some? && item.overUnder.value.title.Some? && item.overUnder.value.title.value != "" &&
      Contains(item.overUnder.value.title.value, MARKER)
    ensures EntryOf(item).Some? ==>
      EntryOf(item).value.player == PlayerName(item.overUnder.value.title.value) &&
      EntryOf(item).value.line == item.statValue
    ensures EntryOf(item).Some? && |item.options| < 1 ==> EntryOf(item).value.oddsOver == NA
    ensures EntryOf(item).Some? && |item.options| < 2 ==> EntryOf(item).value.oddsUnder == NA
    ensures EntryOf(item).Some? && |item.options| >= 2 && item.options[1].americanPrice.Some? ==>
      EntryOf(item).value.oddsUnder == item.options[1].americanPrice.value
  {
  }

  /** The entries of a concatenation are the entries of its parts, in order. */
  lemma SlateEntriesConcat(a: seq<SlateItem>, b: seq<SlateItem>)
    ensures SlateEntries(a + b) == SlateEntries(a) + SlateEntries(b)
  {
    FilterMapConcat(EntryOf, a, b);
  }

  /** Every entry comes from an item of the slate. */
  lemma SlateEntrySource(items: seq<SlateItem>, e: PlayerEntry) returns (k: nat)
    requires e in SlateEntries(items)
    ensures k < |items| && EntryOf(items[k]) == Some(e)
  {
    k := FilterMapSource(EntryOf, items, e);
  }

  /** Every kept item gives its entry, after the entries of the items before
      it and before those of the items after it: the slate is read as a
      filter that keeps input order. */
  lemma SlateEntryKept(items: seq<SlateItem>, k: nat)
    requires k < |items| && EntryOf(items[k]).Some?
    ensures SlateEntries(items) == SlateEntries(items[..k]) + [EntryOf(items[k]).value] + SlateEntries(items[k + 1..])
  {
    FilterMapKept(EntryOf, items, k);
  }

  /** A title made of a name and the suffix, where the suffix does not occur
      earlier, is kept and yields the stripped name. */
  lemma TitleOfName(name: string, item: SlateItem)
    requires item.overUnder == Some(OverUnder(Some(name + SUFFIX)))
    requires NoOccurrenceBefore(name + SUFFIX, SUFFIX, |name|)
    ensures EntryOf(item).Some? && EntryOf(item).value.player == Strip(name)
  {
    var t := name + SUFFIX;
    assert t[|name| + 1..] == MARKER;
    ContainsWitness(t, MARKER, |name| + 1);
    RemoveSuffix(name, SUFFIX);
  }
}
