/** The items of ai-signal-radar: turning feed entries and search hits into
    `Item`s, and the score ordering of the Hacker News source. */
module RadarItems {
  import opened Options
  import opened Seqs
  import opened Text
  import opened Feed

  /** One digest entry; equality is structural, as for the Python dataclass. */
  datatype Item = Item(
    source: string,
    title: string,
    url: string,
    published: Option<string>,
    score: Option<int>)

  /** A named list of items from one source. */
  datatype Group = Group(name: string, items: seq<Item>)

  const HnSource := "Hacker News (Algolia: llm)"
  const HnItemUrlPrefix := "https://news.ycombinator.com/item?id="

  /** What every fetched item satisfies: a non-empty, clean title and a
      non-empty link. */
  predicate WellFormed(it: Item) {
    it.title != "" && IsClean(it.title) && it.url != ""
  }

  /** `getattr(e, "link", "") or ""`. */
  function EntryLink(e: FeedEntry): string {
    e.link.GetOr("")
  }

  /** `getattr(e, "published", None) or getattr(e, "updated", None)`: an empty
      `published` falls through to `updated`. */
  function EntryDate(e: FeedEntry): (r: Option<string>)
    ensures r == e.published || r == e.updated
    ensures r != e.published ==> e.published.None? || e.published.value == ""
    ensures e.published.None? || e.published.value == "" ==> r == e.updated
  {
    if e.published.Some? && e.published.value != "" then e.published else e.updated
  }

  /** An entry survives normalisation when its cleaned title and its link are
      both non-empty. */
  predicate IsUsableEntry(e: FeedEntry) {
    Clean(e.title) != "" && EntryLink(e) != ""
  }

  /** The item built from one feed entry, if any: the cleaned title, the
      link, the first non-empty date and no score. */
  function EntryItem(e: FeedEntry, source: string): (r: Option<Item>)
    ensures r.Some? <==> IsUsableEntry(e)
    ensures r.Some? ==> WellFormed(r.value) && r.value.source == source && r.value.score.None?
    ensures r.Some? ==> r.value.title == Clean(e.title) && r.value.url == EntryLink(e)
    ensures r.Some? ==> r.value.published == EntryDate(e)
  {
    var title := Clean(e.title);
    var link := EntryLink(e);
    if title != "" && link != "" then Some(Item(source, title, link, EntryDate(e), None))
    else None
  }

  /** The usable entries, in order. */
  function UsableEntries(entries: seq<FeedEntry>): (r: seq<FeedEntry>)
    ensures |r| <= |entries|
    ensures IsSubseq(r, entries)
    ensures forall e <- r :: IsUsableEntry(e)
    decreases |entries|
  {
    if |entries| == 0 then []
    else
      var rest := UsableEntries(entries[1..]);
      assert entries == [entries[0]] + entries[1..];
      if IsUsableEntry(entries[0]) then
        SubseqCons(entries[0], rest, entries[1..]);
        [entries[0]] + rest
      else
        SubseqSkip(entries[0], rest, entries[1..]);
        rest
  }

  /** The usable entries are exactly the usable ones among the input, in
      input order, each as often as it occurs there. */
  lemma {:induction false} UsableEntriesSelects(entries: seq<FeedEntry>)
    ensures IsSubseq(UsableEntries(entries), entries)
    ensures forall e ::
      multiset(UsableEntries(entries))[e] == if IsUsableEntry(e) then multiset(entries)[e] else 0
    decreases |entries|
  {
    if |entries| > 0 {
      var rest := UsableEntries(entries[1..]);
      UsableEntriesSelects(entries[1..]);
      assert entries == [entries[0]] + entries[1..];
      assert multiset(entries) == multiset{entries[0]} + multiset(entries[1..]);
      if IsUsableEntry(entries[0]) {
        assert UsableEntries(entries) == [entries[0]] + rest;
        SubseqCons(entries[0], rest, entries[1..]);
      } else {
        assert UsableEntries(entries) == rest;
        SubseqSkip(entries[0], rest, entries[1..]);
      }
    }
  }

  /** The loop body of `fetch_rss` over a list of entries: one item per
      usable entry, in entry order, and nothing else. */
  function RssItems(entries: seq<FeedEntry>, source: string): (r: seq<Item>)
    ensures |r| == |UsableEntries(entries)|
    ensures forall i :: 0 <= i < |r| ==> EntryItem(UsableEntries(entries)[i], source) == Some(r[i])
    ensures forall it <- r :: WellFormed(it) && it.source == source && it.score.None?
    decreases |entries|
  {
    if |entries| == 0 then []
    else
      var rest := RssItems(entries[1..], source);
      match EntryItem(entries[0], source)
      case Some(it) => [it] + rest
      case None => rest
  }

  /** `fetch_rss` after the download: only the first `limit` entries are
      looked at, and of those only the usable ones give items. */
  function FetchRss(entries: seq<FeedEntry>, source: string, limit: int): (r: seq<Item>)
    ensures |r| <= |Take(entries, limit)|
    ensures 0 <= limit ==> |r| <= limit
    ensures |r| == |UsableEntries(Take(entries, limit))|
    ensures forall i :: 0 <= i < |r| ==>
      EntryItem(UsableEntries(Take(entries, limit))[i], source) == Some(r[i])
    ensures forall it <- r :: WellFormed(it) && it.source == source && it.score.None?
  {
    RssItems(Take(entries, limit), source)
  }

  /** The link of a hit: its `url` when that is non-empty, otherwise the
      item page built from `objectID` (a missing id prints as `None`). */
  function HitLink(h: SearchHit): (r: string)
    ensures r != ""
    ensures h.url.Some? && h.url.value != "" ==> r == h.url.value
    ensures h.url.None? || h.url.value == "" ==>
      r == HnItemUrlPrefix + h.objectId.GetOr("None") && StartsWith(r, HnItemUrlPrefix)
  {
    if h.url.Some? && h.url.value != "" then h.url.value
    else
      var r := HnItemUrlPrefix + h.objectId.GetOr("None");
      assert r[..|HnItemUrlPrefix|] == HnItemUrlPrefix;
      r
  }

  /** A hit survives normalisation when its cleaned title is non-empty (its
      link never is). */
  predicate IsUsableHit(h: SearchHit) {
    Clean(h.title) != ""
  }

  /** The item built from one hit, if any: the cleaned title, the link, the
      creation time and the points. */
  function HitItem(h: SearchHit): (r: Option<Item>)
    ensures r.Some? <==> IsUsableHit(h)
    ensures r.Some? ==> WellFormed(r.value) && r.value.source == HnSource
    ensures r.Some? ==> r.value.title == Clean(h.title) && r.value.url == HitLink(h)
    ensures r.Some? ==> r.value.published == h.createdAt && r.value.score == h.points
  {
    var title := Clean(h.title);
    var link := HitLink(h);
    if title != "" && link != "" then Some(Item(HnSource, title, link, h.createdAt, h.points))
    else None
  }

  /** The usable hits, in order. */
  function UsableHits(hits: seq<SearchHit>): (r: seq<SearchHit>)
    ensures |r| <= |hits|
    ensures forall h <- r :: IsUsableHit(h)
    decreases |hits|
  {
    if |hits| == 0 then []
    else
      var rest := UsableHits(hits[1..]);
      if IsUsableHit(hits[0]) then [hits[0]] + rest else rest
  }

  /** The usable hits are exactly the usable ones among the input, in input
      order, each as often as it occurs there. */
  lemma {:induction false} UsableHitsSelects(hits: seq<SearchHit>)
    ensures IsSubseq(UsableHits(hits), hits)
    ensures forall h ::
      multiset(UsableHits(hits))[h] == if IsUsableHit(h) then multiset(hits)[h] else 0
    decreases |hits|
  {
    if |hits| > 0 {
      var rest := UsableHits(hits[1..]);
      UsableHitsSelects(hits[1..]);
      assert hits == [hits[0]] + hits[1..];
      assert multiset(hits) == multiset{hits[0]} + multiset(hits[1..]);
      if IsUsableHit(hits[0]) {
        assert UsableHits(hits) == [hits[0]] + rest;
        SubseqCons(hits[0], rest, hits[1..]);
      } else {
        assert UsableHits(hits) == rest;
        SubseqSkip(hits[0], rest, hits[1..]);
      }
    }
  }

  /** The loop of `fetch_hn_algolia` before sorting: one item per usable
      hit, in hit order, and nothing else. */
  function HitItems(hits: seq<SearchHit>): (r: seq<Item>)
    ensures |r| == |UsableHits(hits)|
    ensures forall i :: 0 <= i < |r| ==> HitItem(UsableHits(hits)[i]) == Some(r[i])
    ensures forall it <- r :: WellFormed(it) && it.source == HnSource
    decreases |hits|
  {
    if |hits| == 0 then []
    else
      var rest := HitItems(hits[1..]);
      match HitItem(hits[0])
      case Some(it) => [it] + rest
      case None => rest
  }

  /** The sort key `(score is None, -(score or 0))`. */
  function ScoreKey(it: Item): (bool, int) {
    (it.score.None?, -it.score.GetOr(0))
  }

  /** Python's tuple order on sort keys (`False < True`, then the integer). */
  predicate KeyLe(a: (bool, int), b: (bool, int)) {
    (!a.0 && b.0) || (a.0 == b.0 && a.1 <= b.1)
  }

  /** `x` may come before `y` in the sorted list. */
  predicate RanksNoLater(x: Item, y: Item) {
    KeyLe(ScoreKey(x), ScoreKey(y))
  }

  predicate SortedByScore(s: seq<Item>) {
    forall i, j :: 0 <= i < j < |s| ==> RanksNoLater(s[i], s[j])
  }

  /** Insert `x` before the first element that does not rank strictly ahead
      of it. */
  function InsertByScore(x: Item, s: seq<Item>): (r: seq<Item>)
    ensures multiset(r) == multiset(s) + multiset{x}
    decreases |s|
  {
    if |s| == 0 then [x]
    else if RanksNoLater(x, s[0]) then [x] + s
    else
      assert s == [s[0]] + s[1..];
      [s[0]] + InsertByScore(x, s[1..])
  }

  /** `list.sort(key=...)`: a stable sort by `ScoreKey`. */
  function SortByScore(s: seq<Item>): (r: seq<Item>)
    ensures multiset(r) == multiset(s)
    decreases |s|
  {
    if |s| == 0 then []
    else
      assert s == [s[0]] + s[1..];
      InsertByScore(s[0], SortByScore(s[1..]))
  }

  /** An item that ranks no later than every element of a sorted list may
      go in front of it. */
  lemma ConsSorted(h: Item, t: seq<Item>)
    requires SortedByScore(t)
    requires forall y <- t :: RanksNoLater(h, y)
    ensures SortedByScore([h] + t)
  {
    var r := [h] + t;
    forall i, j | 0 <= i < j < |r| ensures RanksNoLater(r[i], r[j]) {
      assert r[j] == t[j - 1];
      if i > 0 {
        assert r[i] == t[i - 1];
      }
    }
  }

  lemma {:induction false} InsertSorted(x: Item, s: seq<Item>)
    requires SortedByScore(s)
    ensures SortedByScore(InsertByScore(x, s))
    decreases |s|
  {
    if |s| > 0 && !RanksNoLater(x, s[0]) {
      var rest := InsertByScore(x, s[1..]);
      InsertSorted(x, s[1..]);
      forall y <- rest ensures RanksNoLater(s[0], y) {
        assert y in multiset(rest);
        if y != x {
          assert y in multiset(s[1..]);
          var k :| 0 <= k < |s[1..]| && s[1..][k] == y;
          assert s[k + 1] == y;
        }
      }
      ConsSorted(s[0], rest);
    } else if |s| > 0 {
      forall y <- s ensures RanksNoLater(x, y) {
        var k :| 0 <= k < |s| && s[k] == y;
        if k > 0 {
          assert RanksNoLater(s[0], s[k]);
        }
      }
      ConsSorted(x, s);
    }
  }

  /** The sort puts items in key order. */
  lemma {:induction false} SortByScoreSorted(s: seq<Item>)
    ensures SortedByScore(SortByScore(s))
    decreases |s|
  {
    if |s| > 0 {
      SortByScoreSorted(s[1..]);
      InsertSorted(s[0], SortByScore(s[1..]));
    }
  }

  /** The items whose score is `sc`, in order. */
  function WithScore(s: seq<Item>, sc: Option<int>): seq<Item>
    decreases |s|
  {
    if |s| == 0 then []
    else if s[0].score == sc then [s[0]] + WithScore(s[1..], sc)
    else WithScore(s[1..], sc)
  }

  lemma {:induction false} InsertWithScore(x: Item, s: seq<Item>, sc: Option<int>)
    ensures WithScore(InsertByScore(x, s), sc)
         == (if x.score == sc then [x] else []) + WithScore(s, sc)
    decreases |s|
  {
    if |s| == 0 {
    } else if RanksNoLater(x, s[0]) {
      var r := [x] + s;
      assert r[1..] == s;
    } else {
      InsertWithScore(x, s[1..], sc);
      var r := [s[0]] + InsertByScore(x, s[1..]);
      assert r[1..] == InsertByScore(x, s[1..]);
      assert s[0].score != x.score;
    }
  }

  /** Stability: among items with equal scores (and among the unscored
      ones), the sort keeps the input order. */
  lemma {:induction false} SortByScoreStable(s: seq<Item>, sc: Option<int>)
    ensures WithScore(SortByScore(s), sc) == WithScore(s, sc)
    decreases |s|
  {
    if |s| > 0 {
      SortByScoreStable(s[1..], sc);
      InsertWithScore(s[0], SortByScore(s[1..]), sc);
    }
  }

  /** Scored items first, by descending score; unscored items last. */
  predicate ScoreOrdered(s: seq<Item>) {
    forall i, j :: 0 <= i < j < |s| && s[j].score.Some? ==>
      s[i].score.Some? && s[i].score.value >= s[j].score.value
  }

  lemma SortedIsScoreOrdered(s: seq<Item>)
    requires SortedByScore(s)
    ensures ScoreOrdered(s)
  {
    forall i, j | 0 <= i < j < |s| && s[j].score.Some?
      ensures s[i].score.Some? && s[i].score.value >= s[j].score.value
    {
      assert RanksNoLater(s[i], s[j]);
    }
  }

  /** The first `limit` items after sorting are in score order and are
      drawn from the input. */
  lemma TopRankedFacts(items: seq<Item>, limit: int)
    ensures var r := Take(SortByScore(items), limit);
      && ScoreOrdered(r) && multiset(r) <= multiset(items)
      && (0 <= limit ==> |r| == Min(limit, |items|))
      && (limit < 0 ==> |r| == Max(0, |items| + limit))
      && (forall it <- r :: it in items)
  {
    assert |SortByScore(items)| == |items| by {
      assert |multiset(SortByScore(items))| == |multiset(items)|;
    }
    var sorted := SortByScore(items);
    var r := Take(sorted, limit);
    SortByScoreSorted(items);
    assert SortedByScore(r) by {
      forall i, j | 0 <= i < j < |r| ensures RanksNoLater(r[i], r[j]) {
        assert r[i] == sorted[i] && r[j] == sorted[j];
      }
    }
    SortedIsScoreOrdered(r);
    TakeIsSubseq(sorted, limit);
    SubseqMultiset(r, sorted);
    forall it <- r ensures it in items {
      assert it in multiset(items);
    }
  }

  /** `fetch_hn_algolia` after the download: normalise every hit, sort by
      score, then keep the first `limit`. */
  function FetchHn(hits: seq<SearchHit>, limit: int): (r: seq<Item>)
    ensures |r| <= |hits|
    ensures 0 <= limit ==> |r| == Min(limit, |HitItems(hits)|)
    ensures limit < 0 ==> |r| == Max(0, |HitItems(hits)| + limit)
    ensures forall it <- r :: WellFormed(it) && it.source == HnSource
    ensures ScoreOrdered(r)
    ensures multiset(r) <= multiset(HitItems(hits))
  {
    var items := HitItems(hits);
    var sorted := SortByScore(items);
    TopRankedFacts(items, limit);
    Take(sorted, limit)
  }

  /** Truncation happens after sorting: every item the limit cuts off ranks
      no earlier than every item it keeps, and the kept items with a given
      score (or with none) are a prefix of those in hit order. */
  lemma FetchHnKeepsTopRanked(hits: seq<SearchHit>, limit: int, sc: Option<int>)
    ensures var sorted := SortByScore(HitItems(hits));
      var r := FetchHn(hits, limit);
      && r == sorted[..|r|]
      && (0 <= limit ==> |r| == Min(limit, |sorted|))
      && (limit < 0 ==> |r| == Max(0, |sorted| + limit))
      && (forall i, j :: 0 <= i < |r| <= j < |sorted| ==> RanksNoLater(sorted[i], sorted[j]))
      && WithScore(sorted, sc) == WithScore(HitItems(hits), sc)
  {
    SortByScoreSorted(HitItems(hits));
    SortByScoreStable(HitItems(hits), sc);
  }
}
