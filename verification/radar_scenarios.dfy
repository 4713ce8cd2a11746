/** Two concrete runs of the radar pipeline: keyword and date filtering of
    two items, and the Hacker News ordering of three hits. */
module RadarScenarios {
  import opened Options
  import opened Seqs
  import opened Text
  import opened Dates
  import opened Feed
  import opened RadarItems
  import opened RadarFilter
  import opened RadarMain

  /** A needle with a character the text lacks does not occur in it. */
  lemma MissingChar(hay: string, needle: string, c: char)
    requires c in needle && c !in hay
    ensures !Contains(hay, needle)
  {
  }

  const AgentNews := Item("feed", "New LLM " + "agent" + " framework released", "http://a", Some("2024-01-10"), None)
  const WeatherNews := Item("feed", "Weather today", "http://b", Some("2024-01-09"), None)
  const ScenarioKeywords: seq<string> := ["agent", "llm"]

  lemma AgentNewsMatches()
    ensures MatchesKeywords(AgentNews.title, ScenarioKeywords)
  {
    var low := Lower(AgentNews.title);
    assert AgentNews.title[8..13] == "agent";
    assert Lower("agent") == "agent";
    assert low[8..13] == "agent";
    assert OccursAt(Lower(ScenarioKeywords[0]), low, 8);
  }

  lemma WeatherNewsDoesNotMatch()
    ensures !MatchesKeywords(WeatherNews.title, ScenarioKeywords)
  {
    var low := Lower(WeatherNews.title);
    assert Lower("agent") == "agent" && Lower("llm") == "llm";
    assert forall i :: 0 <= i < |low| ==> low[i] != 'g' && low[i] != 'l';
    MissingChar(low, Lower(ScenarioKeywords[0]), 'g');
    MissingChar(low, Lower(ScenarioKeywords[1]), 'l');
  }

  lemma KeywordStep(items: seq<Item>, keywords: seq<string>)
    requires items == [AgentNews, WeatherNews] && keywords == ScenarioKeywords
    ensures FilterByKeywords(items, keywords, false) == [AgentNews]
  {
    AgentNewsMatches();
    WeatherNewsDoesNotMatch();
    assert items[1..] == [WeatherNews] && [WeatherNews][1..] == [];
    assert Selected([WeatherNews], keywords, true) == [];
    assert Selected(items, keywords, true) == [AgentNews];
  }

  lemma SinceStep(items: seq<Item>, since: CalendarDate, parseDate: string -> Option<CalendarDate>)
    requires items == [AgentNews]
    requires KeptSince(AgentNews, since, parseDate)
    ensures FilterSince(items, Some(since), parseDate) == [AgentNews]
  {
    var r := FilterSince(items, Some(since), parseDate);
    assert multiset(r)[AgentNews] == 1;
    assert multiset(r) == multiset([AgentNews]) by {
      forall x ensures multiset(r)[x] == multiset([AgentNews])[x] {
        if x != AgentNews {
          assert multiset([AgentNews])[x] == 0;
        }
      }
    }
    assert |r| == 1;
    assert r[0] in multiset(r);
  }

  /** The filtering example: keywords `agent, llm` and `--since 2024-01-01`
      keep exactly the agent item, because the weather item matches no
      keyword and the agent item is dated 2024-01-10. Stated for every floor
      up to that date and every date parser that reads `2024-01-10`
      correctly. */
  lemma KeywordAndSinceScenario(since: CalendarDate, parseDate: string -> Option<CalendarDate>)
    requires OnOrAfter(Date(2024, 1, 10), since)
    requires parseDate(AgentNews.published.value) == Some(Date(2024, 1, 10))
    ensures FilterSince(FilterByKeywords([AgentNews, WeatherNews], ScenarioKeywords, false),
                        Some(since), parseDate) == [AgentNews]
  {
    var items := [AgentNews, WeatherNews];
    KeywordStep(items, ScenarioKeywords);
    SinceStep(FilterByKeywords(items, ScenarioKeywords, false), since, parseDate);
  }

  /** `--since 2024-01-01` is read as that date, which is such a floor. */
  lemma ScenarioFloor()
    ensures SinceOption(Some("2024-01-01")) == Success(Some(Date(2024, 1, 1)))
    ensures OnOrAfter(Date(2024, 1, 10), Date(2024, 1, 1))
  {
    var d: CalendarDate := Date(2024, 1, 1);
    IsoFormatRoundTrip(d);
    assert IsoFormat(d) == "2024-01-01";
  }

  /** A hit with a title and points but no `url`, `objectID` or date. */
  function TitledHit(title: string, points: Option<int>): SearchHit {
    SearchHit(Some(title), None, None, points, None)
  }

  /** The item such a hit becomes: its link is the item page of id `None`. */
  function HitResult(title: string, points: Option<int>): Item {
    Item(HnSource, title, HnItemUrlPrefix + "None", None, points)
  }

  /** When every hit is usable, none is dropped. */
  lemma {:induction false} UsableHitsAll(hits: seq<SearchHit>)
    requires forall h <- hits :: IsUsableHit(h)
    ensures UsableHits(hits) == hits
    decreases |hits|
  {
    if |hits| > 0 {
      UsableHitsAll(hits[1..]);
      assert hits == [hits[0]] + hits[1..];
    }
  }

  /** Hits whose titles are already clean and non-empty each give exactly
      one item, in hit order. */
  lemma HitItemsOfClean(hits: seq<SearchHit>)
    requires forall h <- hits :: h.title.Some? && h.title.value != "" && IsClean(h.title.value)
    ensures |HitItems(hits)| == |hits|
    ensures forall i :: 0 <= i < |hits| ==>
      HitItems(hits)[i] == Item(HnSource, hits[i].title.value, HitLink(hits[i]), hits[i].createdAt, hits[i].points)
  {
    forall h <- hits ensures IsUsableHit(h) {
      CleanFixedPoint(h.title.value);
    }
    UsableHitsAll(hits);
    forall i | 0 <= i < |hits|
      ensures HitItems(hits)[i] == Item(HnSource, hits[i].title.value, HitLink(hits[i]), hits[i].createdAt, hits[i].points)
    {
      CleanFixedPoint(hits[i].title.value);
    }
  }

  /** Sorting three items whose first is outscored by the second and whose
      third has no score. */
  lemma SortStep(s: seq<Item>)
    requires |s| == 3 && s[0].score.Some? && s[1].score.Some? && s[2].score.None?
    requires s[0].score.value < s[1].score.value
    ensures SortByScore(s) == [s[1], s[0], s[2]]
  {
    var x, y, z := s[0], s[1], s[2];
    assert s[1..] == [y, z] && [y, z][1..] == [z] && [z][1..] == [];
    assert SortByScore([z]) == [z];
    assert SortByScore([y, z]) == [y, z];
    assert InsertByScore(x, [y, z]) == [y] + InsertByScore(x, [z]);
  }

  lemma TakeAll<T>(s: seq<T>, n: int)
    requires |s| <= n
    ensures Take(s, n) == s
  {
  }

  /** The ordering example: hits X (5 points), Y (20 points) and Z (no
      points) come out as Y, X, Z. Stated for any clean titles and any two
      scores, the lower one first: the higher score leads and the unscored
      hit is last. */
  lemma HackerNewsScenario(tx: string, ty: string, tz: string, p: int, q: int, limit: int)
    requires tx != "" && IsClean(tx) && ty != "" && IsClean(ty) && tz != "" && IsClean(tz)
    requires p < q && 3 <= limit
    ensures FetchHn([TitledHit(tx, Some(p)), TitledHit(ty, Some(q)), TitledHit(tz, None)], limit)
      == [HitResult(ty, Some(q)), HitResult(tx, Some(p)), HitResult(tz, None)]
  {
    var hits := [TitledHit(tx, Some(p)), TitledHit(ty, Some(q)), TitledHit(tz, None)];
    HitItemsOfClean(hits);
    var items := HitItems(hits);
    assert items[0] == HitResult(tx, Some(p));
    assert items[1] == HitResult(ty, Some(q));
    assert items[2] == HitResult(tz, None);
    SortStep(items);
    TakeAll(SortByScore(items), limit);
  }
}
