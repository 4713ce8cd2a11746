/** The run of `radar.py`'s `main`: the five sources, the error handling
    around their fetches, the keyword and date options, filtering,
    rendering and the output path. The network is replaced by the outcome
    of each fetch, the clock by the day, and the date parser by a
    parameter. */
module RadarMain {
  import opened Options
  import opened Seqs
  import opened Text
  import opened Dates
  import opened Feed
  import opened RadarItems
  import opened RadarFilter
  import opened RadarRender

  const HfBlogRss: string := "https://huggingface.co/blog/feed.xml"
  const ArxivCsAiRss: string := "https://export.arxiv.org/rss/cs.AI"
  const LocalLlamaRss: string := "https://www.reddit.com/r/LocalLLaMA/.rss"
  const MachineLearningRss: string := "https://www.reddit.com/r/MachineLearning/.rss"

  const HfName: string := "Hugging Face " + Dash + " Blog"
  const ArxivName: string := "arXiv " + Dash + " cs.AI"
  const LocalLlamaName: string := "Reddit " + Dash + " r/LocalLLaMA"
  const MachineLearningName: string := "Reddit " + Dash + " r/MachineLearning"
  const HnName: string := "Hacker News"

  /** The groups carry the five source names in `main`'s order. */
  predicate SourceOrder(groups: seq<Group>) {
    && |groups| == 5
    && groups[0].name == HfName && groups[1].name == ArxivName
    && groups[2].name == LocalLlamaName && groups[3].name == MachineLearningName
    && groups[4].name == HnName
  }

  /** What each of the five fetches produced. */
  datatype Downloads = Downloads(
    huggingFace: Fetch<seq<FeedEntry>>,
    arxiv: Fetch<seq<FeedEntry>>,
    localLlama: Fetch<seq<FeedEntry>>,
    machineLearning: Fetch<seq<FeedEntry>>,
    hackerNews: Fetch<seq<SearchHit>>)

  /** The parsed command line. `None` is an option not given. */
  datatype RunOptions = RunOptions(
    limit: int,
    outDir: string,
    format: string,
    since: Option<string>,
    keywords: Option<string>,
    includeAll: bool)

  /** The file `main` writes and its content. */
  datatype Digest = Digest(path: string, text: string)

  /** Why `main` stops with an exception: `--since` is not a valid ISO date,
      or one of the unguarded fetches failed. */
  datatype Abort =
    | InvalidSince(text: string)
    | FetchAborted(source: string, errorType: string, message: string)

  /** The placeholder item that stands in for a failed Reddit fetch. */
  function FailurePlaceholder(name: string, url: string, errorType: string, message: string): (r: Item)
    ensures r.source == name && r.url == url
    ensures r.published.None? && r.score.None?
    ensures r.title == "(fetch failed: " + errorType + ": " + message + ")"
    ensures StartsWith(r.title, "(fetch failed: ")
  {
    var title := "(fetch failed: " + errorType + ": " + message + ")";
    StartsWithConcat("(fetch failed: ", errorType);
    StartsWithExtend("(fetch failed: " + errorType, "(fetch failed: ", ": ");
    StartsWithExtend("(fetch failed: " + errorType + ": ", "(fetch failed: ", message);
    StartsWithExtend("(fetch failed: " + errorType + ": " + message, "(fetch failed: ", ")");
    Item(name, title, url, None, None)
  }

  /** A Reddit group, whose fetch is wrapped in `try`: the feed's items, or
      exactly one placeholder naming the exception. */
  function GuardedRssGroup(name: string, url: string, fetched: Fetch<seq<FeedEntry>>, limit: int): (r: Group)
    ensures r.name == name
    ensures fetched.Fetched? ==> r.items == FetchRss(fetched.payload, name, limit)
    ensures fetched.Fetched? ==> forall it <- r.items :: WellFormed(it) && it.source == name
    ensures fetched.Fetched? && 0 <= limit ==> |r.items| <= limit
    ensures fetched.FetchFailed? ==>
      r.items == [FailurePlaceholder(name, url, fetched.errorType, fetched.message)]
  {
    match fetched
    case Fetched(entries) => Group(name, FetchRss(entries, name, limit))
    case FetchFailed(t, m) => Group(name, [FailurePlaceholder(name, url, t, m)])
  }

  /** An unguarded feed group: the items `fetch_rss` builds. */
  function RssGroup(name: string, entries: seq<FeedEntry>, limit: int): (r: Group)
    ensures r.name == name
    ensures 0 <= limit ==> |r.items| <= limit
  {
    Group(name, FetchRss(entries, name, limit))
  }

  /** The Hacker News group: the items `fetch_hn_algolia` builds. */
  function HnGroup(hits: seq<SearchHit>, limit: int): (r: Group)
    ensures r.name == HnName
    ensures 0 <= limit ==> |r.items| <= limit
  {
    Group(HnName, FetchHn(hits, limit))
  }

  /** The five groups of `main` when the unguarded fetches succeeded, in
      the order `main` appends them. Only the guarded Reddit groups can
      exceed the limit, by holding their placeholder. */
  function AssembleGroups(hf: seq<FeedEntry>, arxiv: seq<FeedEntry>, localLlama: Fetch<seq<FeedEntry>>,
                          machineLearning: Fetch<seq<FeedEntry>>, hits: seq<SearchHit>, limit: int): (r: seq<Group>)
    ensures |r| == 5
    ensures r[0].name == HfName && r[1].name == ArxivName && r[2].name == LocalLlamaName
    ensures r[3].name == MachineLearningName && r[4].name == HnName
  {
    var g0 := RssGroup(HfName, hf, limit);
    var g1 := RssGroup(ArxivName, arxiv, limit);
    var g2 := GuardedRssGroup(LocalLlamaName, LocalLlamaRss, localLlama, limit);
    var g3 := GuardedRssGroup(MachineLearningName, MachineLearningRss, machineLearning, limit);
    var g4 := HnGroup(hits, limit);
    var r := [g0, g1, g2, g3, g4];
    assert r[0] == g0 && r[1] == g1 && r[2] == g2 && r[3] == g3 && r[4] == g4;
    r
  }

  /** Each of the five groups is what its fetcher builds: the two plain
      feeds, the two guarded Reddit feeds and Hacker News. */
  lemma AssembleGroupsItems(hf: seq<FeedEntry>, arxiv: seq<FeedEntry>, localLlama: Fetch<seq<FeedEntry>>,
                            machineLearning: Fetch<seq<FeedEntry>>, hits: seq<SearchHit>, limit: int)
    ensures var r := AssembleGroups(hf, arxiv, localLlama, machineLearning, hits, limit);
      && r[0].items == FetchRss(hf, HfName, limit)
      && r[1].items == FetchRss(arxiv, ArxivName, limit)
      && r[2] == GuardedRssGroup(LocalLlamaName, LocalLlamaRss, localLlama, limit)
      && r[3] == GuardedRssGroup(MachineLearningName, MachineLearningRss, machineLearning, limit)
      && r[4].items == FetchHn(hits, limit)
      && (0 <= limit ==> |r[0].items| <= limit && |r[1].items| <= limit && |r[4].items| <= limit)
  {
  }

  /** The groups of `main`, or the exception of the first failing unguarded
      fetch (Hugging Face, then arXiv, then Hacker News). */
  function FetchGroups(d: Downloads, limit: int): (r: Result<seq<Group>, Abort>)
    ensures r.Failure? <==> d.huggingFace.FetchFailed? || d.arxiv.FetchFailed? || d.hackerNews.FetchFailed?
    ensures d.huggingFace.FetchFailed? ==>
      r == Failure(FetchAborted(HfName, d.huggingFace.errorType, d.huggingFace.message))
    ensures d.huggingFace.Fetched? && d.arxiv.FetchFailed? ==>
      r == Failure(FetchAborted(ArxivName, d.arxiv.errorType, d.arxiv.message))
    ensures d.huggingFace.Fetched? && d.arxiv.Fetched? && d.hackerNews.FetchFailed? ==>
      r == Failure(FetchAborted(HnName, d.hackerNews.errorType, d.hackerNews.message))
    ensures r.Success? ==> SourceOrder(r.value)
  {
    if d.huggingFace.FetchFailed? then
      Failure(FetchAborted(HfName, d.huggingFace.errorType, d.huggingFace.message))
    else if d.arxiv.FetchFailed? then
      Failure(FetchAborted(ArxivName, d.arxiv.errorType, d.arxiv.message))
    else if d.hackerNews.FetchFailed? then
      Failure(FetchAborted(HnName, d.hackerNews.errorType, d.hackerNews.message))
    else
      Success(AssembleGroups(d.huggingFace.payload, d.arxiv.payload, d.localLlama,
                             d.machineLearning, d.hackerNews.payload, limit))
  }

  /** `--since`: absent or empty means no date floor; otherwise it must be
      an ISO date. */
  function SinceOption(since: Option<string>): (r: Result<Option<CalendarDate>, Abort>)
    ensures (since.None? || since.value == "") ==> r == Success(None)
    ensures since.Some? && since.value != "" ==>
      (r.Success? <==> FromIsoFormat(since.value).Some?)
    ensures r.Success? && r.value.Some? ==> since.Some? && IsoFormat(r.value.value) == since.value
    ensures r.Failure? ==> r.error == InvalidSince(since.value)
  {
    match since
    case None => Success(None)
    case Some(s) =>
      if s == "" then Success(None)
      else match FromIsoFormat(s)
        case None => Failure(InvalidSince(s))
        case Some(d) => FromIsoFormatCanonical(s); Success(Some(d))
  }

  /** One run of `main`: parse the options, fetch, filter every group,
      render in the requested format and pick the output file. */
  function Run(opts: RunOptions, today: CalendarDate, d: Downloads,
               parseDate: string -> Option<CalendarDate>): (r: Result<Digest, Abort>)
    ensures r.Failure? <==>
      || SinceOption(opts.since).Failure?
      || d.huggingFace.FetchFailed? || d.arxiv.FetchFailed? || d.hackerNews.FetchFailed?
    ensures SinceOption(opts.since).Failure? ==> r.Failure? && r.error.InvalidSince?
    ensures r.Success? ==> r.value.path == DigestPath(opts.outDir, today, opts.format)
  {
    match SinceOption(opts.since)
    case Failure(e) => Failure(e)
    case Success(since) =>
      match FetchGroups(d, opts.limit)
      case Failure(e) => Failure(e)
      case Success(groups) =>
        var keywords := ParseKeywords(opts.keywords);
        var filtered := FilterGroups(groups, keywords, opts.includeAll, since, parseDate);
        Success(Digest(DigestPath(opts.outDir, today, opts.format),
                       RenderDigest(today, filtered, opts.format, parseDate)))
  }

  /** The placeholder title always contains `ai` (in `failed`), one of the
      default keywords. */
  lemma PlaceholderMatchesDefaults(name: string, url: string, errorType: string, message: string)
    ensures MatchesKeywords(FailurePlaceholder(name, url, errorType, message).title, DefaultKeywords)
  {
    var title := FailurePlaceholder(name, url, errorType, message).title;
    var low := Lower(title);
    assert title[..15] == "(fetch failed: ";
    assert title[8] == 'a' && title[9] == 'i';
    assert low[8..10] == "ai";
    assert OccursAt(Lower(DefaultKeywords[3]), low, 8);
  }

  /** With the default keywords a failed Reddit fetch is never filtered
      away: its group keeps exactly the placeholder, whatever `--include-all`
      and `--since` say. */
  lemma FailedRedditSurvivesFilter(name: string, url: string, errorType: string, message: string,
                                   includeAll: bool, since: Option<CalendarDate>,
                                   parseDate: string -> Option<CalendarDate>)
    ensures var p := FailurePlaceholder(name, url, errorType, message);
      FilterGroup(Group(name, [p]), DefaultKeywords, includeAll, since, parseDate).items == [p]
  {
    var p := FailurePlaceholder(name, url, errorType, message);
    PlaceholderMatchesDefaults(name, url, errorType, message);
    var byKeyword := FilterByKeywords([p], DefaultKeywords, includeAll);
    assert byKeyword == [p] by {
      if includeAll {
        assert Selected([p], DefaultKeywords, true) == [p];
        assert Selected([p], DefaultKeywords, false) == [];
      } else {
        assert multiset(byKeyword)[p] == 1;
        assert |multiset(byKeyword)| == 1 by {
          forall x ensures multiset(byKeyword)[x] == multiset([p])[x] {}
          assert multiset(byKeyword) == multiset([p]);
        }
        assert |byKeyword| == 1;
      }
    }
    var r := FilterSince(byKeyword, since, parseDate);
    if since.Some? {
      assert p in r;
      SubseqMultiset(r, [p]);
      assert multiset(r) == multiset([p]);
      assert |r| == 1;
    }
  }

  /** The filtered groups a successful run renders. */
  lemma RunUnfold(opts: RunOptions, today: CalendarDate, d: Downloads,
                  parseDate: string -> Option<CalendarDate>)
    returns (groups: seq<Group>, filtered: seq<Group>)
    requires Run(opts, today, d, parseDate).Success?
    ensures FetchGroups(d, opts.limit) == Success(groups)
    ensures filtered == FilterGroups(groups, ParseKeywords(opts.keywords), opts.includeAll,
                                     SinceOption(opts.since).value, parseDate)
    ensures Run(opts, today, d, parseDate).value.text == RenderDigest(today, filtered, opts.format, parseDate)
  {
    groups := FetchGroups(d, opts.limit).value;
    filtered := FilterGroups(groups, ParseKeywords(opts.keywords), opts.includeAll,
                             SinceOption(opts.since).value, parseDate);
  }

  lemma FilteredSourceOrder(groups: seq<Group>, keywords: seq<string>, includeAll: bool,
                            since: Option<CalendarDate>, parseDate: string -> Option<CalendarDate>)
    requires SourceOrder(groups)
    ensures SourceOrder(FilterGroups(groups, keywords, includeAll, since, parseDate))
  {
    var f := FilterGroups(groups, keywords, includeAll, since, parseDate);
    assert forall i :: 0 <= i < 5 ==> f[i].name == groups[i].name;
  }

  lemma SourceHeadings(groups: seq<Group>)
    requires SourceOrder(groups)
    ensures GroupHeadings(groups) == ["## " + HfName, "## " + ArxivName, "## " + LocalLlamaName,
                                      "## " + MachineLearningName, "## " + HnName]
  {
    var hs := GroupHeadings(groups);
    assert hs[0] == "## " + HfName && hs[1] == "## " + ArxivName;
    assert hs[2] == "## " + LocalLlamaName && hs[3] == "## " + MachineLearningName;
    assert hs[4] == "## " + HnName;
  }

  /** Groups in source order give one `## ` heading per source, then the
      follow-ups heading. */
  lemma MarkdownSourceHeadings(day: CalendarDate, groups: seq<Group>, parseDate: string -> Option<CalendarDate>)
    requires SourceOrder(groups)
    ensures Prefixed(MarkdownLines(day, groups, parseDate), "## ")
         == ["## " + HfName, "## " + ArxivName, "## " + LocalLlamaName,
             "## " + MachineLearningName, "## " + HnName, MdFollowUpsHeading]
  {
    MarkdownStructure(day, groups, parseDate);
    SourceHeadings(groups);
  }

  /** A markdown digest has, line by line, one `## ` heading per source in
      the fixed source order, then the follow-ups heading, and no other
      `## ` line, whatever was fetched and filtered. */
  lemma RunMarkdownSections(opts: RunOptions, today: CalendarDate, d: Downloads,
                            parseDate: string -> Option<CalendarDate>)
    requires Run(opts, today, d, parseDate).Success?
    requires !IsCompactFormat(opts.format)
    ensures exists lines ::
      && Run(opts, today, d, parseDate).value.text == Join(lines, "\n")
      && Prefixed(lines, "## ") == ["## " + HfName, "## " + ArxivName, "## " + LocalLlamaName,
                                    "## " + MachineLearningName, "## " + HnName, MdFollowUpsHeading]
  {
    var groups, filtered := RunUnfold(opts, today, d, parseDate);
    FilteredSourceOrder(groups, ParseKeywords(opts.keywords), opts.includeAll,
                        SinceOption(opts.since).value, parseDate);
    MarkdownSourceHeadings(today, filtered, parseDate);
    assert RenderDigest(today, filtered, opts.format, parseDate) == Join(MarkdownLines(today, filtered, parseDate), "\n");
  }

  /** A failed r/LocalLLaMA fetch does not stop the run, and with the
      default keywords the markdown digest shows its placeholder line. */
  lemma RunReportsRedditFailure(opts: RunOptions, today: CalendarDate, d: Downloads,
                                parseDate: string -> Option<CalendarDate>)
    requires Run(opts, today, d, parseDate).Success?
    requires !IsCompactFormat(opts.format)
    requires opts.keywords.None? || opts.keywords == Some("")
    requires d.localLlama.FetchFailed?
    ensures var p := FailurePlaceholder(LocalLlamaName, LocalLlamaRss, d.localLlama.errorType, d.localLlama.message);
      exists lines ::
        && Run(opts, today, d, parseDate).value.text == Join(lines, "\n")
        && MdItemLine(p, parseDate) in lines
  {
    var p := FailurePlaceholder(LocalLlamaName, LocalLlamaRss, d.localLlama.errorType, d.localLlama.message);
    var groups, filtered := RunUnfold(opts, today, d, parseDate);
    var since := SinceOption(opts.since).value;
    assert ParseKeywords(opts.keywords) == DefaultKeywords;
    assert groups[2] == Group(LocalLlamaName, [p]);
    FailedRedditSurvivesFilter(LocalLlamaName, LocalLlamaRss, d.localLlama.errorType, d.localLlama.message,
                               opts.includeAll, since, parseDate);
    assert filtered[2].items == [p];
    MdGroupsLinesHaveItems(filtered, 2, 0, parseDate);
    var lines := MarkdownLines(today, filtered, parseDate);
    assert MdItemLine(p, parseDate) in lines;
    assert Run(opts, today, d, parseDate).value.text == Join(lines, "\n");
  }
}
