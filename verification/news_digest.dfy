/** `ai-news-digest/digest.py`: three feeds, the first few entries of each
    cleaned, and a markdown page with a fixed block of build ideas. The
    clock is the `now` parameter and each fetch is the outcome of a
    function of the source. */
module NewsDigest {
  import opened Options
  import opened Seqs
  import opened Text
  import opened Dates
  import opened Feed

  /** A feed and how many of its entries the digest shows. */
  datatype Source = Source(name: string, url: string, limit: int)

  const Sources: seq<Source> := [
    Source("Hugging Face Blog", "https://huggingface.co/blog/feed.xml", 8),
    Source("arXiv cs.AI", "https://export.arxiv.org/rss/cs.AI", 12),
    Source("Hacker News Frontpage", "https://hnrss.org/frontpage", 12)]

  /** The dictionary `pick_items` builds for one entry. */
  datatype DigestItem = DigestItem(title: string, link: string, published: string)

  /** A heading and its items. */
  datatype Section = Section(name: string, items: seq<DigestItem>)

  /** One entry with every field cleaned; a missing attribute becomes `""`. */
  function PickItem(e: FeedEntry): (r: DigestItem)
    ensures IsClean(r.title) && IsClean(r.link) && IsClean(r.published)
    ensures Visible(r.title) == Visible(e.title.GetOr(""))
    ensures e.published.None? ==> r.published == ""
  {
    DigestItem(Clean(e.title), Clean(e.link), Clean(e.published))
  }

  /** `pick_items`: one item for each of the first `limit` entries, in
      order; unlike the radar, nothing is dropped. */
  function PickItems(entries: seq<FeedEntry>, limit: int): (r: seq<DigestItem>)
    ensures |r| == |Take(entries, limit)|
    ensures 0 <= limit ==> |r| == Min(limit, |entries|)
    ensures forall i :: 0 <= i < |r| ==>
      && r[i].title == Clean(entries[i].title)
      && r[i].link == Clean(entries[i].link)
      && r[i].published == Clean(entries[i].published)
  {
    var kept := Take(entries, limit);
    seq(|kept|, i requires 0 <= i < |kept| => PickItem(kept[i]))
  }

  /** The entry an item would come from if it were fed back in. */
  function AsEntry(it: DigestItem): FeedEntry {
    FeedEntry(Some(it.title), Some(it.link), Some(it.published), None)
  }

  /** Picking is idempotent: feeding the picked items back in, with any
      limit that keeps them all, gives the same items. */
  lemma PickItemsIdempotent(entries: seq<FeedEntry>, limit: int, again: int)
    requires |PickItems(entries, limit)| <= again
    ensures var picked := PickItems(entries, limit);
      PickItems(seq(|picked|, i requires 0 <= i < |picked| => AsEntry(picked[i])), again) == picked
  {
    var picked := PickItems(entries, limit);
    var back := seq(|picked|, i requires 0 <= i < |picked| => AsEntry(picked[i]));
    var r := PickItems(back, again);
    forall i | 0 <= i < |picked| ensures r[i] == picked[i] {
      CleanIdempotent(entries[i].title);
      CleanIdempotent(entries[i].link);
      CleanIdempotent(entries[i].published);
    }
  }

  /** The heading of a section, including the error suffix of a failed
      fetch. */
  function SectionName(src: Source, fetched: Fetch<seq<FeedEntry>>): string {
    match fetched
    case Fetched(_) => src.name
    case FetchFailed(t, _) => src.name + " (error: " + t + ")"
  }

  /** The body of `main`'s loop for one source: its entries, or an empty
      section whose name carries the exception class. */
  function SourceSection(src: Source, fetched: Fetch<seq<FeedEntry>>): (r: Section)
    ensures r.name == SectionName(src, fetched)
    ensures fetched.FetchFailed? ==> r.items == []
    ensures fetched.Fetched? ==> r.items == PickItems(fetched.payload, src.limit)
  {
    match fetched
    case Fetched(entries) => Section(src.name, PickItems(entries, src.limit))
    case FetchFailed(_, _) => Section(SectionName(src, fetched), [])
  }

  /** The loop of `main`: one section per source, in source order. A failed
      fetch gives an empty section whose name carries the exception class;
      the other sources are unaffected. */
  function AssembleSections(sources: seq<Source>, fetch: Source -> Fetch<seq<FeedEntry>>): (r: seq<Section>)
    ensures |r| == |sources|
    ensures forall i :: 0 <= i < |r| ==> r[i].name == SectionName(sources[i], fetch(sources[i]))
    ensures forall i :: 0 <= i < |r| && fetch(sources[i]).FetchFailed? ==> r[i].items == []
    ensures forall i :: 0 <= i < |r| && fetch(sources[i]).Fetched? ==>
      r[i].items == PickItems(fetch(sources[i]).payload, sources[i].limit)
  {
    seq(|sources|, i requires 0 <= i < |sources| => SourceSection(sources[i], fetch(sources[i])))
  }

  // ---------------------------------------------------------------- markdown

  const EmptySectionLine: string := "- (no items parsed)"
  const IdeasHeading: string := "## " + "3 build ideas (actionable)"
  // The long literals are written as a short head plus the rest, which lets
  // the verifier see their first characters.
  const Ideas: seq<string> := [
    "1. " + "**Local eval harness for tool-using agents**: wrap a few common tasks (web snapshot, file edit, shell cmd) and score success/failure; store JSONL results.",
    "2. " + "**RSS\U{2192}Discord \U{2018}no-spam\U{2019} notifier**: track seen GUIDs, only post when keyword match + threshold (e.g., \U{2018}agents\U{2019}, \U{2018}kernels\U{2019}, \U{2018}eval\U{2019}).",
    "3. " + "**Paper-to-code starter**: given an arXiv link, auto-create a project folder with README, citation, and TODO checklist (repro, datasets, baselines)."]

  /** The closing block: the ideas heading, the three ideas and a blank
      line. */
  const IdeasBlock: seq<string> := [IdeasHeading] + Ideas + [""]

  function Header(now: UtcInstant): string {
    "# AI News Digest (" + TimestampText(now) + ")"
  }

  /** One item: `- [title](link)`, followed by an em dash and the date only
      when the date is non-empty. */
  function ItemLine(it: DigestItem): (r: string)
    ensures StartsWith(r, "- [" + it.title + "](" + it.link + ")")
    ensures it.published == "" <==> r == "- [" + it.title + "](" + it.link + ")"
    ensures it.published != "" ==>
      var n := |"- [" + it.title + "](" + it.link + ")"|;
      |r| == n + 3 + |it.published| && r[n..n + 3] == " \U{2014} " && r[n + 3..] == it.published
  {
    var link := "- [" + it.title + "](" + it.link + ")";
    StartsWithConcat(link, "");
    assert link + "" == link;
    if it.published == "" then link
    else
      var r := link + " \U{2014} " + it.published;
      StartsWithConcat(link, " \U{2014} " + it.published);
      assert r == link + (" \U{2014} " + it.published);
      r
  }

  function ItemLines(items: seq<DigestItem>): (r: seq<string>)
    ensures |r| == |items|
    ensures forall j :: 0 <= j < |items| ==> r[j] == ItemLine(items[j])
    decreases |items|
  {
    if |items| == 0 then [] else [ItemLine(items[0])] + ItemLines(items[1..])
  }

  function SectionLines(s: Section): seq<string> {
    ["## " + s.name] + (if |s.items| == 0 then [EmptySectionLine, ""] else ItemLines(s.items) + [""])
  }

  function SectionsLines(sections: seq<Section>): seq<string>
    decreases |sections|
  {
    if |sections| == 0 then [] else SectionLines(sections[0]) + SectionsLines(sections[1..])
  }

  function DigestLines(sections: seq<Section>, now: UtcInstant): seq<string> {
    [Header(now), ""] + SectionsLines(sections) + IdeasBlock
  }

  /** `render_markdown`, with the current UTC time as a parameter. */
  function RenderMarkdown(sections: seq<Section>, now: UtcInstant): string {
    Join(DigestLines(sections, now), "\n")
  }

  function Headings(sections: seq<Section>): (r: seq<string>)
    ensures |r| == |sections|
    ensures forall i :: 0 <= i < |sections| ==> r[i] == "## " + sections[i].name
    decreases |sections|
  {
    if |sections| == 0 then [] else ["## " + sections[0].name] + Headings(sections[1..])
  }

  function ItemCount(sections: seq<Section>): nat
    decreases |sections|
  {
    if |sections| == 0 then 0 else |sections[0].items| + ItemCount(sections[1..])
  }

  function EmptyCount(sections: seq<Section>): nat
    decreases |sections|
  {
    if |sections| == 0 then 0 else (if |sections[0].items| == 0 then 1 else 0) + EmptyCount(sections[1..])
  }

  lemma ItemLineStart(it: DigestItem)
    ensures StartsWith(ItemLine(it), "- [")
    ensures !StartsWith(ItemLine(it), "## ") && !StartsWith(ItemLine(it), EmptySectionLine)
  {
    var l := ItemLine(it);
    var link := "- [" + it.title + "](" + it.link + ")";
    assert link[..3] == "- [";
    StartsWithTrans(l, link, "- [");
    assert l[0] == '-' && l[2] == '[';
    StartsDiffer(l, "## ", 0);
    StartsDiffer(l, EmptySectionLine, 2);
  }

  lemma {:induction false} ItemLinesPrefixed(items: seq<DigestItem>, p: string)
    requires p == "## " || p == "- [" || p == EmptySectionLine
    ensures Prefixed(ItemLines(items), p) == if p == "- [" then ItemLines(items) else []
    decreases |items|
  {
    if |items| > 0 {
      ItemLineStart(items[0]);
      ItemLinesPrefixed(items[1..], p);
    }
  }

  lemma SectionPrefixed(s: Section, p: string)
    requires p == "## " || p == "- [" || p == EmptySectionLine
    ensures p == "## " ==> Prefixed(SectionLines(s), p) == ["## " + s.name]
    ensures p == "- [" ==> |Prefixed(SectionLines(s), p)| == |s.items|
    ensures p == EmptySectionLine ==> |Prefixed(SectionLines(s), p)| == if |s.items| == 0 then 1 else 0
  {
    var head := "## " + s.name;
    StartsWithConcat("## ", s.name);
    StartsDiffer(head, "- [", 0);
    StartsDiffer(head, EmptySectionLine, 0);
    assert !StartsWith("", p);
    var body := if |s.items| == 0 then [EmptySectionLine, ""] else ItemLines(s.items) + [""];
    PrefixedAppend([head], body, p);
    if |s.items| == 0 {
      assert body == [EmptySectionLine] + [""];
      PrefixedAppend([EmptySectionLine], [""], p);
      StartsWithConcat(EmptySectionLine, "");
      assert EmptySectionLine + "" == EmptySectionLine;
      StartsDiffer(EmptySectionLine, "## ", 0);
      StartsDiffer(EmptySectionLine, "- [", 2);
    } else {
      ItemLinesPrefixed(s.items, p);
      PrefixedAppend(ItemLines(s.items), [""], p);
    }
  }

  lemma {:induction false} SectionsPrefixed(sections: seq<Section>, p: string)
    requires p == "## " || p == "- [" || p == EmptySectionLine
    ensures p == "## " ==> Prefixed(SectionsLines(sections), p) == Headings(sections)
    ensures p == "- [" ==> |Prefixed(SectionsLines(sections), p)| == ItemCount(sections)
    ensures p == EmptySectionLine ==> |Prefixed(SectionsLines(sections), p)| == EmptyCount(sections)
    decreases |sections|
  {
    if |sections| > 0 {
      SectionPrefixed(sections[0], p);
      SectionsPrefixed(sections[1..], p);
      PrefixedAppend(SectionLines(sections[0]), SectionsLines(sections[1..]), p);
    }
  }

  lemma HeaderPrefixed(now: UtcInstant, p: string)
    requires p == "## " || p == "- [" || p == EmptySectionLine
    ensures Prefixed([Header(now), ""], p) == []
  {
    var h := Header(now);
    assert h[0] == '#' && h[1] == ' ';
    if p == "## " {
      StartsDiffer(h, p, 1);
    } else {
      StartsDiffer(h, p, 0);
    }
    PrefixedNone([h, ""], p);
  }

  lemma IdeasPrefixed(p: string)
    requires p == "## " || p == "- [" || p == EmptySectionLine
    ensures Prefixed(IdeasBlock, p) == if p == "## " then [IdeasHeading] else []
  {
    var rest := Ideas + [""];
    forall k | 0 <= k < |rest|
      ensures !StartsWith(rest[k], p)
    {
      if k < 3 {
        assert rest[k][0] != '#' && rest[k][0] != '-';
        StartsDiffer(rest[k], p, 0);
      }
    }
    PrefixedNone(rest, p);
    assert IdeasBlock == [IdeasHeading] + rest;
    PrefixedAppend([IdeasHeading], rest, p);
    if p == "## " {
      StartsWithConcat("## ", "3 build ideas (actionable)");
    } else {
      StartsDiffer(IdeasHeading, p, 0);
    }
  }

  /** The lines of the digest that start with one of the markers come from
      the sections or from the ideas block, never from the title lines. */
  lemma DigestPrefixed(sections: seq<Section>, now: UtcInstant, p: string)
    requires p == "## " || p == "- [" || p == EmptySectionLine
    ensures Prefixed(DigestLines(sections, now), p)
         == Prefixed(SectionsLines(sections), p) + Prefixed(IdeasBlock, p)
  {
    var head := [Header(now), ""];
    var body := SectionsLines(sections);
    assert DigestLines(sections, now) == head + body + IdeasBlock;
    HeaderPrefixed(now, p);
    PrefixedAppend(head + body, IdeasBlock, p);
    PrefixedAppend(head, body, p);
  }

  /** Reading the digest back line by line: the `## ` lines are one heading
      per section, in order, then the ideas heading; there is one `- [` line
      per item; and exactly the empty sections carry the no-items line. */
  lemma DigestStructure(sections: seq<Section>, now: UtcInstant)
    ensures Prefixed(DigestLines(sections, now), "## ") == Headings(sections) + [IdeasHeading]
    ensures |Prefixed(DigestLines(sections, now), "- [")| == ItemCount(sections)
    ensures |Prefixed(DigestLines(sections, now), EmptySectionLine)| == EmptyCount(sections)
  {
    DigestPrefixed(sections, now, "## ");
    SectionsPrefixed(sections, "## ");
    IdeasPrefixed("## ");
    DigestPrefixed(sections, now, "- [");
    SectionsPrefixed(sections, "- [");
    IdeasPrefixed("- [");
    DigestPrefixed(sections, now, EmptySectionLine);
    SectionsPrefixed(sections, EmptySectionLine);
    IdeasPrefixed(EmptySectionLine);
  }

  /** The digest opens with the timestamped title and closes with the ideas
      block and a final empty line. */
  lemma DigestFrame(sections: seq<Section>, now: UtcInstant)
    ensures var text := RenderMarkdown(sections, now);
      && StartsWith(text, Header(now))
      && |Join(IdeasBlock, "\n")| < |text|
      && text[|text| - |Join(IdeasBlock, "\n")|..] == Join(IdeasBlock, "\n")
  {
    var lines := DigestLines(sections, now);
    var front := [Header(now), ""] + SectionsLines(sections);
    assert lines == front + IdeasBlock;
    assert lines[0] == Header(now);
    JoinStartsWithFirst(lines, "\n");
    JoinAppend(front, IdeasBlock, "\n");
  }

  /** Three sections give three headings, in order. */
  lemma HeadingsOfThree(sections: seq<Section>)
    requires |sections| == 3
    ensures Headings(sections) == ["## " + sections[0].name, "## " + sections[1].name, "## " + sections[2].name]
  {
    var hs := Headings(sections);
    assert hs == [hs[0], hs[1], hs[2]];
  }

  /** The sections of a run of `main`: one per configured source, in order,
      each headed by the source name, with the exception class appended when
      its fetch failed. */
  lemma RunHeadings(fetch: Source -> Fetch<seq<FeedEntry>>, now: UtcInstant)
    ensures var sections := AssembleSections(Sources, fetch);
      Prefixed(DigestLines(sections, now), "## ") ==
        [ "## " + SectionName(Sources[0], fetch(Sources[0])),
          "## " + SectionName(Sources[1], fetch(Sources[1])),
          "## " + SectionName(Sources[2], fetch(Sources[2])),
          IdeasHeading ]
  {
    var sections := AssembleSections(Sources, fetch);
    DigestStructure(sections, now);
    HeadingsOfThree(sections);
  }

  /** Every failed source shows up as an empty section, so the no-items
      line appears at least once per failed fetch. */
  lemma {:induction false} FailuresAreEmptySections(sources: seq<Source>, fetch: Source -> Fetch<seq<FeedEntry>>)
    ensures EmptyCount(AssembleSections(sources, fetch)) >= FailureCount(sources, fetch)
    decreases |sources|
  {
    if |sources| > 0 {
      FailuresAreEmptySections(sources[1..], fetch);
      var r := AssembleSections(sources, fetch);
      var rest := AssembleSections(sources[1..], fetch);
      assert r[1..] == rest by {
        forall i | 0 <= i < |rest| ensures r[1..][i] == rest[i] {
          assert sources[1..][i] == sources[i + 1];
        }
      }
    }
  }

  function FailureCount(sources: seq<Source>, fetch: Source -> Fetch<seq<FeedEntry>>): nat
    decreases |sources|
  {
    if |sources| == 0 then 0
    else (if fetch(sources[0]).FetchFailed? then 1 else 0) + FailureCount(sources[1..], fetch)
  }
}
