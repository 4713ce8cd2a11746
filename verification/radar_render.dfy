/** The three output formats of ai-signal-radar and the choice of output
    file. The date parser used for the per-item date is a parameter. The
    non-ASCII literals are kept code point for code point as they appear in
    radar.py (UTF-8 text decoded as Windows-1252), and nothing below depends
    on their content. */
module RadarRender {
  import opened Options
  import opened Seqs
  import opened Text
  import opened Numerals
  import opened Dates
  import opened RadarItems

  /** The em dash of the headings, as written in the source. */
  const Dash: string := "\U{E2}\U{20AC}\U{201D}"
  /** The satellite-antenna emoji of the compact headings. */
  const Antenna: string := "\U{F0}\U{178}\U{201C}\U{A1}"
  /** The up-arrow that prefixes a score in the compact formats. */
  const UpArrow: string := "\U{E2}\U{AC}\U{2020}"
  /** The bullet that starts every compact item line. */
  const Bullet: string := "\U{E2}\U{20AC}\U{A2}"

  // The long literals below are written as a short head plus the rest, which
  // lets the verifier see their first characters.
  const MdSourcesLine: string := "Sources: " + "Hugging Face blog, arXiv cs.AI RSS, r/LocalLLaMA RSS, r/MachineLearning RSS, HN Algolia query."
  const MdEmptyGroupLine: string := "- (no items fetched)"
  const MdFollowUpsHeading: string := "## " + "3 quick follow-ups (auto-generated heuristics)"
  const MdFollowUps: seq<string> := [
    "- Skim " + "HF blog post titles for tooling you can *ship* this week (agents, evals, runtimes).",
    "- Pull " + "1 arXiv paper that suggests a measurable technique; write a minimal reproduction script.",
    "- From " + "r/LocalLLaMA + HN: identify 1 recurring pain point; build a tiny CLI to reduce it."]

  /** The longest title the compact formats print whole. */
  const TitleLimit := 80
  /** How many items of a group the compact formats show. */
  const CompactItemsPerGroup := 5

  // ---------------------------------------------------------------- markdown

  function MdHeader(day: CalendarDate): seq<string> {
    ["# AI Signal Radar " + Dash + " " + IsoFormat(day), "", MdSourcesLine, ""]
  }

  /** The date shown for a non-empty `published`: the parsed date in ISO form,
      or, when parsing fails, the first 32 characters of the cleaned text. */
  function MdDateMeta(published: string, parseDate: string -> Option<CalendarDate>): (r: string)
    ensures parseDate(published).Some? ==> r == IsoFormat(parseDate(published).value)
    ensures parseDate(published).None? ==>
      |r| == Min(32, |Clean(Some(published))|) && StartsWith(Clean(Some(published)), r)
  {
    match parseDate(published)
    case Some(d) => IsoFormat(d)
    case None =>
      var r := Take(Clean(Some(published)), 32);
      assert Clean(Some(published))[..|r|] == r;
      r
  }

  /** The parenthesised details of a markdown item: score, then date. */
  function MdMeta(it: Item, parseDate: string -> Option<CalendarDate>): seq<string> {
    (if it.score.Some? then [IntToString(it.score.value) + " points"] else [])
    + (if it.published.Some? && it.published.value != "" then [MdDateMeta(it.published.value, parseDate)] else [])
  }

  function MdItemLine(it: Item, parseDate: string -> Option<CalendarDate>): string {
    var meta := MdMeta(it, parseDate);
    var rest := it.title + "](" + it.url + ")" + (if |meta| > 0 then " (" + Join(meta, ", ") + ")" else "");
    "- [" + rest
  }

  function MdItemLines(items: seq<Item>, parseDate: string -> Option<CalendarDate>): (r: seq<string>)
    ensures |r| == |items|
    ensures forall j :: 0 <= j < |items| ==> r[j] == MdItemLine(items[j], parseDate)
    decreases |items|
  {
    if |items| == 0 then []
    else [MdItemLine(items[0], parseDate)] + MdItemLines(items[1..], parseDate)
  }

  function MdGroupLines(g: Group, parseDate: string -> Option<CalendarDate>): seq<string> {
    ["## " + g.name]
    + (if |g.items| == 0 then [MdEmptyGroupLine, ""] else MdItemLines(g.items, parseDate) + [""])
  }

  function MdGroupsLines(groups: seq<Group>, parseDate: string -> Option<CalendarDate>): seq<string>
    decreases |groups|
  {
    if |groups| == 0 then []
    else MdGroupLines(groups[0], parseDate) + MdGroupsLines(groups[1..], parseDate)
  }

  function MarkdownLines(day: CalendarDate, groups: seq<Group>, parseDate: string -> Option<CalendarDate>): seq<string> {
    MdHeader(day) + MdGroupsLines(groups, parseDate) + [MdFollowUpsHeading] + MdFollowUps + [""]
  }

  /** The markdown branch of `render_md`. */
  function RenderMarkdown(day: CalendarDate, groups: seq<Group>, parseDate: string -> Option<CalendarDate>): string {
    Join(MarkdownLines(day, groups, parseDate), "\n")
  }

  /** The `## ` heading of each group, in group order. */
  function GroupHeadings(groups: seq<Group>): (r: seq<string>)
    ensures |r| == |groups|
    ensures forall i :: 0 <= i < |groups| ==> r[i] == "## " + groups[i].name
    decreases |groups|
  {
    if |groups| == 0 then [] else ["## " + groups[0].name] + GroupHeadings(groups[1..])
  }

  function TotalItems(groups: seq<Group>): nat
    decreases |groups|
  {
    if |groups| == 0 then 0 else |groups[0].items| + TotalItems(groups[1..])
  }

  function EmptyGroupCount(groups: seq<Group>): nat
    decreases |groups|
  {
    if |groups| == 0 then 0 else (if |groups[0].items| == 0 then 1 else 0) + EmptyGroupCount(groups[1..])
  }

  lemma MdItemLineStart(it: Item, parseDate: string -> Option<CalendarDate>)
    ensures StartsWith(MdItemLine(it, parseDate), "- [")
    ensures !StartsWith(MdItemLine(it, parseDate), "## ")
    ensures !StartsWith(MdItemLine(it, parseDate), MdEmptyGroupLine)
  {
    var l := MdItemLine(it, parseDate);
    StartsWithConcat("- [", l[3..]);
    assert l[..3] == "- [";
    assert l[0] == '-' && l[2] == '[';
    StartsDiffer(l, "## ", 0);
    StartsDiffer(l, MdEmptyGroupLine, 2);
  }

  lemma {:induction false} MdItemLinesPrefixed(items: seq<Item>, parseDate: string -> Option<CalendarDate>)
    ensures Prefixed(MdItemLines(items, parseDate), "- [") == MdItemLines(items, parseDate)
    ensures Prefixed(MdItemLines(items, parseDate), "## ") == []
    ensures Prefixed(MdItemLines(items, parseDate), MdEmptyGroupLine) == []
    decreases |items|
  {
    if |items| > 0 {
      MdItemLineStart(items[0], parseDate);
      MdItemLinesPrefixed(items[1..], parseDate);
    }
  }

  lemma MdGroupPrefixed(g: Group, parseDate: string -> Option<CalendarDate>)
    ensures Prefixed(MdGroupLines(g, parseDate), "## ") == ["## " + g.name]
    ensures |Prefixed(MdGroupLines(g, parseDate), "- [")| == |g.items|
    ensures |Prefixed(MdGroupLines(g, parseDate), MdEmptyGroupLine)| == if |g.items| == 0 then 1 else 0
  {
    var head := "## " + g.name;
    StartsWithConcat("## ", g.name);
    StartsDiffer(head, "- [", 0);
    StartsDiffer(head, MdEmptyGroupLine, 0);
    assert !StartsWith("", "## ") && !StartsWith("", "- [") && !StartsWith("", MdEmptyGroupLine);
    StartsWithConcat(MdEmptyGroupLine, "");
    assert MdEmptyGroupLine + "" == MdEmptyGroupLine;
    StartsDiffer(MdEmptyGroupLine, "## ", 0);
    StartsDiffer(MdEmptyGroupLine, "- [", 2);
    var body := if |g.items| == 0 then [MdEmptyGroupLine, ""] else MdItemLines(g.items, parseDate) + [""];
    PrefixedAppend([head], body, "## ");
    PrefixedAppend([head], body, "- [");
    PrefixedAppend([head], body, MdEmptyGroupLine);
    if |g.items| == 0 {
      assert body == [MdEmptyGroupLine] + [""];
      PrefixedAppend([MdEmptyGroupLine], [""], "## ");
      PrefixedAppend([MdEmptyGroupLine], [""], "- [");
      PrefixedAppend([MdEmptyGroupLine], [""], MdEmptyGroupLine);
    } else {
      MdItemLinesPrefixed(g.items, parseDate);
      PrefixedAppend(MdItemLines(g.items, parseDate), [""], "## ");
      PrefixedAppend(MdItemLines(g.items, parseDate), [""], "- [");
      PrefixedAppend(MdItemLines(g.items, parseDate), [""], MdEmptyGroupLine);
    }
  }

  lemma {:induction false} MdGroupsPrefixed(groups: seq<Group>, parseDate: string -> Option<CalendarDate>)
    ensures Prefixed(MdGroupsLines(groups, parseDate), "## ") == GroupHeadings(groups)
    ensures |Prefixed(MdGroupsLines(groups, parseDate), "- [")| == TotalItems(groups)
    ensures |Prefixed(MdGroupsLines(groups, parseDate), MdEmptyGroupLine)| == EmptyGroupCount(groups)
    decreases |groups|
  {
    if |groups| > 0 {
      MdGroupPrefixed(groups[0], parseDate);
      MdGroupsPrefixed(groups[1..], parseDate);
      PrefixedAppend(MdGroupLines(groups[0], parseDate), MdGroupsLines(groups[1..], parseDate), "## ");
      PrefixedAppend(MdGroupLines(groups[0], parseDate), MdGroupsLines(groups[1..], parseDate), "- [");
      PrefixedAppend(MdGroupLines(groups[0], parseDate), MdGroupsLines(groups[1..], parseDate), MdEmptyGroupLine);
    }
  }

  /** Every item of every group has its line in the markdown body. */
  lemma {:induction false} MdGroupsLinesHaveItems(groups: seq<Group>, i: int, j: int,
                                                  parseDate: string -> Option<CalendarDate>)
    requires 0 <= i < |groups| && 0 <= j < |groups[i].items|
    ensures MdItemLine(groups[i].items[j], parseDate) in MdGroupsLines(groups, parseDate)
    decreases i
  {
    var line := MdItemLine(groups[i].items[j], parseDate);
    var first := MdGroupLines(groups[0], parseDate);
    if i == 0 {
      assert first == ["## " + groups[0].name] + MdItemLines(groups[0].items, parseDate) + [""];
      assert first[1 + j] == line;
    } else {
      assert groups[i] == groups[1..][i - 1];
      MdGroupsLinesHaveItems(groups[1..], i - 1, j, parseDate);
    }
  }

  /** The title block holds no group heading, item line or empty-group
      marker. */
  lemma MdHeaderPrefixed(day: CalendarDate, p: string)
    requires p == "## " || p == "- [" || p == MdEmptyGroupLine
    ensures Prefixed(MdHeader(day), p) == []
  {
    var lines := MdHeader(day);
    var title := "# AI Signal Radar " + Dash + " " + IsoFormat(day);
    assert title[0] == '#' && title[1] == ' ';
    if p == "## " {
      StartsDiffer(title, p, 1);
    } else {
      StartsDiffer(title, p, 0);
    }
    assert MdSourcesLine[0] == 'S';
    StartsDiffer(MdSourcesLine, p, 0);
    assert lines == [title, "", MdSourcesLine, ""];
    PrefixedNone(lines, p);
  }

  /** The follow-ups block holds one `## ` line, its heading, and neither item
      lines nor empty-group markers. */
  lemma MdFooterPrefixed(p: string)
    requires p == "## " || p == "- [" || p == MdEmptyGroupLine
    ensures Prefixed([MdFollowUpsHeading] + MdFollowUps + [""], p) == if p == "## " then [MdFollowUpsHeading] else []
  {
    var rest := MdFollowUps + [""];
    forall k | 0 <= k < |rest|
      ensures !StartsWith(rest[k], p)
    {
      if k < 3 {
        assert rest[k][0] == '-' && rest[k][2] != '(' && rest[k][2] != '[';
        if p == "## " {
          StartsDiffer(rest[k], p, 0);
        } else {
          StartsDiffer(rest[k], p, 2);
        }
      }
    }
    PrefixedNone(rest, p);
    assert [MdFollowUpsHeading] + MdFollowUps + [""] == [MdFollowUpsHeading] + rest;
    PrefixedAppend([MdFollowUpsHeading], rest, p);
    if p == "## " {
      StartsWithConcat("## ", "3 quick follow-ups (auto-generated heuristics)");
    } else {
      StartsDiffer(MdFollowUpsHeading, p, 0);
    }
  }

  /** The lines of the markdown that start with one of the markers come from
      the groups or from the follow-ups block, never from the header. */
  lemma MarkdownPrefixed(day: CalendarDate, groups: seq<Group>, parseDate: string -> Option<CalendarDate>, p: string)
    requires p == "## " || p == "- [" || p == MdEmptyGroupLine
    ensures Prefixed(MarkdownLines(day, groups, parseDate), p)
         == Prefixed(MdGroupsLines(groups, parseDate), p) + Prefixed([MdFollowUpsHeading] + MdFollowUps + [""], p)
  {
    var head := MdHeader(day);
    var body := MdGroupsLines(groups, parseDate);
    var tail := [MdFollowUpsHeading] + MdFollowUps + [""];
    assert MarkdownLines(day, groups, parseDate) == head + body + tail;
    MdHeaderPrefixed(day, p);
    PrefixedAppend(head + body, tail, p);
    PrefixedAppend(head, body, p);
  }

  /** Reading the markdown back line by line: the `## ` lines are one heading
      per group in group order followed by the follow-ups heading; there is
      one `- [` line per item (markdown shows every item); and the
      empty-group marker appears once per empty group. */
  lemma MarkdownStructure(day: CalendarDate, groups: seq<Group>, parseDate: string -> Option<CalendarDate>)
    ensures Prefixed(MarkdownLines(day, groups, parseDate), "## ") == GroupHeadings(groups) + [MdFollowUpsHeading]
    ensures |Prefixed(MarkdownLines(day, groups, parseDate), "- [")| == TotalItems(groups)
    ensures |Prefixed(MarkdownLines(day, groups, parseDate), MdEmptyGroupLine)| == EmptyGroupCount(groups)
  {
    MdGroupsPrefixed(groups, parseDate);
    MarkdownPrefixed(day, groups, parseDate, "## ");
    MdFooterPrefixed("## ");
    MarkdownPrefixed(day, groups, parseDate, "- [");
    MdFooterPrefixed("- [");
    MarkdownPrefixed(day, groups, parseDate, MdEmptyGroupLine);
    MdFooterPrefixed(MdEmptyGroupLine);
  }

  // ---------------------------------------------------------------- compact

  /** The two chat formats, which share their layout. */
  datatype CompactStyle = Discord | Slack

  function CompactHeader(style: CompactStyle, day: CalendarDate): string {
    match style
    case Discord => "**" + Antenna + " AI Signal Radar " + Dash + " " + IsoFormat(day) + "**"
    case Slack => Antenna + " *AI Signal Radar " + Dash + " " + IsoFormat(day) + "*"
  }

  function CompactGroupHeading(style: CompactStyle, name: string): string {
    match style
    case Discord => "**" + name + "**"
    case Slack => "*" + name + "*"
  }

  /** A title as the compact formats print it: whole when it has at most 80
      characters, otherwise its first 80 characters and `...`. */
  function CompactTitle(title: string): (r: string)
    ensures |r| <= TitleLimit + 3
    ensures |title| <= TitleLimit ==> r == title
    ensures TitleLimit < |title| ==> |r| == TitleLimit + 3 && r[..TitleLimit] == title[..TitleLimit] && r[TitleLimit..] == "..."
  {
    if |title| > TitleLimit then title[..TitleLimit] + "..." else title
  }

  /** `isoformat()[-5:]`: the `MM-DD` part of a date. */
  function MonthDay(d: CalendarDate): (r: string)
    ensures |r| == 5 && r[2] == '-' && AllDigits(r[..2]) && AllDigits(r[3..])
    ensures DigitsValue(r[..2]) == d.month && DigitsValue(r[3..]) == d.day
  {
    var iso := IsoFormat(d);
    var r := iso[|iso| - 5..];
    assert iso == FixedDigits(d.year, 4) + "-" + FixedDigits(d.month, 2) + "-" + FixedDigits(d.day, 2);
    assert r[..2] == FixedDigits(d.month, 2) && r[3..] == FixedDigits(d.day, 2);
    FixedDigitsValue(d.month, 2);
    FixedDigitsValue(d.day, 2);
    r
  }

  /** Compact item details: the score for both formats, plus the month and
      day of a parseable date for Discord (an unparseable date shows
      nothing). */
  function CompactMeta(style: CompactStyle, it: Item, parseDate: string -> Option<CalendarDate>): seq<string> {
    (if it.score.Some? then [UpArrow + IntToString(it.score.value)] else [])
    + (if style.Discord? && it.published.Some? && it.published.value != ""
          && parseDate(it.published.value).Some?
       then [MonthDay(parseDate(it.published.value).value)] else [])
  }

  function CompactItemLine(style: CompactStyle, it: Item, parseDate: string -> Option<CalendarDate>): string {
    var meta := CompactMeta(style, it, parseDate);
    var title := CompactTitle(it.title);
    match style
    case Discord => Bullet + " " + title + (if |meta| > 0 then " " + Join(meta, ", ") else "")
    case Slack => Bullet + " <" + it.url + "|" + title + ">" + (if |meta| > 0 then " (" + Join(meta, ", ") + ")" else "")
  }

  function CompactItemLines(style: CompactStyle, items: seq<Item>, parseDate: string -> Option<CalendarDate>): (r: seq<string>)
    ensures |r| == |items|
    decreases |items|
  {
    if |items| == 0 then []
    else [CompactItemLine(style, items[0], parseDate)] + CompactItemLines(style, items[1..], parseDate)
  }

  /** A group in a compact format: nothing at all when it has no items,
      otherwise its heading, its first five items and a blank line. */
  function CompactGroupLines(style: CompactStyle, g: Group, parseDate: string -> Option<CalendarDate>): seq<string> {
    if |g.items| == 0 then []
    else [CompactGroupHeading(style, g.name)]
         + CompactItemLines(style, Take(g.items, CompactItemsPerGroup), parseDate) + [""]
  }

  function CompactGroupsLines(style: CompactStyle, groups: seq<Group>, parseDate: string -> Option<CalendarDate>): seq<string>
    decreases |groups|
  {
    if |groups| == 0 then []
    else CompactGroupLines(style, groups[0], parseDate) + CompactGroupsLines(style, groups[1..], parseDate)
  }

  function CompactLines(style: CompactStyle, day: CalendarDate, groups: seq<Group>,
                        parseDate: string -> Option<CalendarDate>): seq<string> {
    [CompactHeader(style, day), ""] + CompactGroupsLines(style, groups, parseDate)
  }

  /** `render_discord` (style `Discord`) and `render_slack` (style `Slack`). */
  function RenderCompact(style: CompactStyle, day: CalendarDate, groups: seq<Group>,
                         parseDate: string -> Option<CalendarDate>): string {
    Join(CompactLines(style, day, groups, parseDate), "\n")
  }

  /** The groups that have items, in order. */
  function NonEmptyGroups(groups: seq<Group>): (r: seq<Group>)
    ensures forall g <- r :: |g.items| > 0
    decreases |groups|
  {
    if |groups| == 0 then []
    else if |groups[0].items| == 0 then NonEmptyGroups(groups[1..])
    else [groups[0]] + NonEmptyGroups(groups[1..])
  }

  /** Every group cut down to the items a compact format can show. */
  function FirstFive(groups: seq<Group>): (r: seq<Group>)
    ensures |r| == |groups|
    ensures forall i :: 0 <= i < |r| ==> r[i].name == groups[i].name && |r[i].items| <= CompactItemsPerGroup
    decreases |groups|
  {
    if |groups| == 0 then []
    else [Group(groups[0].name, Take(groups[0].items, CompactItemsPerGroup))] + FirstFive(groups[1..])
  }

  lemma {:induction false} CompactIgnoresEmpty(style: CompactStyle, groups: seq<Group>, parseDate: string -> Option<CalendarDate>)
    ensures CompactGroupsLines(style, NonEmptyGroups(groups), parseDate) == CompactGroupsLines(style, groups, parseDate)
    decreases |groups|
  {
    if |groups| > 0 {
      CompactIgnoresEmpty(style, groups[1..], parseDate);
      if |groups[0].items| == 0 {
        assert CompactGroupLines(style, groups[0], parseDate) == [];
      } else {
        assert ([groups[0]] + NonEmptyGroups(groups[1..]))[1..] == NonEmptyGroups(groups[1..]);
      }
    }
  }

  /** Empty groups leave no trace in a compact digest: dropping them first
      changes nothing. */
  lemma CompactSkipsEmptyGroups(style: CompactStyle, day: CalendarDate, groups: seq<Group>,
                                parseDate: string -> Option<CalendarDate>)
    ensures RenderCompact(style, day, NonEmptyGroups(groups), parseDate) == RenderCompact(style, day, groups, parseDate)
  {
    CompactIgnoresEmpty(style, groups, parseDate);
  }

  lemma {:induction false} CompactIgnoresTail(style: CompactStyle, groups: seq<Group>, parseDate: string -> Option<CalendarDate>)
    ensures CompactGroupsLines(style, FirstFive(groups), parseDate) == CompactGroupsLines(style, groups, parseDate)
    decreases |groups|
  {
    if |groups| > 0 {
      CompactIgnoresTail(style, groups[1..], parseDate);
      var g := groups[0];
      var cut := Take(g.items, CompactItemsPerGroup);
      assert Take(cut, CompactItemsPerGroup) == cut;
      assert (|cut| == 0) == (|g.items| == 0);
      assert FirstFive(groups)[1..] == FirstFive(groups[1..]);
    }
  }

  /** Only the first five items of a group can influence a compact digest. */
  lemma CompactShowsFirstFive(style: CompactStyle, day: CalendarDate, groups: seq<Group>,
                              parseDate: string -> Option<CalendarDate>)
    ensures RenderCompact(style, day, FirstFive(groups), parseDate) == RenderCompact(style, day, groups, parseDate)
  {
    CompactIgnoresTail(style, groups, parseDate);
  }

  /** How many items a compact digest lists: at most five per group. */
  function ShownItems(groups: seq<Group>): nat
    decreases |groups|
  {
    if |groups| == 0 then 0 else Min(|groups[0].items|, CompactItemsPerGroup) + ShownItems(groups[1..])
  }

  /** How many groups have items. */
  function ShownGroups(groups: seq<Group>): nat
    decreases |groups|
  {
    if |groups| == 0 then 0 else (if |groups[0].items| > 0 then 1 else 0) + ShownGroups(groups[1..])
  }

  lemma CompactItemLineStart(style: CompactStyle, it: Item, parseDate: string -> Option<CalendarDate>)
    ensures StartsWith(CompactItemLine(style, it, parseDate), Bullet)
  {
    var l := CompactItemLine(style, it, parseDate);
    assert l == Bullet + l[3..];
    StartsWithConcat(Bullet, l[3..]);
  }

  lemma {:induction false} CompactItemLinesPrefixed(style: CompactStyle, items: seq<Item>, parseDate: string -> Option<CalendarDate>)
    ensures Prefixed(CompactItemLines(style, items, parseDate), Bullet) == CompactItemLines(style, items, parseDate)
    decreases |items|
  {
    if |items| > 0 {
      CompactItemLineStart(style, items[0], parseDate);
      CompactItemLinesPrefixed(style, items[1..], parseDate);
    }
  }

  lemma CompactGroupCounts(style: CompactStyle, g: Group, parseDate: string -> Option<CalendarDate>)
    ensures |CompactGroupLines(style, g, parseDate)| == if |g.items| == 0 then 0 else 2 + Min(|g.items|, CompactItemsPerGroup)
    ensures |Prefixed(CompactGroupLines(style, g, parseDate), Bullet)| == Min(|g.items|, CompactItemsPerGroup)
  {
    if |g.items| > 0 {
      var head := CompactGroupHeading(style, g.name);
      var items := CompactItemLines(style, Take(g.items, CompactItemsPerGroup), parseDate);
      assert head[0] == '*';
      StartsDiffer(head, Bullet, 0);
      CompactItemLinesPrefixed(style, Take(g.items, CompactItemsPerGroup), parseDate);
      PrefixedAppend([head], items, Bullet);
      PrefixedAppend([head] + items, [""], Bullet);
    }
  }

  lemma {:induction false} CompactGroupsCounts(style: CompactStyle, groups: seq<Group>, parseDate: string -> Option<CalendarDate>)
    ensures |CompactGroupsLines(style, groups, parseDate)| == 2 * ShownGroups(groups) + ShownItems(groups)
    ensures |Prefixed(CompactGroupsLines(style, groups, parseDate), Bullet)| == ShownItems(groups)
    decreases |groups|
  {
    if |groups| > 0 {
      CompactGroupCounts(style, groups[0], parseDate);
      CompactGroupsCounts(style, groups[1..], parseDate);
      PrefixedAppend(CompactGroupLines(style, groups[0], parseDate), CompactGroupsLines(style, groups[1..], parseDate), Bullet);
    }
  }

  /** The size of a compact digest: a heading and a blank line, then per
      non-empty group a heading, at most five item lines and a blank line;
      exactly the shown items start with the bullet. */
  lemma CompactLineCounts(style: CompactStyle, day: CalendarDate, groups: seq<Group>,
                          parseDate: string -> Option<CalendarDate>)
    ensures |CompactLines(style, day, groups, parseDate)| == 2 + 2 * ShownGroups(groups) + ShownItems(groups)
    ensures |Prefixed(CompactLines(style, day, groups, parseDate), Bullet)| == ShownItems(groups)
  {
    var header := CompactHeader(style, day);
    assert header[0] != Bullet[0];
    StartsDiffer(header, Bullet, 0);
    CompactGroupsCounts(style, groups, parseDate);
    PrefixedAppend([header, ""], CompactGroupsLines(style, groups, parseDate), Bullet);
    PrefixedAppend([header], [""], Bullet);
    assert [header, ""] == [header] + [""];
  }

  // ---------------------------------------------------------------- dispatch

  predicate IsCompactFormat(mode: string) {
    mode == "discord" || mode == "slack"
  }

  /** `render_md`: `"discord"` and `"slack"` go to the compact renderers,
      every other mode string to markdown. */
  function RenderDigest(day: CalendarDate, groups: seq<Group>, mode: string,
                        parseDate: string -> Option<CalendarDate>): (r: string)
    ensures mode == "discord" ==> r == RenderCompact(Discord, day, groups, parseDate)
    ensures mode == "slack" ==> r == RenderCompact(Slack, day, groups, parseDate)
    ensures !IsCompactFormat(mode) ==> r == RenderMarkdown(day, groups, parseDate)
  {
    if mode == "discord" then RenderCompact(Discord, day, groups, parseDate)
    else if mode == "slack" then RenderCompact(Slack, day, groups, parseDate)
    else RenderMarkdown(day, groups, parseDate)
  }

  /** `os.path.join(directory, name)`. */
  function JoinPath(directory: string, name: string): string {
    if 0 < |name| && name[0] == '/' then name
    else if directory == "" || directory[|directory| - 1] == '/' then directory + name
    else directory + "/" + name
  }

  /** The file `write_digest` writes: `<ISO date>.txt` for the compact formats,
      `<ISO date>.md` for every other mode, inside `outDir`. */
  function DigestPath(outDir: string, day: CalendarDate, mode: string): string {
    JoinPath(outDir, IsoFormat(day) + (if IsCompactFormat(mode) then ".txt" else ".md"))
  }

  /** The same day and format always give the same file (a later run
      overwrites an earlier one); different days never share a file. */
  lemma OneFilePerDay(outDir: string, d1: CalendarDate, d2: CalendarDate, mode: string)
    ensures DigestPath(outDir, d1, mode) == DigestPath(outDir, d2, mode) <==> d1 == d2
  {
    var ext := if IsCompactFormat(mode) then ".txt" else ".md";
    var n1 := IsoFormat(d1) + ext;
    var n2 := IsoFormat(d2) + ext;
    assert n1[0] != '/' && n2[0] != '/';
    if DigestPath(outDir, d1, mode) == DigestPath(outDir, d2, mode) {
      var p := DigestPath(outDir, d1, mode);
      JoinPathEndsWith(outDir, n1);
      JoinPathEndsWith(outDir, n2);
      assert n1 == p[|p| - |n1|..] == n2;
      assert IsoFormat(d1) == n1[..10] && IsoFormat(d2) == n2[..10];
      IsoFormatInjective(d1, d2);
    }
  }

  /** `os.path.join` with a relative name ends with that name. */
  lemma JoinPathEndsWith(directory: string, name: string)
    requires 0 < |name| && name[0] != '/'
    ensures |name| <= |JoinPath(directory, name)|
    ensures JoinPath(directory, name)[|JoinPath(directory, name)| - |name|..] == name
  {
  }

  /** The extension names the format: `.txt` exactly for the compact
      formats. */
  lemma ExtensionMatchesFormat(outDir: string, day: CalendarDate, mode: string)
    ensures var path := DigestPath(outDir, day, mode);
      && |path| >= 4
      && (IsCompactFormat(mode) <==> path[|path| - 4..] == ".txt")
      && (!IsCompactFormat(mode) <==> path[|path| - 3..] == ".md")
  {
    var ext := if IsCompactFormat(mode) then ".txt" else ".md";
    var name := IsoFormat(day) + ext;
    assert name[0] != '/';
    JoinPathEndsWith(outDir, name);
    var path := DigestPath(outDir, day, mode);
    assert path[|path| - |name|..] == name;
    assert path[|path| - 4..] == name[|name| - 4..];
    assert path[|path| - 3..] == name[|name| - 3..];
    if !IsCompactFormat(mode) {
      assert name[|name| - 3] == '.';
    } else {
      assert name[|name| - 3] == 't';
    }
  }

  lemma CompactStart(style: CompactStyle, day: CalendarDate, groups: seq<Group>,
                     parseDate: string -> Option<CalendarDate>)
    ensures !StartsWith(RenderCompact(style, day, groups, parseDate), "# AI Signal Radar ")
  {
    var lines := CompactLines(style, day, groups, parseDate);
    var header := CompactHeader(style, day);
    assert lines[0] == header;
    JoinStartsWithFirst(lines, "\n");
    var text := Join(lines, "\n");
    assert text[..|header|] == header;
    assert 0 < |header| && header[0] != '#';
    assert text[0] == header[0];
    StartsDiffer(text, "# AI Signal Radar ", 0);
  }

  lemma MarkdownStart(day: CalendarDate, groups: seq<Group>, parseDate: string -> Option<CalendarDate>)
    ensures StartsWith(RenderMarkdown(day, groups, parseDate), "# AI Signal Radar ")
  {
    var lines := MarkdownLines(day, groups, parseDate);
    var title := "# AI Signal Radar " + Dash + " " + IsoFormat(day);
    assert lines[0] == MdHeader(day)[0] == title;
    JoinStartsWithFirst(lines, "\n");
    StartsWithConcat("# AI Signal Radar ", Dash);
    StartsWithExtend("# AI Signal Radar " + Dash, "# AI Signal Radar ", " ");
    StartsWithExtend("# AI Signal Radar " + Dash + " ", "# AI Signal Radar ", IsoFormat(day));
    StartsWithTrans(Join(lines, "\n"), title, "# AI Signal Radar ");
  }

  /** Only a markdown digest starts with the `# ` title line; the compact
      digests start with their own header. */
  lemma TextMatchesFormat(day: CalendarDate, groups: seq<Group>, mode: string,
                          parseDate: string -> Option<CalendarDate>)
    ensures !IsCompactFormat(mode) <==> StartsWith(RenderDigest(day, groups, mode, parseDate), "# AI Signal Radar ")
  {
    if mode == "discord" {
      CompactStart(Discord, day, groups, parseDate);
    } else if mode == "slack" {
      CompactStart(Slack, day, groups, parseDate);
    } else {
      MarkdownStart(day, groups, parseDate);
    }
  }
}
