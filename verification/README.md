# AI signal digests, modelled in Dafny

This project models the pure core of two small Python scripts that turn
AI/LLM news feeds into a daily digest.

`ai-signal-radar` (`radar.py`) reads five sources: the Hugging Face blog,
arXiv cs.AI, r/LocalLLaMA, r/MachineLearning and a Hacker News (Algolia)
search. Its pipeline:

- It turns feed entries and search hits into `Item`s, with titles cleaned by `_clean`.
- It sorts Hacker News items by points.
- It filters every group by keywords (`--keywords`, `--include-all`) and by a date floor (`--since`).
- It renders the digest as markdown, Discord or Slack text.
- It picks the output file `<date>.md` or `<date>.txt`.

`ai-news-digest` (`digest.py`) reads three feeds. It keeps and cleans the
first few entries of each, and renders a markdown page that ends with a fixed
block of build ideas. A source whose fetch fails becomes an empty section
marked with the exception class.

The model is functional. Items, groups and sections are immutable datatypes,
and every step is a pure function over sequences and strings. The
nondeterministic parts are inputs:

- The network becomes the outcome of each fetch (`Feed.Fetch`: the parsed entries or hits, or the exception's class and message).
- The clock becomes the day or the UTC timestamp.
- `dateutil`'s parser becomes a parameter `parseDate: string -> Option<CalendarDate>`.

Modules, one file each:

- `Options`: `Option` and `Result`.
- `Seqs`: Python's prefix slice `s[:n]`, including negative `n`, and the subsequence relation.
- `Text`: whitespace as `str.isspace` defines it, `_clean`, ASCII `lower`, `in` on strings, `split`/`join`, and line prefixes.
- `TextWords`: `str.split()` with no argument, and `_clean` as the words joined by single spaces.
- `Numerals`: decimal digits.
- `Dates`: calendar dates, `isoformat`/`fromisoformat` and the UTC timestamp text.
- `Feed`: raw feed entries, search hits and fetch outcomes.
- `RadarItems`: entry and hit normalisation, and the Hacker News sort.
- `RadarFilter`: keyword and date filtering, and `--keywords` parsing.
- `RadarRender`: the three renderers, format dispatch and the output path.
- `RadarMain`: the sources, error handling and the whole run.
- `RadarScenarios`: two worked examples.
- `NewsDigest`: all of `digest.py`.

Three behaviours of the code are easy to misread; the model follows the code:

- A feed entry is dropped when its cleaned title OR its link is empty. It is dropped when either one is empty, not only when both are missing.
- Only the two Reddit fetches are guarded. A failing Hugging Face, arXiv or Hacker News fetch, or an invalid `--since`, ends the run with an exception (`RadarMain.Abort`). A failing Reddit fetch is replaced by a placeholder item.
- A failed Reddit fetch yields its placeholder even with `--limit 0`, so the per-source limit does not bound those two groups.

## Model

| member | source | states |
|---|---|---|
| Text.Clean | ai-signal-radar/src/radar.py:55-57 | `_clean`: a missing value gives `""`; the result has no whitespace at either end, no two adjacent whitespace characters and no whitespace other than a space; its non-whitespace characters are exactly those of the input, in order |
| Text.CleanIdempotent | ai-news-digest/digest.py:35-37 | cleaning a cleaned string changes nothing (the digest's `_clean` is the same function) |
| Text.CleanFixedPoint | ai-signal-radar/src/radar.py:55-57 | a string that is already clean is its own `_clean` |
| TextWords.CleanJoinsWords | ai-signal-radar/src/radar.py:55-57 | `_clean(s)` is `" ".join(s.split())`: the words of the input, in order, separated by single spaces |
| TextWords.Words | ai-signal-radar/src/radar.py:56 | `str.split()` with no argument yields only non-empty words with no whitespace in them |
| TextWords.CollapseWords | ai-signal-radar/src/radar.py:56 | on a string with no edge whitespace, `re.sub(r"\s+", " ", ...)` is joining its words with single spaces |
| Text.CleanHasNoNewline | ai-signal-radar/src/radar.py:56 | a cleaned string holds no line break, so a cleaned title is one line of the digest |
| Text.Strip | ai-signal-radar/src/radar.py:56 | `str.strip()`: a contiguous slice of the input with no whitespace at either end; everything cut off on either side is whitespace |
| Text.Contains | ai-signal-radar/src/radar.py:32 | `kw in title`: true exactly when the needle occurs at some position (the empty needle occurs everywhere) |
| Text.Lower | ai-signal-radar/src/radar.py:31 | `lower()` keeps the length and maps each character on its own |
| Text.JoinSplit | ai-signal-radar/src/radar.py:207 | joining the pieces of `split(',')` with `,` gives the original text back |
| Text.SplitJoin | ai-signal-radar/src/radar.py:207 | splitting a `,`-join of comma-free pieces gives the pieces back |
| RadarFilter.MatchesKeywords | ai-signal-radar/src/radar.py:29-32 | true exactly when some keyword, lower-cased, occurs in the lower-cased title |
| RadarFilter.FilterByKeywords | ai-signal-radar/src/radar.py:35-43 | no keywords: input unchanged. Default: an order-preserving subsequence holding every matching item as often as the input does and nothing else. `include_all`: the matches then the non-matches, each in input order, a permutation of the input with every match first |
| RadarFilter.ExcludingMatchesSelectsRest | ai-signal-radar/src/radar.py:40-42 | `[it for it in items if it not in filtered]` is exactly the non-matching items in order, even with duplicate items, because equal items have equal titles |
| RadarFilter.SelectedPartition | ai-signal-radar/src/radar.py:39-42 | the matching and non-matching items together are a permutation of the input |
| RadarFilter.FilterSince | ai-signal-radar/src/radar.py:241-252 | a no-op without `--since`; otherwise an order-preserving subsequence keeping exactly the items with no date, an empty date, an unparseable date or a date on or after the floor (fail-open) |
| RadarFilter.SinceSelected | ai-signal-radar/src/radar.py:242-252 | the date loop keeps, in order and with multiplicity, exactly the items that pass the test |
| RadarFilter.ParseKeywords | ai-signal-radar/src/radar.py:204-207 | no or empty `--keywords` gives the twelve defaults; otherwise the stripped comma-pieces in order with the empty ones dropped: each non-empty stripped piece appears exactly as often as in the input and nothing else does; every keyword is non-empty, stripped and comma-free |
| RadarFilter.StrippedPiecesSelects | ai-signal-radar/src/radar.py:207 | the comprehension `[k.strip() for k in ... if k.strip()]` is the stripped pieces in order with exactly the empty ones removed |
| RadarFilter.KeywordsRoundTrip | ai-signal-radar/src/radar.py:205-207 | a list of non-empty, stripped, comma-free keywords joined with `,` parses back to the same list |
| RadarFilter.FilterGroup | ai-signal-radar/src/radar.py:238-255 | a filtered group keeps its name; its items come from the input; they satisfy the date test when `--since` is given and match a keyword when keywords are given without `--include-all`; with `--include-all` and keywords, the matching items still come first after the date filter |
| RadarFilter.SubseqMatchesFirst | ai-signal-radar/src/radar.py:241-252 | dropping items from a list whose keyword matches come first, as the date loop does, keeps the matches first |
| RadarFilter.FilterGroupSelects | ai-signal-radar/src/radar.py:238-255 | an item is in the filtered group exactly as often as in the input when it passes both tests (a keyword match, unless there are no keywords or `--include-all` is given, and the date test, when `--since` is given), and not at all otherwise |
| RadarFilter.FilterGroups | ai-signal-radar/src/radar.py:237-255 | one filtered group per group, in order |
| RadarItems.EntryDate | ai-signal-radar/src/radar.py:69 | `published` when it is non-empty, otherwise `updated` |
| RadarItems.EntryItem | ai-signal-radar/src/radar.py:67-71 | an entry yields an item exactly when its cleaned title and link are non-empty; the item carries the cleaned title, the link, `published` or else `updated`, the source and no score |
| RadarItems.UsableEntries | ai-signal-radar/src/radar.py:70-71 | an order-preserving subsequence of the entries, every one of them usable |
| RadarItems.UsableEntriesSelects | ai-signal-radar/src/radar.py:66-71 | the usable entries are an order-preserving subsequence holding every usable entry exactly as often as the input does, and nothing else |
| RadarItems.RssItems | ai-signal-radar/src/radar.py:65-72 | one item per usable entry, the i-th item built from the i-th usable entry |
| RadarItems.FetchRss | ai-signal-radar/src/radar.py:66-72 | only the first `limit` entries are examined, so there are at most `limit` items (possibly fewer), each from a usable entry in order |
| RadarItems.HitLink | ai-signal-radar/src/radar.py:83 | a hit's link is never empty: its `url`, or the item page built from `objectID` (printed `None` when missing) |
| RadarItems.HitItem | ai-signal-radar/src/radar.py:82-87 | a hit yields an item exactly when its cleaned title is non-empty; the item carries the cleaned title, the hit's link, its `created_at` as the date and its points as the score |
| RadarItems.HitItems | ai-signal-radar/src/radar.py:81-87 | one item per usable hit, the i-th item built from the i-th usable hit, all tagged as Hacker News |
| RadarItems.UsableHitsSelects | ai-signal-radar/src/radar.py:81-86 | the usable hits are an order-preserving subsequence holding every hit with a non-empty cleaned title exactly as often as the input does, and nothing else |
| RadarItems.SortByScore | ai-signal-radar/src/radar.py:89 | the sort is a permutation |
| RadarItems.SortByScoreSorted | ai-signal-radar/src/radar.py:89 | after sorting, scored items come first in descending score and unscored items last |
| RadarItems.SortByScoreStable | ai-signal-radar/src/radar.py:89 | the sort is stable: the items with any one score keep their input order |
| RadarItems.TopRankedFacts | ai-signal-radar/src/radar.py:89-90 | a prefix slice of the sorted items is in score order, drawn from the items with multiplicity, and has Python's slice length for both signs of the limit |
| RadarItems.FetchHn | ai-signal-radar/src/radar.py:80-90 | `out[:limit]` after the sort: min(limit, n) items for a non-negative limit and max(0, n + limit) for a negative one, n being the number of usable hits; in score order; drawn from the hits' items with multiplicity |
| RadarItems.FetchHnKeepsTopRanked | ai-signal-radar/src/radar.py:89-90 | truncation happens after sorting: the kept items are the prefix of the sorted list of the length `out[:limit]` gives, no dropped item ranks before a kept one, and within each score the sort keeps hit order |
| RadarRender.MdDateMeta | ai-signal-radar/src/radar.py:119-123 | a parseable date shows as its ISO date; otherwise as the first min(32, n) characters of the cleaned text, n its length |
| RadarRender.MarkdownStructure | ai-signal-radar/src/radar.py:103-133 | read as a line list, the markdown's `## ` lines are one per group in order, then the follow-ups heading; it has one `- [` line per item and one "no items" line per empty group |
| RadarRender.MarkdownPrefixed | ai-signal-radar/src/radar.py:103-133 | the header lines never start with `## `, `- [` or the empty-group text, so every such line comes from a group or the follow-ups block |
| RadarRender.MdGroupsLinesHaveItems | ai-signal-radar/src/radar.py:109-126 | every item of every group has its own markdown line |
| RadarRender.MarkdownStart | ai-signal-radar/src/radar.py:104 | the markdown starts with the `# AI Signal Radar` title line |
| RadarRender.CompactTitle | ai-signal-radar/src/radar.py:157 | a title of at most 80 characters is printed as is; a longer one as its first 80 characters followed by `...` |
| RadarRender.MonthDay | ai-signal-radar/src/radar.py:152 | `isoformat()[-5:]` is `MM-DD`, whose digits are the date's month and day |
| RadarRender.CompactSkipsEmptyGroups | ai-signal-radar/src/radar.py:143-144 | removing the empty groups first does not change Discord or Slack output |
| RadarRender.CompactShowsFirstFive | ai-signal-radar/src/radar.py:146 | cutting every group to its first five items first does not change Discord or Slack output |
| RadarRender.CompactLineCounts | ai-signal-radar/src/radar.py:136-181 | read as a line list, Discord or Slack output has 2 lines, plus per non-empty group a heading, min(5, n) item lines and a blank; exactly the item lines start with the bullet |
| RadarRender.RenderDigest | ai-signal-radar/src/radar.py:97-102 | `"discord"` and `"slack"` select the compact renderers; every other mode selects markdown |
| RadarRender.TextMatchesFormat | ai-signal-radar/src/radar.py:97-104 | the output starts with the markdown title exactly when the mode is neither Discord nor Slack |
| RadarRender.ExtensionMatchesFormat | ai-signal-radar/src/radar.py:186-187 | the file ends in `.txt` exactly for Discord and Slack, and ends in `.md` exactly for every other mode |
| RadarRender.OneFilePerDay | ai-signal-radar/src/radar.py:187 | in one format, two runs write the same file exactly when they run on the same day, so a later run overwrites an earlier one |
| RadarRender.JoinPathEndsWith | ai-signal-radar/src/radar.py:187 | `os.path.join` with a relative file name ends with that name |
| Dates.IsoFormat | ai-signal-radar/src/radar.py:104 | `date.isoformat()` is ten characters `YYYY-MM-DD`, digits with dashes at positions 4 and 7 |
| Dates.IsoFormatFields | ai-signal-radar/src/radar.py:104 | the three digit fields of `isoformat()` read back as the year, the month and the day |
| Dates.IsoFormatRoundTrip | ai-signal-radar/src/radar.py:212 | `fromisoformat(d.isoformat()) == d` |
| Dates.FromIsoFormatCanonical | ai-signal-radar/src/radar.py:212 | a text that `fromisoformat` accepts is the ISO text of the date it returns |
| Dates.IsoFormatInjective | ai-signal-radar/src/radar.py:187 | two dates have the same ISO text exactly when they are equal |
| Numerals.IntToString | ai-signal-radar/src/radar.py:118 | `str(score)`: for a non-negative score, decimal digits whose value is the score with no leading zero; for a negative one, a minus sign, then such digits for the absolute score |
| RadarMain.FailurePlaceholder | ai-signal-radar/src/radar.py:226 | the placeholder for a failed Reddit fetch carries the group name and feed URL, the title `(fetch failed: <class>: <message>)`, no date and no score |
| RadarMain.GuardedRssGroup | ai-signal-radar/src/radar.py:223-232 | a Reddit group holds exactly the items `fetch_rss` gives for the feed, at most `limit` of them, or exactly one placeholder naming the exception |
| RadarMain.AssembleGroups | ai-signal-radar/src/radar.py:216-234 | five groups in the order Hugging Face, arXiv, r/LocalLLaMA, r/MachineLearning, Hacker News, each with its source name |
| RadarMain.AssembleGroupsItems | ai-signal-radar/src/radar.py:216-234 | each group holds what its fetch gives: the two feeds and the Hacker News search unguarded and at most `limit` items each, the two Reddit feeds through the guard |
| RadarMain.FetchGroups | ai-signal-radar/src/radar.py:216-234 | the run stops exactly when the Hugging Face, arXiv or Hacker News fetch fails, with the first failure; Reddit failures never stop it |
| RadarMain.SinceOption | ai-signal-radar/src/radar.py:210-212 | an absent or empty `--since` sets no floor; otherwise it must be an ISO date, whose text it is |
| RadarMain.Run | ai-signal-radar/src/radar.py:193-261 | a run fails exactly when `--since` is invalid or an unguarded fetch fails; otherwise it writes `<out>/<day>.md` or `.txt` |
| RadarMain.PlaceholderMatchesDefaults | ai-signal-radar/src/radar.py:26 | the placeholder title contains `ai` (in `failed`), one of the default keywords |
| RadarMain.FailedRedditSurvivesFilter | ai-signal-radar/src/radar.py:237-255 | with the default keywords, a failed Reddit group keeps exactly its placeholder after both filters |
| RadarMain.RunMarkdownSections | ai-signal-radar/src/radar.py:216-258 | a markdown run's text is the newline join of a line list with exactly six `## ` lines: the five sources in order, then the follow-ups |
| RadarMain.MarkdownSourceHeadings | ai-signal-radar/src/radar.py:109-128 | for groups in source order, the markdown's `## ` lines are the five sources in order, then the follow-ups heading |
| RadarMain.RunReportsRedditFailure | ai-signal-radar/src/radar.py:223-258 | with the default keywords, a failed r/LocalLLaMA fetch still shows its placeholder line in the line list of the markdown digest |
| RadarScenarios.KeywordAndSinceScenario | ai-signal-radar/src/radar.py:237-252 | keywords `agent, llm` and floor 2024-01-01 keep "New LLM agent framework released" (2024-01-10) and drop "Weather today" |
| RadarScenarios.ScenarioFloor | ai-signal-radar/src/radar.py:211-212 | `--since 2024-01-01` is read as that date |
| RadarScenarios.HackerNewsScenario | ai-signal-radar/src/radar.py:81-90 | hits X (5 points), Y (20 points) and Z (no points) come out as Y, X, Z |
| NewsDigest.PickItem | ai-news-digest/digest.py:56-59 | every field of a picked item is clean; a missing date becomes `""` |
| NewsDigest.PickItems | ai-news-digest/digest.py:53-60 | exactly min(limit, number of entries) items, in entry order, with nothing dropped; each field is the `_clean` of the entry's attribute |
| NewsDigest.PickItemsIdempotent | ai-news-digest/digest.py:53-60 | feeding picked items back through `pick_items` gives the same items |
| NewsDigest.AssembleSections | ai-news-digest/digest.py:95-104 | one section per source, in order; a failed fetch gives an empty section named `<name> (error: <class>)`; every other source keeps its own items |
| NewsDigest.SourceSection | ai-news-digest/digest.py:97-104 | one pass of the loop: a fetched source keeps its picked items under its own name; a failed one gives no items under `<name> (error: <class>)` |
| NewsDigest.ItemLine | ai-news-digest/digest.py:75-77 | an item line is `- [title](link)`, followed by ` — <published>` exactly when the date is non-empty |
| NewsDigest.DigestStructure | ai-news-digest/digest.py:63-87 | read as a line list, the `## ` lines are one per section in order, then the ideas heading; one `- [` line per item; the no-items line once per empty section |
| NewsDigest.DigestPrefixed | ai-news-digest/digest.py:63-87 | the title lines never start with `## `, `- [` or the no-items text, so every such line comes from a section or the ideas block |
| NewsDigest.DigestFrame | ai-news-digest/digest.py:64-87 | the digest starts with the timestamped title and ends with the three build ideas and an empty line |
| NewsDigest.RunHeadings | ai-news-digest/digest.py:28-32 | the headings are the three configured sources in order, each with its error suffix when its fetch failed, then the ideas heading |
| NewsDigest.FailuresAreEmptySections | ai-news-digest/digest.py:100-103 | every failed source contributes an empty section, so the digest has at least as many no-items lines as failed fetches |
| Dates.TimestampText | ai-news-digest/digest.py:64 | `utcnow().replace(microsecond=0).isoformat() + "Z"` is `YYYY-MM-DDTHH:MM:SSZ` with the instant's fields |

## Left out

- Network and parsing: `requests.get`, `raise_for_status`, `feedparser.parse` and `r.json()` are not modelled. Their results, or the exception they raise, are inputs.
- `dateutil.parser.parse` is a parameter. The date shown in markdown and Discord, and the `--since` test, hold for any parser.
- Clocks: `now_utc_date` and `utcnow()` are parameters (the day, the UTC instant).
- The file system: `os.makedirs`, writing the digest, `os.path.abspath` of `--out`, the `--json` dump and printing to stdout. Only the choice of the file path is modelled.
- argparse: the options arrive parsed, in `RadarMain.RunOptions`. The choices check of `--format` is argparse's job. Every other mode string renders markdown, as `render_md` does.
- `RadarMain.SinceOption`: the message text of the `ValueError` is not modelled. Only the rejected text is kept.
- `Dates.FromIsoFormat`: accepts only the `YYYY-MM-DD` form. Newer Python versions also accept forms such as `YYYYMMDD`.
- `Text.Clean`: its own contract states the shape of the result (edges, single spaces, the same visible characters in order). The exact value, the words of the input joined by single spaces, is stated by `TextWords.CleanJoinsWords`.
- Line lists: the structure lemmas count the lines before they are joined with newlines. A link or a failure message is not cleaned and could itself hold a newline.
- `Text.Lower`: applies only the ASCII case mapping. Python's `lower()` also maps non-ASCII letters.
- The emoji, dash, arrow and bullet literals in `radar.py` are UTF-8 text read as Windows-1252. They are kept code point for code point, and no property depends on their exact text.
- `comfy-discord-bot/bot.py` is not part of this model. It is an asynchronous Discord client whose substance is network calls, a polling loop against a wall clock and UUIDs.
- `RadarScenarios.HackerNewsScenario`: a hit with no `url` links to the item page of id `None`. The example does not give URLs.
