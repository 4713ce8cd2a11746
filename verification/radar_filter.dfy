/** The filters of ai-signal-radar: case-insensitive keyword matching with
    its "matches first" mode, the fail-open since-date filter, the parsing
    of the comma-separated keyword option, and their application to every
    group. */
module RadarFilter {
  import opened Options
  import opened Seqs
  import opened Text
  import opened Dates
  import opened RadarItems

  const DefaultKeywords: seq<string> := [
    "llm", "gpt", "model", "ai", "transformer", "clip", "embedding", "rag",
    "fine-tun", "agent", "eval", "benchmark"]

  /** `_matches_keywords`: some keyword, lower-cased, occurs in the
      lower-cased title. */
  function MatchesKeywords(title: string, keywords: seq<string>): (r: bool)
    ensures r <==> exists k :: 0 <= k < |keywords| && Contains(Lower(title), Lower(keywords[k]))
    decreases |keywords|
  {
    if |keywords| == 0 then false
    else if Contains(Lower(title), Lower(keywords[0])) then true
    else
      var rest := MatchesKeywords(title, keywords[1..]);
      assert forall k :: 0 < k < |keywords| ==> keywords[k] == keywords[1..][k - 1];
      rest
  }

  /** The items whose title matches (`wanted`) or does not match the
      keywords, in input order. */
  function Selected(items: seq<Item>, keywords: seq<string>, wanted: bool): (r: seq<Item>)
    ensures IsSubseq(r, items)
    ensures forall it <- r :: MatchesKeywords(it.title, keywords) == wanted
    ensures forall x :: (multiset(r)[x]
      == if MatchesKeywords(x.title, keywords) == wanted then multiset(items)[x] else 0)
    decreases |items|
  {
    if |items| == 0 then []
    else
      var rest := Selected(items[1..], keywords, wanted);
      assert items == [items[0]] + items[1..];
      if MatchesKeywords(items[0].title, keywords) == wanted then
        SubseqCons(items[0], rest, items[1..]);
        [items[0]] + rest
      else
        SubseqSkip(items[0], rest, items[1..]);
        rest
  }

  /** `[it for it in items if it not in filtered]`. */
  function Excluding(items: seq<Item>, filtered: seq<Item>): seq<Item>
    decreases |items|
  {
    if |items| == 0 then []
    else if items[0] !in filtered then [items[0]] + Excluding(items[1..], filtered)
    else Excluding(items[1..], filtered)
  }

  /** When membership in `filtered` coincides with matching, excluding it
      selects the non-matching items. */
  lemma {:induction false} ExcludingIsNonMatching(items: seq<Item>, filtered: seq<Item>, keywords: seq<string>)
    requires forall x <- items :: x in filtered <==> MatchesKeywords(x.title, keywords)
    ensures Excluding(items, filtered) == Selected(items, keywords, false)
    decreases |items|
  {
    if |items| > 0 {
      ExcludingIsNonMatching(items[1..], filtered, keywords);
    }
  }

  /** The Python code removes the matches by structural membership
      (`it not in filtered`), not by position. Equal items have equal titles,
      so this is exactly the non-matching items even when the input holds
      duplicates. */
  lemma ExcludingMatchesSelectsRest(items: seq<Item>, keywords: seq<string>)
    ensures Excluding(items, Selected(items, keywords, true)) == Selected(items, keywords, false)
  {
    var filtered := Selected(items, keywords, true);
    forall x <- items ensures x in filtered <==> MatchesKeywords(x.title, keywords) {
      assert multiset(filtered)[x] == if MatchesKeywords(x.title, keywords) then multiset(items)[x] else 0;
    }
    ExcludingIsNonMatching(items, filtered, keywords);
  }

  /** Matching and non-matching items together are the input. */
  lemma SelectedPartition(items: seq<Item>, keywords: seq<string>)
    ensures multiset(Selected(items, keywords, true)) + multiset(Selected(items, keywords, false))
         == multiset(items)
  {
    var a := multiset(Selected(items, keywords, true));
    var b := multiset(Selected(items, keywords, false));
    forall x ensures (a + b)[x] == multiset(items)[x] {
    }
  }

  /** Every matching item comes before every non-matching one. */
  predicate MatchesFirst(s: seq<Item>, keywords: seq<string>) {
    forall i, j :: 0 <= i < j < |s| && MatchesKeywords(s[j].title, keywords) ==>
      MatchesKeywords(s[i].title, keywords)
  }

  /** Deleting items from a matches-first list leaves it matches-first. */
  lemma {:induction false} SubseqMatchesFirst(a: seq<Item>, b: seq<Item>, keywords: seq<string>)
    requires IsSubseq(a, b) && MatchesFirst(b, keywords)
    ensures MatchesFirst(a, keywords)
    decreases |b|
  {
    if 0 < |b| {
      if IsSubseq(a, b[1..]) {
        SubseqMatchesFirst(a, b[1..], keywords);
      } else {
        var a', b' := a[1..], b[1..];
        SubseqMatchesFirst(a', b', keywords);
        SubseqMultiset(a', b');
        forall i, j | 0 <= i < j < |a| && MatchesKeywords(a[j].title, keywords)
          ensures MatchesKeywords(a[i].title, keywords)
        {
          if i == 0 {
            assert a[j] == a'[j - 1];
            assert a[j] in multiset(b');
            var k :| 0 <= k < |b'| && b'[k] == a[j];
            assert b[k + 1] == a[j];
          } else {
            assert a[i] == a'[i - 1] && a[j] == a'[j - 1];
          }
        }
      }
    }
  }

  /** `filter_by_keywords`. Without keywords the input comes back unchanged.
      Otherwise the default keeps exactly the matching items in input order,
      and `include_all` returns a stable partition: matching items, then the
      others, nothing dropped. */
  function FilterByKeywords(items: seq<Item>, keywords: seq<string>, includeAll: bool): (r: seq<Item>)
    ensures |keywords| == 0 ==> r == items
    ensures 0 < |keywords| && !includeAll ==>
      && IsSubseq(r, items)
      && (forall it <- r :: MatchesKeywords(it.title, keywords))
      && (forall x :: multiset(r)[x]
            == if MatchesKeywords(x.title, keywords) then multiset(items)[x] else 0)
    ensures 0 < |keywords| && includeAll ==>
      && r == Selected(items, keywords, true) + Selected(items, keywords, false)
      && MatchesFirst(r, keywords)
    ensures includeAll ==> multiset(r) == multiset(items) && |r| == |items|
  {
    if |keywords| == 0 then items
    else
      var filtered := Selected(items, keywords, true);
      if includeAll then
        var r := filtered + Excluding(items, filtered);
        ExcludingMatchesSelectsRest(items, keywords);
        SelectedPartition(items, keywords);
        assert |multiset(r)| == |multiset(items)|;
        assert MatchesFirst(r, keywords) by {
          var rest := Selected(items, keywords, false);
          forall k | |filtered| <= k < |r| ensures !MatchesKeywords(r[k].title, keywords) {
            assert r[k] == rest[k - |filtered|];
          }
          forall i, j | 0 <= i < j < |r| && MatchesKeywords(r[j].title, keywords)
            ensures MatchesKeywords(r[i].title, keywords)
          {
            assert r[i] == filtered[i];
          }
        }
        r
      else filtered
  }

  /** The `--since` test for one item: kept when it has no date, an empty
      date, a date the parser rejects, or a date on or after `since`. */
  predicate KeptSince(it: Item, since: CalendarDate, parseDate: string -> Option<CalendarDate>) {
    || it.published.None?
    || it.published.value == ""
    || parseDate(it.published.value).None?
    || OnOrAfter(parseDate(it.published.value).value, since)
  }

  function SinceSelected(items: seq<Item>, since: CalendarDate, parseDate: string -> Option<CalendarDate>): (r: seq<Item>)
    ensures IsSubseq(r, items)
    ensures forall it <- r :: KeptSince(it, since, parseDate)
    ensures forall x :: (multiset(r)[x]
      == if KeptSince(x, since, parseDate) then multiset(items)[x] else 0)
    decreases |items|
  {
    if |items| == 0 then []
    else
      var rest := SinceSelected(items[1..], since, parseDate);
      assert items == [items[0]] + items[1..];
      if KeptSince(items[0], since, parseDate) then
        SubseqCons(items[0], rest, items[1..]);
        [items[0]] + rest
      else
        SubseqSkip(items[0], rest, items[1..]);
        rest
  }

  /** The date filter of `main`, with the date parser as a parameter: a no-op
      without `--since`; otherwise it keeps, in order, exactly the items that
      pass `KeptSince`, so an item is never dropped for a missing or
      unparseable date. */
  function FilterSince(items: seq<Item>, since: Option<CalendarDate>, parseDate: string -> Option<CalendarDate>): (r: seq<Item>)
    ensures since.None? ==> r == items
    ensures IsSubseq(r, items)
    ensures since.Some? ==> forall x :: (multiset(r)[x]
      == if KeptSince(x, since.value, parseDate) then multiset(items)[x] else 0)
    ensures since.Some? ==> forall it <- items ::
      (it.published.None? || it.published.value == "" || parseDate(it.published.value).None?) ==> it in r
  {
    match since
    case None => SubseqRefl(items); items
    case Some(d) =>
      var r := SinceSelected(items, d, parseDate);
      assert forall it <- items :: KeptSince(it, d, parseDate) ==> multiset(r)[it] > 0;
      r
  }

  /** The pieces of `--keywords` after `strip`, blanks dropped. */
  function StrippedPieces(pieces: seq<string>): (r: seq<string>)
    ensures |r| <= |pieces|
    ensures forall k <- r :: k != "" && NoEdgeSpace(k)
    decreases |pieces|
  {
    if |pieces| == 0 then []
    else
      var k := Strip(pieces[0]);
      if k != "" then [k] + StrippedPieces(pieces[1..]) else StrippedPieces(pieces[1..])
  }

  /** Every piece stripped, blanks included. */
  function StripAll(pieces: seq<string>): seq<string> {
    seq(|pieces|, i requires 0 <= i < |pieces| => Strip(pieces[i]))
  }

  /** The kept keywords are the non-blank stripped pieces, in piece order,
      each as often as it occurs among them. */
  lemma {:induction false} StrippedPiecesSelects(pieces: seq<string>)
    ensures IsSubseq(StrippedPieces(pieces), StripAll(pieces))
    ensures forall k ::
      multiset(StrippedPieces(pieces))[k] == if k != "" then multiset(StripAll(pieces))[k] else 0
    decreases |pieces|
  {
    if |pieces| > 0 {
      var rest := StrippedPieces(pieces[1..]);
      var all := StripAll(pieces);
      StrippedPiecesSelects(pieces[1..]);
      assert all == [Strip(pieces[0])] + StripAll(pieces[1..]);
      assert multiset(all) == multiset{Strip(pieces[0])} + multiset(StripAll(pieces[1..]));
      if Strip(pieces[0]) != "" {
        assert StrippedPieces(pieces) == [Strip(pieces[0])] + rest;
        SubseqCons(Strip(pieces[0]), rest, StripAll(pieces[1..]));
      } else {
        assert StrippedPieces(pieces) == rest;
        SubseqSkip(Strip(pieces[0]), rest, StripAll(pieces[1..]));
      }
    }
  }

  /** A substring of a string without `c` has no `c` either. */
  lemma SliceWithout(s: string, c: char, i: int, j: int)
    requires 0 <= i <= j <= |s| && c !in s
    ensures c !in s[i..j]
  {
  }

  /** Stripping a comma-free piece leaves it comma-free. */
  lemma {:induction false} StrippedPiecesNoComma(pieces: seq<string>)
    requires forall p <- pieces :: ',' !in p
    ensures forall k <- StrippedPieces(pieces) :: ',' !in k
    decreases |pieces|
  {
    if |pieces| > 0 {
      StrippedPiecesNoComma(pieces[1..]);
      var i, j :| 0 <= i <= j <= |pieces[0]| && Strip(pieces[0]) == pieces[0][i..j];
      SliceWithout(pieces[0], ',', i, j);
    }
  }

  /** The keyword list of `main`: the built-in list when `--keywords` is
      absent or empty, otherwise the non-blank comma-separated pieces with
      surrounding whitespace stripped. */
  function ParseKeywords(arg: Option<string>): (r: seq<string>)
    ensures arg.None? || arg == Some("") ==> r == DefaultKeywords
    ensures arg.Some? && arg.value != "" ==>
      && |r| <= |Split(arg.value, ',')|
      && (forall k <- r :: k != "" && NoEdgeSpace(k) && ',' !in k)
    ensures arg.Some? && arg.value != "" ==>
      && IsSubseq(r, StripAll(Split(arg.value, ',')))
      && forall k :: multiset(r)[k] == if k != "" then multiset(StripAll(Split(arg.value, ',')))[k] else 0
  {
    if arg.None? || arg.value == "" then DefaultKeywords
    else
      var pieces := Split(arg.value, ',');
      StrippedPiecesNoComma(pieces);
      StrippedPiecesSelects(pieces);
      StrippedPieces(pieces)
  }

  /** Strings without edge whitespace are their own strip. */
  lemma StripFixes(s: string)
    requires NoEdgeSpace(s)
    ensures Strip(s) == s
  {
    if |s| > 0 {
      assert TrimStart(s) == s;
      assert TrimEnd(s) == s;
    }
  }

  lemma {:induction false} StrippedPiecesFixes(ks: seq<string>)
    requires forall i :: 0 <= i < |ks| ==> ks[i] != "" && NoEdgeSpace(ks[i])
    ensures StrippedPieces(ks) == ks
    decreases |ks|
  {
    if |ks| > 0 {
      var tail := ks[1..];
      forall i | 0 <= i < |tail| ensures tail[i] != "" && NoEdgeSpace(tail[i]) {
        assert tail[i] == ks[i + 1];
      }
      StrippedPiecesFixes(tail);
      StrippedPiecesStep(ks);
    }
  }

  /** One step of the fixed-point proof: a stripped non-blank head is kept. */
  lemma StrippedPiecesStep(ks: seq<string>)
    requires 0 < |ks| && ks[0] != "" && NoEdgeSpace(ks[0])
    requires StrippedPieces(ks[1..]) == ks[1..]
    ensures StrippedPieces(ks) == ks
  {
    StripFixes(ks[0]);
    StrippedPiecesCons(ks);
    assert ks == [ks[0]] + ks[1..];
  }

  lemma StrippedPiecesCons(ks: seq<string>)
    requires 0 < |ks| && ks[0] != "" && Strip(ks[0]) == ks[0]
    ensures StrippedPieces(ks) == [ks[0]] + StrippedPieces(ks[1..])
  {
  }

  /** Round trip: writing a list of non-blank, stripped, comma-free keywords
      as one comma-separated option and parsing it gives the list back. */
  lemma KeywordsRoundTrip(keywords: seq<string>)
    requires 0 < |keywords|
    requires forall i :: 0 <= i < |keywords| ==>
      keywords[i] != "" && NoEdgeSpace(keywords[i]) && ',' !in keywords[i]
    ensures ParseKeywords(Some(Join(keywords, ","))) == keywords
  {
    var joined := Join(keywords, ",");
    assert joined != "" by {
      JoinNonEmpty(keywords, ",");
    }
    assert Split(joined, ',') == keywords by {
      assert [','] == ",";
      SplitJoin(keywords, ',');
    }
    assert StrippedPieces(keywords) == keywords by {
      StrippedPiecesFixes(keywords);
    }
    ParseKeywordsUnfold(joined);
  }

  lemma ParseKeywordsUnfold(s: string)
    requires s != ""
    ensures ParseKeywords(Some(s)) == StrippedPieces(Split(s, ','))
  {
  }

  lemma JoinNonEmpty(parts: seq<string>, sep: string)
    requires 0 < |parts| && parts[0] != ""
    ensures Join(parts, sep) != ""
  {
    if |parts| > 1 {
      assert Join(parts, sep) == parts[0] + sep + Join(parts[1..], sep);
    }
  }

  /** Keyword then date filtering of one group, as `main` does per group. */
  function FilterGroup(g: Group, keywords: seq<string>, includeAll: bool,
                       since: Option<CalendarDate>, parseDate: string -> Option<CalendarDate>): (r: Group)
    ensures r.name == g.name
    ensures !includeAll ==> IsSubseq(r.items, g.items)
    ensures forall it <- r.items :: it in g.items
    ensures since.Some? ==> forall it <- r.items :: KeptSince(it, since.value, parseDate)
    ensures 0 < |keywords| && !includeAll ==>
      forall it <- r.items :: MatchesKeywords(it.title, keywords)
    ensures 0 < |keywords| && includeAll ==> MatchesFirst(r.items, keywords)
  {
    var byKeyword := FilterByKeywords(g.items, keywords, includeAll);
    var r := FilterSince(byKeyword, since, parseDate);
    FilterGroupFacts(g.items, byKeyword, r, keywords, includeAll, since, parseDate);
    Group(g.name, r)
  }

  lemma FilterGroupFacts(items: seq<Item>, byKeyword: seq<Item>, r: seq<Item>,
                         keywords: seq<string>, includeAll: bool,
                         since: Option<CalendarDate>, parseDate: string -> Option<CalendarDate>)
    requires byKeyword == FilterByKeywords(items, keywords, includeAll)
    requires r == FilterSince(byKeyword, since, parseDate)
    ensures !includeAll ==> IsSubseq(r, items)
    ensures forall it <- r :: it in items
    ensures since.Some? ==> forall it <- r :: KeptSince(it, since.value, parseDate)
    ensures 0 < |keywords| && includeAll ==> MatchesFirst(r, keywords)
  {
    if 0 < |keywords| && includeAll {
      SubseqMatchesFirst(r, byKeyword, keywords);
    }
    if !includeAll {
      if 0 < |keywords| {
        SubseqTrans(r, byKeyword, items);
      }
    }
    SubseqMultiset(r, byKeyword);
    if !includeAll && 0 < |keywords| {
      SubseqMultiset(byKeyword, items);
    }
    forall it <- r ensures it in items {
      assert it in multiset(byKeyword);
    }
    if since.Some? {
      forall it <- r ensures KeptSince(it, since.value, parseDate) {
        assert multiset(r)[it] > 0;
      }
    }
  }

  /** Nothing the filters should keep is lost: an item stays, as often as
      it occurs, exactly when it passes the keyword test (waived by
      `include_all` or an empty keyword list) and the date test (waived
      without `--since`). */
  lemma FilterGroupSelects(g: Group, keywords: seq<string>, includeAll: bool,
                           since: Option<CalendarDate>, parseDate: string -> Option<CalendarDate>)
    ensures var r := FilterGroup(g, keywords, includeAll, since, parseDate);
      forall x: Item :: multiset(r.items)[x]
        == if (includeAll || |keywords| == 0 || MatchesKeywords(x.title, keywords))
              && (since.None? || KeptSince(x, since.value, parseDate))
           then multiset(g.items)[x] else 0
  {
    var byKeyword := FilterByKeywords(g.items, keywords, includeAll);
    var r := FilterSince(byKeyword, since, parseDate);
    assert FilterGroup(g, keywords, includeAll, since, parseDate).items == r;
    forall x: Item ensures multiset(byKeyword)[x]
      == if includeAll || |keywords| == 0 || MatchesKeywords(x.title, keywords) then multiset(g.items)[x] else 0
    {
    }
  }

  /** The filtering loop of `main`: one output group per input group, same
      names, same order. */
  function FilterGroups(groups: seq<Group>, keywords: seq<string>, includeAll: bool,
                        since: Option<CalendarDate>, parseDate: string -> Option<CalendarDate>): (r: seq<Group>)
    ensures |r| == |groups|
    ensures forall i :: 0 <= i < |r| ==>
      r[i] == FilterGroup(groups[i], keywords, includeAll, since, parseDate)
    decreases |groups|
  {
    if |groups| == 0 then []
    else [FilterGroup(groups[0], keywords, includeAll, since, parseDate)]
         + FilterGroups(groups[1..], keywords, includeAll, since, parseDate)
  }
}
