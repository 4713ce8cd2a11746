/** String operations the two digest scripts rely on: Python's notion of
    whitespace, `str.strip`, the `_clean` normaliser, ASCII lower-casing,
    substring search, `str.split` on one character and `str.join`. */
module Text {
  import opened Options

  /** Python's `str.isspace()`, which is also what `\s` matches in a `str`
      regular expression: the characters of general category Zs or of
      bidirectional class WS, B or S. */
  predicate IsWhitespace(c: char) {
    var n := c as int;
    (9 <= n <= 13) || (28 <= n <= 32) || n == 0x85 || n == 0xA0 || n == 0x1680
    || (0x2000 <= n <= 0x200A) || n == 0x2028 || n == 0x2029 || n == 0x202F
    || n == 0x205F || n == 0x3000
  }

  /** Every character of `s` is whitespace. */
  predicate AllWhitespace(s: string) {
    forall i :: 0 <= i < |s| ==> IsWhitespace(s[i])
  }

  /** `s` without its leading whitespace. */
  function TrimStart(s: string): (r: string)
    ensures |r| <= |s|
    ensures 0 < |r| ==> !IsWhitespace(r[0])
    decreases |s|
  {
    if 0 < |s| && IsWhitespace(s[0]) then TrimStart(s[1..]) else s
  }

  /** What `TrimStart` keeps is a suffix of its input, and what it drops is
      whitespace. */
  lemma {:induction false} TrimStartShape(s: string)
    ensures var r := TrimStart(s);
      r == s[|s| - |r|..] && AllWhitespace(s[..|s| - |r|])
    decreases |s|
  {
    if 0 < |s| && IsWhitespace(s[0]) {
      TrimStartShape(s[1..]);
      var r := TrimStart(s);
      assert s[1..][..|s| - 1 - |r|] == s[1..|s| - |r|];
    }
  }

  /** `s` without its trailing whitespace. */
  function TrimEnd(s: string): (r: string)
    ensures |r| <= |s|
    ensures 0 < |r| ==> !IsWhitespace(r[|r| - 1])
    decreases |s|
  {
    if 0 < |s| && IsWhitespace(s[|s| - 1]) then TrimEnd(s[..|s| - 1]) else s
  }

  /** What `TrimEnd` keeps is a prefix of its input, and what it drops is
      whitespace. */
  lemma {:induction false} TrimEndShape(s: string)
    ensures var r := TrimEnd(s);
      r == s[..|r|] && AllWhitespace(s[|r|..])
    decreases |s|
  {
    if 0 < |s| && IsWhitespace(s[|s| - 1]) {
      TrimEndShape(s[..|s| - 1]);
      var r := TrimEnd(s);
      assert s[..|s| - 1][|r|..] == s[|r|..|s| - 1];
    }
  }

  /** Python's `str.strip()` with no argument: a slice of `s` with no
      whitespace at either end and the same non-whitespace characters, so
      only whitespace was cut off. */
  function Strip(s: string): (r: string)
    ensures NoEdgeSpace(r)
    ensures exists i, j :: 0 <= i <= j <= |s| && r == s[i..j]
    ensures Visible(r) == Visible(s)
  {
    var t := TrimStart(s);
    var r := TrimEnd(t);
    TrimStartShape(s);
    TrimEndShape(t);
    assert r == s[|s| - |t|..|s| - |t| + |r|];
    TrimStartVisible(s);
    TrimEndVisible(t);
    r
  }

  /** No whitespace at either end. */
  predicate NoEdgeSpace(s: string) {
    |s| == 0 || (!IsWhitespace(s[0]) && !IsWhitespace(s[|s| - 1]))
  }

  /** No two whitespace characters side by side. */
  predicate NoDoubleSpace(s: string) {
    forall i :: 0 < i < |s| ==> !(IsWhitespace(s[i - 1]) && IsWhitespace(s[i]))
  }

  /** Every whitespace character is a plain space. */
  predicate SpacesOnly(s: string) {
    forall i :: 0 <= i < |s| && IsWhitespace(s[i]) ==> s[i] == ' '
  }

  /** The shape `_clean` guarantees. */
  predicate IsClean(s: string) {
    NoEdgeSpace(s) && NoDoubleSpace(s) && SpacesOnly(s)
  }

  /** The non-whitespace characters of `s`, in order. */
  function Visible(s: string): string
    decreases |s|
  {
    if |s| == 0 then ""
    else if IsWhitespace(s[0]) then Visible(s[1..])
    else [s[0]] + Visible(s[1..])
  }

  lemma {:induction false} VisibleAppend(a: string, b: string)
    ensures Visible(a + b) == Visible(a) + Visible(b)
    decreases |a|
  {
    if |a| == 0 {
      assert a + b == b;
    } else {
      assert (a + b)[0] == a[0];
      assert (a + b)[1..] == a[1..] + b;
      VisibleAppend(a[1..], b);
    }
  }

  lemma {:induction false} VisibleOfWhitespace(s: string)
    requires AllWhitespace(s)
    ensures Visible(s) == ""
    decreases |s|
  {
    if |s| > 0 {
      VisibleOfWhitespace(s[1..]);
    }
  }

  /** The regular-expression substitution `re.sub(r"\s+", " ", s)`: every
      maximal run of whitespace becomes one space. */
  function Collapse(s: string): string
    decreases |s|
  {
    if |s| == 0 then ""
    else if IsWhitespace(s[0]) then " " + Collapse(TrimStart(s))
    else [s[0]] + Collapse(s[1..])
  }

  /** Collapsing is empty exactly on the empty string and keeps whether the
      first and the last character are whitespace. */
  lemma {:induction false} CollapseEnds(s: string)
    ensures |Collapse(s)| == 0 <==> |s| == 0
    ensures 0 < |s| ==> (IsWhitespace(Collapse(s)[0]) <==> IsWhitespace(s[0]))
    ensures 0 < |s| ==>
      (IsWhitespace(Collapse(s)[|Collapse(s)| - 1]) <==> IsWhitespace(s[|s| - 1]))
    decreases |s|
  {
    if |s| == 0 {
    } else if IsWhitespace(s[0]) {
      var t := TrimStart(s);
      TrimStartShape(s);
      CollapseEnds(t);
      var c := Collapse(t);
      assert Collapse(s) == " " + c;
      if |t| == 0 {
        assert IsWhitespace(s[|s| - 1]);
      } else {
        assert t[|t| - 1] == s[|s| - 1];
      }
    } else {
      var t := s[1..];
      CollapseEnds(t);
      assert Collapse(s) == [s[0]] + Collapse(t);
      if |t| > 0 {
        assert s[|s| - 1] == t[|t| - 1];
      }
    }
  }

  /** Dropping leading whitespace keeps the non-whitespace characters. */
  lemma TrimStartVisible(s: string)
    ensures Visible(TrimStart(s)) == Visible(s)
  {
    var t := TrimStart(s);
    var k := |s| - |t|;
    TrimStartShape(s);
    assert s == s[..k] + t;
    VisibleAppend(s[..k], t);
    VisibleOfWhitespace(s[..k]);
  }

  /** Dropping trailing whitespace keeps the non-whitespace characters. */
  lemma TrimEndVisible(s: string)
    ensures Visible(TrimEnd(s)) == Visible(s)
  {
    var t := TrimEnd(s);
    TrimEndShape(s);
    assert s == t + s[|t|..];
    VisibleAppend(t, s[|t|..]);
    VisibleOfWhitespace(s[|t|..]);
  }

  /** Collapsing keeps the non-whitespace characters. */
  lemma {:induction false} CollapseVisible(s: string)
    ensures Visible(Collapse(s)) == Visible(s)
    decreases |s|
  {
    if |s| == 0 {
    } else if IsWhitespace(s[0]) {
      var t := TrimStart(s);
      var c := Collapse(t);
      CollapseVisible(t);
      assert Collapse(s) == " " + c;
      VisibleAppend(" ", c);
      assert Visible(" ") == "";
      TrimStartVisible(s);
    } else {
      var t := s[1..];
      CollapseVisible(t);
      assert Collapse(s) == [s[0]] + Collapse(t);
    }
  }

  /** After collapsing, every whitespace character is a plain space. */
  lemma {:induction false} CollapseSpacesOnly(s: string)
    ensures SpacesOnly(Collapse(s))
    decreases |s|
  {
    if |s| > 0 {
      var t := if IsWhitespace(s[0]) then TrimStart(s) else s[1..];
      CollapseSpacesOnly(t);
      var c := Collapse(t);
      var r := Collapse(s);
      assert r[1..] == c;
      forall i | 0 < i < |r| && IsWhitespace(r[i])
        ensures r[i] == ' '
      {
        assert r[i] == c[i - 1];
      }
    }
  }

  /** After collapsing, no two whitespace characters are adjacent. */
  lemma {:induction false} CollapseNoDoubleSpace(s: string)
    ensures NoDoubleSpace(Collapse(s))
    decreases |s|
  {
    if |s| > 0 {
      var t := if IsWhitespace(s[0]) then TrimStart(s) else s[1..];
      CollapseNoDoubleSpace(t);
      CollapseEnds(t);
      var c := Collapse(t);
      var r := Collapse(s);
      assert r[1..] == c;
      assert 1 < |r| ==> !(IsWhitespace(r[0]) && IsWhitespace(r[1])) by {
        if 1 < |r| && IsWhitespace(s[0]) {
          assert r[1] == c[0];
        }
      }
      forall i | 1 < i < |r|
        ensures !(IsWhitespace(r[i - 1]) && IsWhitespace(r[i]))
      {
        assert r[i - 1] == c[i - 2] && r[i] == c[i - 1];
      }
    }
  }

  /** `_clean` (radar.py and digest.py define it identically): a missing
      value becomes "", then the text is stripped and every whitespace run
      becomes one space. */
  function Clean(s: Option<string>): (r: string)
    ensures IsClean(r)
    ensures Visible(r) == Visible(s.GetOr(""))
    ensures s == None ==> r == ""
  {
    var raw := s.GetOr("");
    var stripped := Strip(raw);
    CollapseStripped(stripped);
    Collapse(stripped)
  }

  /** Collapsing a stripped string gives the clean shape and keeps its
      non-whitespace characters. */
  lemma CollapseStripped(s: string)
    requires NoEdgeSpace(s)
    ensures IsClean(Collapse(s)) && Visible(Collapse(s)) == Visible(s)
  {
    CollapseEnds(s);
    CollapseVisible(s);
    CollapseSpacesOnly(s);
    CollapseNoDoubleSpace(s);
  }

  /** A string whose whitespace is already single interior spaces is left
      untouched by the run collapse. */
  lemma {:induction false} CollapseFixes(s: string)
    requires SpacesOnly(s) && NoDoubleSpace(s)
    ensures Collapse(s) == s
    decreases |s|
  {
    if |s| > 0 {
      var t := s[1..];
      CleanShapeTail(s);
      CollapseFixes(t);
      if IsWhitespace(s[0]) {
        TrimSingleSpace(s);
        assert s == " " + t;
      } else {
        assert s == [s[0]] + t;
      }
    }
  }

  /** The clean shape survives dropping the first character. */
  lemma CleanShapeTail(s: string)
    requires 0 < |s| && SpacesOnly(s) && NoDoubleSpace(s)
    ensures SpacesOnly(s[1..]) && NoDoubleSpace(s[1..])
  {
    var t := s[1..];
    forall i | 0 < i < |t| ensures !(IsWhitespace(t[i - 1]) && IsWhitespace(t[i])) {
      assert t[i - 1] == s[i] && t[i] == s[i + 1];
    }
  }

  /** One leading whitespace character followed by a visible one is all
      that `TrimStart` removes. */
  lemma TrimSingleSpace(s: string)
    requires 0 < |s| && IsWhitespace(s[0])
    requires 1 < |s| ==> !IsWhitespace(s[1])
    ensures TrimStart(s) == s[1..]
  {
    assert TrimStart(s) == TrimStart(s[1..]);
    if 1 < |s| {
      assert s[1..][0] == s[1];
    }
  }

  /** A string already in clean shape is a fixed point of `_clean`. */
  lemma CleanFixedPoint(s: string)
    requires IsClean(s)
    ensures Clean(Some(s)) == s
  {
    if 0 < |s| {
      assert TrimStart(s) == s;
      assert TrimEnd(s) == s;
    }
    CollapseFixes(s);
  }

  /** `_clean(_clean(s)) == _clean(s)`. */
  lemma CleanIdempotent(s: Option<string>)
    ensures Clean(Some(Clean(s))) == Clean(s)
  {
    CleanFixedPoint(Clean(s));
  }

  /** A clean string contains no line break. */
  lemma CleanHasNoNewline(s: string)
    requires IsClean(s)
    ensures '\n' !in s
  {
    if '\n' in s {
      var i :| 0 <= i < |s| && s[i] == '\n';
      assert IsWhitespace(s[i]);
    }
  }

  /** ASCII upper-case letters map to lower case; everything else is kept. */
  function LowerChar(c: char): char {
    if 'A' <= c <= 'Z' then (c as int + 32) as char else c
  }

  /** `str.lower()`, restricted to the ASCII case mapping. */
  function Lower(s: string): (r: string)
    ensures |r| == |s|
    ensures forall i :: 0 <= i < |s| ==> r[i] == LowerChar(s[i])
  {
    seq(|s|, i requires 0 <= i < |s| => LowerChar(s[i]))
  }

  predicate StartsWith(s: string, prefix: string) {
    |prefix| <= |s| && s[..|prefix|] == prefix
  }

  /** `needle` occurs in `hay` starting at index `i`. */
  predicate OccursAt(needle: string, hay: string, i: int) {
    0 <= i && i + |needle| <= |hay| && hay[i..i + |needle|] == needle
  }

  /** Python's `needle in hay` for strings: the empty needle is in every
      string. */
  function Contains(hay: string, needle: string): (r: bool)
    ensures r <==> exists i :: OccursAt(needle, hay, i)
    decreases |hay|
  {
    if StartsWith(hay, needle) then
      assert OccursAt(needle, hay, 0);
      true
    else if |hay| == 0 then
      false
    else
      var rest := Contains(hay[1..], needle);
      ContainsShift(hay, needle);
      rest
  }

  /** Occurrences in `hay[1..]` are the occurrences in `hay` after index 0. */
  lemma ContainsShift(hay: string, needle: string)
    requires 0 < |hay| && !StartsWith(hay, needle)
    ensures (exists i :: OccursAt(needle, hay, i)) <==> (exists i :: OccursAt(needle, hay[1..], i))
  {
    if exists i :: OccursAt(needle, hay, i) {
      var i :| OccursAt(needle, hay, i);
      assert hay[0..|needle|] == hay[..|needle|];
      assert i != 0;
      assert hay[1..][i - 1..i - 1 + |needle|] == hay[i..i + |needle|];
      assert OccursAt(needle, hay[1..], i - 1);
    }
    if exists i :: OccursAt(needle, hay[1..], i) {
      var i :| OccursAt(needle, hay[1..], i);
      assert hay[1..][i..i + |needle|] == hay[i + 1..i + 1 + |needle|];
      assert OccursAt(needle, hay, i + 1);
    }
  }

  /** Python's `s.split(sep)` for a one-character separator: always at least
      one piece, and `k` separators give `k + 1` pieces. */
  function Split(s: string, sep: char): (r: seq<string>)
    ensures 0 < |r|
    ensures forall i :: 0 <= i < |r| ==> sep !in r[i]
    decreases |s|
  {
    if |s| == 0 then [""]
    else
      var rest := Split(s[1..], sep);
      if s[0] == sep then [""] + rest
      else [[s[0]] + rest[0]] + rest[1..]
  }

  /** Python's `sep.join(parts)`. */
  function Join(parts: seq<string>, sep: string): string
    decreases |parts|
  {
    if |parts| == 0 then ""
    else if |parts| == 1 then parts[0]
    else parts[0] + sep + Join(parts[1..], sep)
  }

  /** Joining the pieces of a split with the separator gives back the
      original string. */
  lemma {:induction false} JoinSplit(s: string, sep: char)
    ensures Join(Split(s, sep), [sep]) == s
    decreases |s|
  {
    if |s| > 0 {
      var rest := Split(s[1..], sep);
      JoinSplit(s[1..], sep);
      if s[0] == sep {
        assert Split(s, sep) == [""] + rest;
        assert ([""] + rest)[1..] == rest;
      } else {
        var parts := Split(s, sep);
        assert parts == [[s[0]] + rest[0]] + rest[1..];
        if |rest| == 1 {
          assert Join(rest, [sep]) == rest[0];
        } else {
          assert parts[1..] == rest[1..];
          assert Join(rest, [sep]) == rest[0] + [sep] + Join(rest[1..], [sep]);
        }
      }
    }
  }

  /** Splitting a piece that holds no separator, followed by more text. */
  lemma {:induction false} SplitPrefix(p: string, tail: string, sep: char)
    requires sep !in p
    ensures Split(p + tail, sep) == [p + Split(tail, sep)[0]] + Split(tail, sep)[1..]
    decreases |p|
  {
    if |p| > 0 {
      SplitPrefix(p[1..], tail, sep);
      assert (p + tail)[1..] == p[1..] + tail;
      assert (p + tail)[0] == p[0];
      assert [p[0]] + (p[1..] + Split(tail, sep)[0]) == p + Split(tail, sep)[0];
    } else {
      var parts := Split(tail, sep);
      assert p + tail == tail;
      assert p + parts[0] == parts[0];
      assert parts == [parts[0]] + parts[1..];
    }
  }

  /** Splitting a join of separator-free pieces gives back the pieces. */
  lemma {:induction false} SplitJoin(parts: seq<string>, sep: char)
    requires 0 < |parts|
    requires forall i :: 0 <= i < |parts| ==> sep !in parts[i]
    ensures Split(Join(parts, [sep]), sep) == parts
    decreases |parts|
  {
    if |parts| == 1 {
      SplitPrefix(parts[0], "", sep);
      assert parts[0] + "" == parts[0];
    } else {
      var tail := Join(parts[1..], [sep]);
      SplitJoin(parts[1..], sep);
      assert Join(parts, [sep]) == parts[0] + ([sep] + tail);
      SplitPrefix(parts[0], [sep] + tail, sep);
      assert ([sep] + tail)[1..] == tail;
      assert Split([sep] + tail, sep) == [""] + parts[1..];
      assert parts[0] + "" == parts[0];
    }
  }

  /** Joining two non-empty lists of lines. */
  lemma {:induction false} JoinAppend(a: seq<string>, b: seq<string>, sep: string)
    requires 0 < |a| && 0 < |b|
    ensures Join(a + b, sep) == Join(a, sep) + sep + Join(b, sep)
    decreases |a|
  {
    if |a| == 1 {
      assert (a + b)[1..] == b;
    } else {
      JoinAppend(a[1..], b, sep);
      assert (a + b)[1..] == a[1..] + b;
    }
  }

  /** The lines that start with `p`, in order. */
  function Prefixed(lines: seq<string>, p: string): seq<string>
    decreases |lines|
  {
    if |lines| == 0 then []
    else if StartsWith(lines[0], p) then [lines[0]] + Prefixed(lines[1..], p)
    else Prefixed(lines[1..], p)
  }

  lemma {:induction false} PrefixedAppend(a: seq<string>, b: seq<string>, p: string)
    ensures Prefixed(a + b, p) == Prefixed(a, p) + Prefixed(b, p)
    decreases |a|
  {
    if |a| == 0 {
      assert a + b == b;
    } else {
      PrefixedAppend(a[1..], b, p);
      assert (a + b)[1..] == a[1..] + b;
    }
  }

  /** No line starts with `p`: nothing is selected. */
  lemma {:induction false} PrefixedNone(lines: seq<string>, p: string)
    requires forall i :: 0 <= i < |lines| ==> !StartsWith(lines[i], p)
    ensures Prefixed(lines, p) == []
    decreases |lines|
  {
    if |lines| > 0 {
      PrefixedNone(lines[1..], p);
    }
  }

  lemma StartsWithConcat(p: string, x: string)
    ensures StartsWith(p + x, p)
  {
    assert (p + x)[..|p|] == p;
  }

  lemma StartsWithExtend(s: string, p: string, t: string)
    requires StartsWith(s, p)
    ensures StartsWith(s + t, p)
  {
    assert (s + t)[..|p|] == s[..|p|];
  }

  lemma StartsWithTrans(s: string, t: string, p: string)
    requires StartsWith(s, t) && StartsWith(t, p)
    ensures StartsWith(s, p)
  {
    assert s[..|p|] == s[..|t|][..|p|];
  }

  /** A joined text starts with its first piece. */
  lemma JoinStartsWithFirst(parts: seq<string>, sep: string)
    requires 0 < |parts|
    ensures StartsWith(Join(parts, sep), parts[0])
  {
    if 1 < |parts| {
      StartsWithConcat(parts[0], sep);
      StartsWithExtend(parts[0] + sep, parts[0], Join(parts[1..], sep));
    }
  }

  /** A string that differs from `p` at some position within both does not
      start with `p`. */
  lemma StartsDiffer(s: string, p: string, i: nat)
    requires i < |s| && i < |p| && s[i] != p[i]
    ensures !StartsWith(s, p)
  {
  }
}
