/** Python's `str.split()` with no argument, and the statement that `_clean`
    is the words of its input joined by single spaces. */
module TextWords {
  import opened Options
  import opened Text

  /** No character of `w` is whitespace. */
  predicate NoWhitespace(w: string) {
    forall i :: 0 <= i < |w| ==> !IsWhitespace(w[i])
  }

  /** The longest prefix of `s` that holds no whitespace. */
  function LeadingWord(s: string): (r: string)
    ensures |r| <= |s| && r == s[..|r|]
    ensures NoWhitespace(r)
    ensures |r| < |s| ==> IsWhitespace(s[|r|])
    decreases |s|
  {
    if |s| == 0 || IsWhitespace(s[0]) then ""
    else
      var w := LeadingWord(s[1..]);
      assert [s[0]] + w == s[..1 + |w|];
      [s[0]] + w
  }

  /** `str.split()`: skip whitespace, take the longest run without any, and
      repeat; no empty word ever appears. */
  function Words(s: string): (r: seq<string>)
    ensures forall w <- r :: w != "" && NoWhitespace(w)
    decreases |s|
  {
    var t := TrimStart(s);
    if t == "" then []
    else
      var w := LeadingWord(t);
      assert |w| > 0;
      [w] + Words(t[|w|..])
  }

  /** A string that starts with non-whitespace is its own `TrimStart`. */
  lemma TrimStartNoLead(s: string)
    requires 0 < |s| ==> !IsWhitespace(s[0])
    ensures TrimStart(s) == s
  {
  }

  /** Leading whitespace does not change the words. */
  lemma WordsTrimStart(s: string)
    ensures Words(TrimStart(s)) == Words(s)
  {
    TrimStartNoLead(TrimStart(s));
  }

  /** Trimming an all-whitespace string leaves nothing. */
  lemma TrimStartAllWhitespace(s: string)
    requires AllWhitespace(s)
    ensures TrimStart(s) == ""
  {
    TrimStartShape(s);
  }

  /** Trimming the front of `s + y` is trimming `s`, unless `s` is all
      whitespace. */
  lemma {:induction false} TrimStartAppend(s: string, y: string)
    requires TrimStart(s) != ""
    ensures TrimStart(s + y) == TrimStart(s) + y
    decreases |s|
  {
    assert 0 < |s|;
    assert (s + y)[0] == s[0];
    if IsWhitespace(s[0]) {
      assert (s + y)[1..] == s[1..] + y;
      TrimStartAppend(s[1..], y);
    }
  }

  /** Trailing whitespace does not lengthen the leading word. */
  lemma {:induction false} LeadingWordAppendSpace(t: string, sp: string)
    requires AllWhitespace(sp)
    ensures LeadingWord(t + sp) == LeadingWord(t)
    decreases |t|
  {
    if |t| == 0 {
      assert t + sp == sp;
    } else {
      assert (t + sp)[0] == t[0];
      if !IsWhitespace(t[0]) {
        assert (t + sp)[1..] == t[1..] + sp;
        LeadingWordAppendSpace(t[1..], sp);
      }
    }
  }

  /** Trailing whitespace does not change the words. */
  lemma {:induction false} WordsAppendSpace(s: string, sp: string)
    requires AllWhitespace(sp)
    ensures Words(s + sp) == Words(s)
    decreases |s|
  {
    var t := TrimStart(s);
    if t == "" {
      TrimStartShape(s);
      assert AllWhitespace(s + sp) by {
        assert s == s[..|s| - |t|];
      }
      TrimStartAllWhitespace(s + sp);
    } else {
      TrimStartAppend(s, sp);
      TrimStartShape(s);
      var w := LeadingWord(t);
      LeadingWordAppendSpace(t, sp);
      assert |w| > 0;
      assert (t + sp)[|w|..] == t[|w|..] + sp;
      WordsAppendSpace(t[|w|..], sp);
    }
  }

  /** Stripping does not change the words. */
  lemma WordsStrip(s: string)
    ensures Words(Strip(s)) == Words(s)
  {
    var t := TrimStart(s);
    var e := TrimEnd(t);
    assert Strip(s) == e;
    TrimEndShape(t);
    assert t == e + t[|e|..];
    WordsAppendSpace(e, t[|e|..]);
    WordsTrimStart(s);
  }

  /** Collapsing passes over a whitespace-free prefix unchanged. */
  lemma {:induction false} CollapseWordPrefix(w: string, y: string)
    requires NoWhitespace(w)
    ensures Collapse(w + y) == w + Collapse(y)
    decreases |w|
  {
    if 0 < |w| {
      assert (w + y)[0] == w[0];
      assert (w + y)[1..] == w[1..] + y;
      CollapseWordPrefix(w[1..], y);
      assert w == [w[0]] + w[1..];
    } else {
      assert w + y == y;
    }
  }

  /** The words of a non-empty string with no edge whitespace, one step:
      the leading word, then the words after the first whitespace run. */
  lemma WordsStep(x: string)
    requires 0 < |x| && NoEdgeSpace(x)
    ensures var w := LeadingWord(x);
      && 0 < |w| && x == w + x[|w|..]
      && Words(x) == [w] + Words(x[|w|..])
  {
    TrimStartNoLead(x);
    var w := LeadingWord(x);
    assert |w| > 0;
    assert x == w + x[|w|..];
  }

  /** After the leading word of a string with no edge whitespace comes
      either nothing or a whitespace run and a shorter such string. */
  lemma RestAfterWord(x: string, w: string)
    requires 0 < |w| < |x| && NoEdgeSpace(x) && w == LeadingWord(x)
    ensures var y := TrimStart(x[|w|..]);
      && 0 < |y| < |x| && NoEdgeSpace(y)
      && Collapse(x[|w|..]) == " " + Collapse(y)
      && Words(x[|w|..]) == Words(y)
  {
    var rest := x[|w|..];
    var y := TrimStart(rest);
    TrimStartShape(rest);
    assert IsWhitespace(rest[0]);
    assert y[|y| - 1] == rest[|rest| - 1] == x[|x| - 1];
    WordsTrimStart(rest);
  }

  /** On a string with no edge whitespace, collapsing whitespace runs is
      joining the words with single spaces. */
  lemma {:induction false} CollapseWords(x: string)
    requires NoEdgeSpace(x)
    ensures Collapse(x) == Join(Words(x), " ")
    decreases |x|
  {
    if 0 < |x| {
      WordsStep(x);
      var w := LeadingWord(x);
      var rest := x[|w|..];
      CollapseWordPrefix(w, rest);
      if |rest| == 0 {
        assert Words(rest) == [];
        assert x == w;
      } else {
        RestAfterWord(x, w);
        var y := TrimStart(rest);
        CollapseWords(y);
        var ys := Words(y);
        assert 0 < |ys| by {
          TrimStartNoLead(y);
        }
        assert ([w] + ys)[1..] == ys;
      }
    }
  }

  /** `_clean` is `" ".join(s.split())` with a missing value read as "":
      the words of the input, in order, separated by exactly one space. */
  lemma CleanJoinsWords(s: Option<string>)
    ensures Clean(s) == Join(Words(s.GetOr("")), " ")
  {
    var raw := s.GetOr("");
    CollapseWords(Strip(raw));
    WordsStrip(raw);
  }
}
