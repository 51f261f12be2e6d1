/** Leftmost substring search and the white-space sets of the two host languages.

  Everything the parsers and the stream reader do rests on one fact: the leftmost
  occurrence of a pattern, once found, stays the leftmost occurrence however much
  text arrives after it.
 */
module Text {

  /** `s` continues with `pat[k..]` at index `i`. */
  predicate Matches(s: string, pat: string, i: nat, k: nat)
    requires k <= |pat| && i + |pat| - k <= |s|
    decreases |s| - i
  {
    k == |pat| || (s[i] == pat[k] && Matches(s, pat, i + 1, k + 1))
  }

  /** `pat` occurs in `s` at index `i`. */
  predicate At(s: string, pat: string, i: nat) {
    i + |pat| <= |s| && Matches(s, pat, i, 0)
  }

  lemma {:induction false} MatchesMeans(s: string, pat: string, i: nat, k: nat)
    requires k <= |pat| && i + |pat| - k <= |s|
    ensures Matches(s, pat, i, k) <==> s[i..i + |pat| - k] == pat[k..]
    decreases |pat| - k
  {
    if k < |pat| {
      MatchesMeans(s, pat, i + 1, k + 1);
      assert pat[k..] == [pat[k]] + pat[k + 1..];
      assert s[i..i + |pat| - k] == [s[i]] + s[i + 1..i + |pat| - k];
    }
  }

  /** Occurring at an index is what slicing says it is. */
  lemma AtMeans(s: string, pat: string, i: nat)
    ensures At(s, pat, i) <==> i + |pat| <= |s| && s[i..i + |pat|] == pat
  {
    if i + |pat| <= |s| {
      MatchesMeans(s, pat, i, 0);
      assert pat[0..] == pat;
    }
  }

  /** `s.find(pat, from)` in Python, `s.indexOf(pat, from)` in JavaScript. */
  function Find(s: string, pat: string, from: nat): (r: int)
    requires pat != []
    ensures r == -1 || from <= r <= |s| - |pat|
    decreases |s| - from
  {
    if from + |pat| > |s| then -1
    else if At(s, pat, from) then from
    else Find(s, pat, from + 1)
  }

  /** What the search returns: the leftmost occurrence, or none at all. */
  lemma {:induction false} FindLeftmost(s: string, pat: string, from: nat)
    requires pat != []
    ensures var r := Find(s, pat, from);
            && (r == -1 ==> forall i: nat :: from <= i ==> !At(s, pat, i))
            && (r != -1 ==> At(s, pat, r) && forall i: nat :: from <= i < r ==> !At(s, pat, i))
    decreases |s| - from
  {
    if from + |pat| <= |s| && !At(s, pat, from) {
      FindLeftmost(s, pat, from + 1);
    }
  }

  /** A Python or JavaScript slice with both bounds in range: empty when crossed. */
  function Slice(s: string, lo: nat, hi: nat): string
    requires lo <= |s| && hi <= |s|
  {
    if lo <= hi then s[lo..hi] else ""
  }

  lemma AtPrefix(p: string, t: string, pat: string, i: nat)
    requires p <= t && i + |pat| <= |p|
    ensures At(p, pat, i) <==> At(t, pat, i)
  {
    AtMeans(p, pat, i);
    AtMeans(t, pat, i);
    assert p == t[..|p|];
    assert p[i..i + |pat|] == t[i..i + |pat|];
  }

  /** An index with the leftmost property is what the search returns. */
  lemma FindIs(s: string, pat: string, from: nat, r: nat)
    requires pat != [] && from <= r && At(s, pat, r)
    requires forall i: nat :: from <= i < r ==> !At(s, pat, i)
    ensures Find(s, pat, from) == r
  {
    FindLeftmost(s, pat, from);
    assert Find(s, pat, from) <= r;
  }

  /** Leftmost search is stable under extension, in both directions. */
  lemma FindStable(p: string, t: string, pat: string, from: nat)
    requires p <= t && pat != []
    ensures Find(p, pat, from) != -1 ==> Find(t, pat, from) == Find(p, pat, from)
    ensures Find(t, pat, from) != -1 && Find(t, pat, from) + |pat| <= |p|
            ==> Find(p, pat, from) == Find(t, pat, from)
  {
    FindLeftmost(p, pat, from);
    FindLeftmost(t, pat, from);
    var f := Find(p, pat, from);
    if f != -1 {
      forall i: nat | from <= i <= f
        ensures At(p, pat, i) <==> At(t, pat, i)
      {
        AtPrefix(p, t, pat, i);
      }
      FindIs(t, pat, from, f);
    }
    var g := Find(t, pat, from);
    if g != -1 && g + |pat| <= |p| {
      forall i: nat | from <= i <= g
        ensures At(p, pat, i) <==> At(t, pat, i)
      {
        AtPrefix(p, t, pat, i);
      }
      FindIs(p, pat, from, g);
    }
  }

  /** Searching a suffix is searching the whole from where the suffix starts. */
  lemma FindShift(a: string, b: string, pat: string, from: nat)
    requires pat != []
    ensures var f := Find(b, pat, from);
            Find(a + b, pat, |a| + from) == if f == -1 then -1 else |a| + f
  {
    var s := a + b;
    forall i: nat | |a| <= i
      ensures At(s, pat, i) <==> At(b, pat, i - |a|)
    {
      AtMeans(s, pat, i);
      AtMeans(b, pat, i - |a|);
      if i + |pat| <= |s| {
        assert s[i..i + |pat|] == b[i - |a|..i - |a| + |pat|];
      }
    }
    FindLeftmost(b, pat, from);
    FindLeftmost(s, pat, |a| + from);
    var f := Find(b, pat, from);
    if f != -1 {
      FindIs(s, pat, |a| + from, |a| + f);
    }
  }

  /** A search may start one later when the pattern cannot begin at `from`. */
  lemma FindSkip(s: string, pat: string, from: nat)
    requires pat != [] && (from < |s| ==> s[from] != pat[0])
    ensures Find(s, pat, from) == Find(s, pat, from + 1)
  {
  }

  /** A one-character pattern is found at the first index holding that character. */
  lemma FindChar(s: string, c: char, from: nat, r: nat)
    requires from <= r < |s| && s[r] == c
    requires forall i :: from <= i < r ==> s[i] != c
    ensures Find(s, [c], from) == r
  {
    assert At(s, [c], r);
    forall i: nat | from <= i < r
      ensures !At(s, [c], i)
    {
    }
    FindIs(s, [c], from, r);
  }

  /** Concatenation of a sequence of strings. */
  function Concat(ss: seq<string>): string {
    if ss == [] then "" else ss[0] + Concat(ss[1..])
  }

  lemma {:induction false} ConcatAppend(xs: seq<string>, ys: seq<string>)
    ensures Concat(xs + ys) == Concat(xs) + Concat(ys)
  {
    if xs == [] {
      assert xs + ys == ys;
    } else {
      assert (xs + ys)[1..] == xs[1..] + ys;
      ConcatAppend(xs[1..], ys);
    }
  }

  // ---------------------------------------------------------------- trimming

  /** What both languages trim. */
  predicate CommonSpace(c: char) {
    || '\t' <= c <= '\r'
    || c == ' ' || c == '\U{00A0}' || c == '\U{1680}' || c == '\U{2028}'
    || c == '\U{2029}' || c == '\U{202F}' || c == '\U{205F}' || c == '\U{3000}'
    || '\U{2000}' <= c <= '\U{200A}'
  }

  /** `str.isspace` as `str.strip` uses it. */
  predicate PythonSpace(c: char) {
    CommonSpace(c) || '\U{001C}' <= c <= '\U{001F}' || c == '\U{0085}'
  }

  /** `String.prototype.trim`: white space and line terminators, and the byte-order mark. */
  predicate ScriptSpace(c: char) {
    CommonSpace(c) || c == '\U{FEFF}'
  }

  function TrimRight(s: string, space: char -> bool): (r: string)
    ensures r <= s
    ensures r != [] ==> !space(r[|r| - 1])
  {
    if s != [] && space(s[|s| - 1]) then TrimRight(s[..|s| - 1], space) else s
  }

  function TrimLeft(s: string, space: char -> bool): (r: string)
    ensures |r| <= |s| && r == s[|s| - |r|..]
    ensures r != [] ==> !space(r[0])
  {
    if s != [] && space(s[0]) then TrimLeft(s[1..], space) else s
  }

  function Trim(s: string, space: char -> bool): string {
    TrimLeft(TrimRight(s, space), space)
  }

  /** Text with no white space at either end is left alone. */
  lemma TrimNothing(s: string, space: char -> bool)
    requires s != [] ==> !space(s[0]) && !space(s[|s| - 1])
    ensures Trim(s, space) == s
  {
  }

  /** One leading white-space character is trimmed and nothing else. */
  lemma TrimLeading(c: char, s: string, space: char -> bool)
    requires space(c) && s != [] && !space(s[0]) && !space(s[|s| - 1])
    ensures Trim([c] + s, space) == s
  {
    var t := [c] + s;
    assert t[|t| - 1] == s[|s| - 1];
    assert TrimRight(t, space) == t;
    assert t[1..] == s;
    assert TrimLeft(t, space) == TrimLeft(s, space);
  }

  // ---------------------------------------------------------------- two trims

  ghost predicate AllSpace(s: string, space: char -> bool) {
    forall i :: 0 <= i < |s| ==> space(s[i])
  }

  lemma {:induction false} TrimRightParts(s: string, space: char -> bool)
    ensures AllSpace(s[|TrimRight(s, space)|..], space)
  {
    if s != [] && space(s[|s| - 1]) {
      var init := s[..|s| - 1];
      TrimRightParts(init, space);
      var n := |TrimRight(init, space)|;
      assert forall i :: n <= i < |init| ==> init[i] == init[n..][i - n] == s[i];
    }
  }

  lemma {:induction false} TrimLeftParts(s: string, space: char -> bool)
    ensures AllSpace(s[..|s| - |TrimLeft(s, space)|], space)
  {
    if s != [] && space(s[0]) {
      TrimLeftParts(s[1..], space);
      var n := |s| - |TrimLeft(s, space)|;
      assert forall i :: 0 < i < n ==> s[i] == s[1..][..n - 1][i - 1];
    }
  }

  /** What trimming cuts off is white space on both sides. */
  lemma TrimParts(s: string, space: char -> bool) returns (before: string, after: string)
    ensures s == before + Trim(s, space) + after && AllSpace(before, space) && AllSpace(after, space)
  {
    var r := TrimRight(s, space);
    TrimRightParts(s, space);
    TrimLeftParts(r, space);
    var t := TrimLeft(r, space);
    before, after := r[..|r| - |t|], s[|r|..];
    hide AllSpace, TrimLeft, TrimRight;
    Halves(r, |r| - |t|);
    Halves(s, |r|);
  }

  lemma Halves(s: string, n: nat)
    requires n <= |s|
    ensures s == s[..n] + s[n..]
  {
  }

  lemma {:induction false} TrimRightOver(s: string, after: string, space: char -> bool)
    requires AllSpace(after, space)
    ensures TrimRight(s + after, space) == TrimRight(s, space)
  {
    if after == "" {
      assert s + after == s;
    } else {
      var n := |after| - 1;
      assert (s + after)[..|s + after| - 1] == s + after[..n];
      TrimRightOver(s, after[..n], space);
    }
  }

  lemma {:induction false} TrimLeftOver(before: string, s: string, space: char -> bool)
    requires AllSpace(before, space)
    ensures TrimLeft(before + s, space) == TrimLeft(s, space)
  {
    if before == "" {
      assert before + s == s;
    } else {
      assert (before + s)[1..] == before[1..] + s;
      TrimLeftOver(before[1..], s, space);
    }
  }

  lemma {:induction false} TrimRightUnder(before: string, s: string, space: char -> bool)
    requires AllSpace(before, space)
    ensures TrimRight(before + s, space)
         == if TrimRight(s, space) == "" then TrimRight(before, space) else before + TrimRight(s, space)
  {
    if s == "" {
      assert before + s == before;
    } else if space(s[|s| - 1]) {
      assert (before + s)[..|before + s| - 1] == before + s[..|s| - 1];
      TrimRightUnder(before, s[..|s| - 1], space);
    }
  }

  /** White space around a text never matters to trimming it. */
  lemma TrimAround(before: string, s: string, after: string, space: char -> bool)
    requires AllSpace(before, space) && AllSpace(after, space)
    ensures Trim(before + s + after, space) == Trim(s, space)
  {
    TrimRightOver(before + s, after, space);
    TrimRightUnder(before, s, space);
    if TrimRight(s, space) == "" {
      assert "" + before == before;
      TrimRightOver("", before, space);
    } else {
      TrimLeftOver(before, TrimRight(s, space), space);
    }
  }

  /** Trimming with a wider notion of white space can start from what a narrower one left. */
  lemma TrimWider(s: string, narrow: char -> bool, wide: char -> bool)
    requires forall c :: narrow(c) ==> wide(c)
    ensures Trim(Trim(s, narrow), wide) == Trim(s, wide)
  {
    var before, after := TrimParts(s, narrow);
    TrimAround(before, Trim(s, narrow), after, wide);
  }

  lemma TrimEdges(s: string, space: char -> bool)
    ensures var r := Trim(s, space); r != "" ==> !space(r[0]) && !space(r[|r| - 1])
  {
    hide TrimLeft, TrimRight;
    var t := TrimRight(s, space);
    var r := TrimLeft(t, space);
    if r != "" { assert r[|r| - 1] == t[|t| - 1]; }
  }

  lemma TrimKeepsFirst(s: string, space: char -> bool)
    requires s != "" && !space(s[0])
    ensures var r := Trim(s, space); r != "" && r[0] == s[0]
  {
    FirstStays(s, space);
    hide TrimRight;
  }

  lemma TrimKeepsLast(s: string, space: char -> bool)
    requires s != "" && !space(s[|s| - 1])
    ensures var r := Trim(s, space); r != "" && r[|r| - 1] == s[|s| - 1]
  {
    assert TrimRight(s, space) == s;
    LastStays(s, space);
  }

  /** Two trims of a text whose ends not both of them trim: they agree exactly when neither trims either. */
  lemma TwoTrims(s: string, p: char -> bool, q: char -> bool)
    requires s != "" && !(p(s[0]) && q(s[0])) && !(p(s[|s| - 1]) && q(s[|s| - 1]))
    ensures Trim(s, p) == Trim(s, q)
      <==> !p(s[0]) && !q(s[0]) && !p(s[|s| - 1]) && !q(s[|s| - 1])
  {
    hide Trim;
    TrimEdges(s, p);
    TrimEdges(s, q);
    if !p(s[0]) { TrimKeepsFirst(s, p); }
    if !q(s[0]) { TrimKeepsFirst(s, q); }
    if !p(s[|s| - 1]) { TrimKeepsLast(s, p); }
    if !q(s[|s| - 1]) { TrimKeepsLast(s, q); }
    if !p(s[0]) && !q(s[0]) && !p(s[|s| - 1]) && !q(s[|s| - 1]) {
      TrimNothing(s, p);
      TrimNothing(s, q);
    }
  }

  lemma {:induction false} FirstStays(s: string, space: char -> bool)
    requires s != "" && !space(s[0])
    ensures TrimRight(s, space) != "" && TrimRight(s, space)[0] == s[0]
  {
    if space(s[|s| - 1]) { FirstStays(s[..|s| - 1], space); }
  }

  lemma {:induction false} LastStays(s: string, space: char -> bool)
    requires s != "" && !space(s[|s| - 1])
    ensures TrimLeft(s, space) != "" && TrimLeft(s, space)[|TrimLeft(s, space)| - 1] == s[|s| - 1]
  {
    if space(s[0]) {
      assert |s| > 1;
      LastStays(s[1..], space);
    }
  }

  /** A character only one of the two languages trims. */
  predicate OneTrims(c: char) {
    PythonSpace(c) != ScriptSpace(c)
  }

  /** What both trim being gone, nothing is left, or neither end is a character that only one trims. */
  predicate TrimmedAlike(s: string) {
    var rest := Trim(s, CommonSpace);
    rest == "" || (!OneTrims(rest[0]) && !OneTrims(rest[|rest| - 1]))
  }

  lemma BothTrim(c: char)
    ensures CommonSpace(c) <==> PythonSpace(c) && ScriptSpace(c)
  {
  }

  /** `str.strip` and `String.prototype.trim` agree exactly on such texts. */
  lemma TrimsAgreeExactly(s: string)
    ensures Trim(s, PythonSpace) == Trim(s, ScriptSpace) <==> TrimmedAlike(s)
  {
    hide Trim, CommonSpace, PythonSpace, ScriptSpace;
    forall c
      ensures CommonSpace(c) <==> PythonSpace(c) && ScriptSpace(c)
    {
      BothTrim(c);
    }
    var rest := Trim(s, CommonSpace);
    TrimWider(s, CommonSpace, PythonSpace);
    TrimWider(s, CommonSpace, ScriptSpace);
    TrimEdges(s, CommonSpace);
    if rest != "" { TwoTrims(rest, PythonSpace, ScriptSpace); }
    if rest == "" { TrimmedEmpty(PythonSpace); TrimmedEmpty(ScriptSpace); }
  }

  lemma TrimmedEmpty(space: char -> bool)
    ensures Trim("", space) == ""
  {
  }

  const BYTE_ORDER_MARK := "\U{FEFF}"

  /** A byte-order mark at the end of a text: one language trims it, the other keeps it. */
  lemma TrimsDiffer(s: string)
    requires s != "" && !PythonSpace(s[0]) && !ScriptSpace(s[0]) && !ScriptSpace(s[|s| - 1])
    ensures Trim(s + BYTE_ORDER_MARK, ScriptSpace) == s
    ensures Trim(s + BYTE_ORDER_MARK, PythonSpace) == s + BYTE_ORDER_MARK
  {
    assert ScriptSpace(BYTE_ORDER_MARK[0]) && !PythonSpace(BYTE_ORDER_MARK[0]);
    hide Trim, CommonSpace, PythonSpace, ScriptSpace;
    var t := s + BYTE_ORDER_MARK;
    assert t[|t| - 1] == BYTE_ORDER_MARK[0];
    TrimNothing(t, PythonSpace);
    TrimNothing(s, ScriptSpace);
    assert "" + s + BYTE_ORDER_MARK == t;
    TrimAround("", s, BYTE_ORDER_MARK, ScriptSpace);
  }
}
