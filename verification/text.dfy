/**
 * The text normaliser `clean_text` (app.py:9-10): every run of whitespace becomes one
 * space and both ends are stripped, plus the
 * two string tests the handler uses, `startswith` and the substring test `in`.
 */
module Text {

  /**
   * Python's whitespace class, shared by `\s` in a `str` pattern and by `str.strip()`:
   * the ASCII controls U+0009 to U+000D and U+001C to U+001F, the space, U+0085, U+00A0,
   * U+1680, U+2000 to U+200A, U+2028, U+2029, U+202F, U+205F and U+3000.
   */
  predicate IsSpace(c: char) {
    || '\U{09}' <= c <= '\U{0D}'
    || '\U{1C}' <= c <= '\U{20}'
    || c == '\U{85}' || c == '\U{A0}' || c == '\U{1680}'
    || '\U{2000}' <= c <= '\U{200A}'
    || c == '\U{2028}' || c == '\U{2029}' || c == '\U{202F}' || c == '\U{205F}' || c == '\U{3000}'
  }

  /** `s` is a run of whitespace, possibly empty. */
  ghost predicate AllSpace(s: string) {
    forall i :: 0 <= i < |s| ==> IsSpace(s[i])
  }

  /** The only whitespace character left in `s` is the plain space. */
  ghost predicate SpacesAreBlanks(s: string) {
    forall i :: 0 <= i < |s| && IsSpace(s[i]) ==> s[i] == ' '
  }

  /** `s` never holds two whitespace characters side by side. */
  ghost predicate NoAdjacentSpaces(s: string) {
    forall i, j :: 0 <= i < j < |s| && j == i + 1 ==> !(IsSpace(s[i]) && IsSpace(s[j]))
  }

  /** `s` neither starts nor ends with whitespace. */
  ghost predicate NoEdgeSpaces(s: string) {
    s == [] || (!IsSpace(s[0]) && !IsSpace(s[|s| - 1]))
  }

  /** What `clean_text` promises of its output. */
  ghost predicate IsClean(s: string) {
    SpacesAreBlanks(s) && NoAdjacentSpaces(s) && NoEdgeSpaces(s)
  }

  /** The non-whitespace characters of `s`, in order. */
  function NonSpace(s: string): string {
    if s == [] then [] else (if IsSpace(s[0]) then [] else [s[0]]) + NonSpace(s[1..])
  }

  /** Python's `s.lstrip()`: drops the longest whitespace prefix. */
  function TrimLeft(s: string): (r: string)
    ensures |r| <= |s|
    ensures s != [] && IsSpace(s[0]) ==> |r| < |s|
  {
    if s != [] && IsSpace(s[0]) then TrimLeft(s[1..]) else s
  }

  /** What `lstrip` removes is whitespace, and what it keeps does not start with whitespace. */
  lemma {:induction false} TrimLeftSpec(s: string)
    ensures TrimLeft(s) == s[|s| - |TrimLeft(s)|..]
    ensures forall i :: 0 <= i < |s| - |TrimLeft(s)| ==> IsSpace(s[i])
    ensures TrimLeft(s) == [] || !IsSpace(TrimLeft(s)[0])
  {
    if s != [] && IsSpace(s[0]) {
      TrimLeftSpec(s[1..]);
    }
  }

  /** Python's `s.rstrip()`: drops the longest whitespace suffix. */
  function TrimRight(s: string): (r: string)
    ensures |r| <= |s|
  {
    if s != [] && IsSpace(s[|s| - 1]) then TrimRight(s[..|s| - 1]) else s
  }

  /** What `rstrip` removes is whitespace, and what it keeps does not end with whitespace. */
  lemma {:induction false} TrimRightSpec(s: string)
    ensures TrimRight(s) == s[..|TrimRight(s)|]
    ensures forall i :: |TrimRight(s)| <= i < |s| ==> IsSpace(s[i])
    ensures TrimRight(s) == [] || !IsSpace(TrimRight(s)[|TrimRight(s)| - 1])
  {
    if s != [] && IsSpace(s[|s| - 1]) {
      TrimRightSpec(s[..|s| - 1]);
    }
  }

  /** Python's `s.strip()`. */
  function Strip(s: string): string {
    TrimRight(TrimLeft(s))
  }

  /** The regular-expression substitution of app.py:10: each maximal whitespace run becomes a single space. */
  function Collapse(s: string): (r: string)
    ensures |r| <= |s|
    decreases |s|
  {
    if s == [] then []
    else if IsSpace(s[0]) then " " + Collapse(TrimLeft(s))
    else [s[0]] + Collapse(s[1..])
  }

  /** After `re.sub`, whitespace is single blanks, and the first character keeps its class. */
  lemma {:induction false} CollapseSpec(s: string)
    ensures Collapse(s) == [] <==> s == []
    ensures s != [] ==> (IsSpace(Collapse(s)[0]) <==> IsSpace(s[0]))
    ensures SpacesAreBlanks(Collapse(s)) && NoAdjacentSpaces(Collapse(s))
    decreases |s|
  {
    if s != [] {
      var t := if IsSpace(s[0]) then TrimLeft(s) else s[1..];
      CollapseSpec(t);
      if IsSpace(s[0]) {
        TrimLeftSpec(s);
      }
    }
  }

  /** `clean_text` (app.py:9-10). */
  function CleanText(s: string): (r: string)
    ensures IsClean(r)
    ensures |r| <= |s|
  {
    CollapseSpec(s);
    StripCleans(Collapse(s));
    Strip(Collapse(s))
  }

  /** Stripping a string whose whitespace is lone blanks leaves a clean string. */
  lemma {:induction false} StripCleans(c: string)
    requires SpacesAreBlanks(c) && NoAdjacentSpaces(c)
    ensures IsClean(Strip(c))
  {
    var l := TrimLeft(c);
    var r := TrimRight(l);
    var k := |c| - |l|;
    assert r == c[k..k + |r|] by {
      TrimLeftSpec(c);
      TrimRightSpec(l);
    }
    assert NoEdgeSpaces(r) by {
      TrimLeftSpec(c);
      TrimRightSpec(l);
      if r != [] {
        assert r[0] == l[0];
      }
    }
    SliceKeepsBlanks(c, k, k + |r|);
  }

  /** A slice of a string without adjacent whitespace, whose whitespace is blanks, keeps both. */
  lemma {:induction false} SliceKeepsBlanks(s: string, lo: nat, hi: nat)
    requires lo <= hi <= |s|
    requires SpacesAreBlanks(s) && NoAdjacentSpaces(s)
    ensures SpacesAreBlanks(s[lo..hi]) && NoAdjacentSpaces(s[lo..hi])
  {
    var t := s[lo..hi];
    forall i, j | 0 <= i < j < |t| && j == i + 1 ensures !(IsSpace(t[i]) && IsSpace(t[j])) {
      assert t[i] == s[lo + i] && t[j] == s[lo + j];
    }
  }

  lemma {:induction false} NonSpaceAppend(a: string, b: string)
    ensures NonSpace(a + b) == NonSpace(a) + NonSpace(b)
  {
    if a != [] {
      assert (a + b)[1..] == a[1..] + b;
      NonSpaceAppend(a[1..], b);
    } else {
      assert a + b == b;
    }
  }

  /** A string made only of whitespace has no non-whitespace characters. */
  lemma {:induction false} NonSpaceOfSpaces(s: string)
    requires AllSpace(s)
    ensures NonSpace(s) == []
  {
    if s != [] {
      NonSpaceOfSpaces(s[1..]);
    }
  }

  lemma {:induction false} TrimLeftKeepsNonSpace(s: string)
    ensures NonSpace(TrimLeft(s)) == NonSpace(s)
  {
    var k := |s| - |TrimLeft(s)|;
    SplitLeading(s);
    NonSpaceAppend(s[..k], TrimLeft(s));
    NonSpaceOfSpaces(s[..k]);
  }

  lemma {:induction false} TrimRightKeepsNonSpace(s: string)
    ensures NonSpace(TrimRight(s)) == NonSpace(s)
  {
    var r := TrimRight(s);
    SplitTrailing(s);
    NonSpaceAppend(r, s[|r|..]);
    NonSpaceOfSpaces(s[|r|..]);
  }

  lemma {:induction false} CollapseKeepsNonSpace(s: string)
    ensures NonSpace(Collapse(s)) == NonSpace(s)
    decreases |s|
  {
    if s == [] {
    } else if IsSpace(s[0]) {
      var t := TrimLeft(s);
      CollapseKeepsNonSpace(t);
      TrimLeftKeepsNonSpace(s);
      NonSpaceAppend(" ", Collapse(t));
    } else {
      CollapseKeepsNonSpace(s[1..]);
      NonSpaceAppend([s[0]], Collapse(s[1..]));
    }
  }

  /** `clean_text` keeps every non-whitespace character of its input, in order, and adds none. */
  lemma {:induction false} CleanTextKeepsNonSpace(s: string)
    ensures NonSpace(CleanText(s)) == NonSpace(s)
  {
    var c := Collapse(s);
    CollapseKeepsNonSpace(s);
    TrimLeftKeepsNonSpace(c);
    TrimRightKeepsNonSpace(TrimLeft(c));
  }

  /** The output is empty exactly when the input is empty or all whitespace. */
  lemma {:induction false} CleanTextEmpty(s: string)
    ensures CleanText(s) == [] <==> NonSpace(s) == []
  {
    CleanTextKeepsNonSpace(s);
    var r := CleanText(s);
    if r != [] {
      assert !IsSpace(r[0]);
      assert NonSpace(r) == [r[0]] + NonSpace(r[1..]);
    }
  }

  /** `re.sub` changes nothing in a string with only single blanks as whitespace. */
  lemma {:induction false} CollapseFixesBlanks(s: string)
    requires SpacesAreBlanks(s) && NoAdjacentSpaces(s)
    ensures Collapse(s) == s
    decreases |s|
  {
    if s != [] {
      TrimLeftSpec(s);
      SliceKeepsBlanks(s, 1, |s|);
      CollapseFixesBlanks(s[1..]);
      if IsSpace(s[0]) {
        assert TrimLeft(s) == s[1..] by {
          if |s| > 1 {
            assert !IsSpace(s[1]);
            assert TrimLeft(s[1..]) == s[1..];
          }
        }
        assert s == " " + s[1..];
      } else {
        assert s == [s[0]] + s[1..];
      }
    }
  }

  /** A clean string is a fixed point of `clean_text`. */
  lemma {:induction false} CleanTextFixesClean(s: string)
    requires IsClean(s)
    ensures CleanText(s) == s
  {
    CollapseFixesBlanks(s);
    assert TrimLeft(s) == s;
    assert TrimRight(s) == s;
  }

  /** `clean_text` is idempotent. */
  lemma {:induction false} CleanTextIdempotent(s: string)
    ensures CleanText(CleanText(s)) == CleanText(s)
  {
    CleanTextFixesClean(CleanText(s));
  }

  /** The substitution copies a whitespace-free prefix unchanged. */
  lemma {:induction false} CollapseWord(w: string, t: string)
    requires forall i :: 0 <= i < |w| ==> !IsSpace(w[i])
    ensures Collapse(w + t) == w + Collapse(t)
  {
    if w != [] {
      assert (w + t)[0] == w[0] && (w + t)[1..] == w[1..] + t;
      CollapseWord(w[1..], t);
      assert w + Collapse(t) == [w[0]] + (w[1..] + Collapse(t));
    } else {
      assert w + t == t && w + Collapse(t) == Collapse(t);
    }
  }

  /** The substitution turns a whitespace run into one blank, in place. */
  lemma {:induction false} CollapseRun(sp: string, t: string)
    requires sp != [] && AllSpace(sp)
    requires t == [] || !IsSpace(t[0])
    ensures Collapse(sp + t) == " " + Collapse(t)
  {
    TrimLeftOfRun(sp, t);
  }

  /** `lstrip` removes a whitespace run in front of text. */
  lemma {:induction false} TrimLeftOfRun(sp: string, t: string)
    requires AllSpace(sp)
    requires t == [] || !IsSpace(t[0])
    ensures TrimLeft(sp + t) == t
  {
    if sp != [] {
      assert (sp + t)[1..] == sp[1..] + t;
      TrimLeftOfRun(sp[1..], t);
    } else {
      assert sp + t == t;
    }
  }

  /** `rstrip` removes a whitespace run after text. */
  lemma {:induction false} TrimRightOfRun(t: string, sp: string)
    requires AllSpace(sp)
    requires t == [] || !IsSpace(t[|t| - 1])
    ensures TrimRight(t + sp) == t
  {
    if sp != [] {
      assert (t + sp)[..|t + sp| - 1] == t + sp[..|sp| - 1];
      TrimRightOfRun(t, sp[..|sp| - 1]);
    } else {
      assert t + sp == t;
    }
  }

  /** A string containing a non-whitespace character keeps its tail through `lstrip`. */
  lemma {:induction false} TrimLeftAppend(a: string, b: string)
    requires NonSpace(a) != []
    ensures TrimLeft(a + b) == TrimLeft(a) + b
  {
    if IsSpace(a[0]) {
      assert (a + b)[1..] == a[1..] + b;
      TrimLeftAppend(a[1..], b);
    }
  }

  /** A string containing a non-whitespace character keeps its head through `rstrip`. */
  lemma {:induction false} TrimRightAppend(a: string, b: string)
    requires NonSpace(b) != []
    ensures TrimRight(a + b) == a + TrimRight(b)
    decreases |b|
  {
    var init, last := b[..|b| - 1], b[|b| - 1];
    if IsSpace(last) {
      assert b == init + [last];
      NonSpaceAppend(init, [last]);
      assert (a + b)[..|a + b| - 1] == a + init;
      TrimRightAppend(a, init);
    }
  }

  /** A string ending in a non-whitespace character has a non-whitespace character. */
  lemma {:induction false} EndsInText(s: string)
    requires s != [] && !IsSpace(s[|s| - 1])
    ensures NonSpace(s) != []
  {
    assert s == s[..|s| - 1] + [s[|s| - 1]];
    NonSpaceAppend(s[..|s| - 1], [s[|s| - 1]]);
  }

  /** The substitution keeps a final non-whitespace character last. */
  lemma {:induction false} CollapseLastChar(s: string)
    requires s != [] && !IsSpace(s[|s| - 1])
    ensures Collapse(s) != [] && Collapse(s)[|Collapse(s)| - 1] == s[|s| - 1]
    decreases |s|
  {
    if IsSpace(s[0]) {
      var t := TrimLeft(s);
      TrimLeftSpec(s);
      assert t[|t| - 1] == s[|s| - 1];
      CollapseLastChar(t);
    } else if |s| > 1 {
      CollapseLastChar(s[1..]);
    }
  }

  /** The substitution works independently on both sides of a non-whitespace character. */
  lemma {:induction false} CollapseAppend(a: string, b: string)
    requires a == [] || !IsSpace(a[|a| - 1])
    ensures Collapse(a + b) == Collapse(a) + Collapse(b)
    decreases |a|
  {
    if a == [] {
      assert a + b == b;
    } else if IsSpace(a[0]) {
      var t := TrimLeft(a);
      TrimLeftSpec(a);
      EndsInText(a);
      TrimLeftAppend(a, b);
      assert t[|t| - 1] == a[|a| - 1];
      CollapseAppend(t, b);
    } else {
      assert (a + b)[1..] == a[1..] + b;
      CollapseAppend(a[1..], b);
    }
  }

  /** Trailing whitespace collapses to at most one blank after the collapsed text. */
  lemma {:induction false} CollapseOfTrailing(x: string)
    requires NonSpace(x) != []
    ensures var x' := TrimRight(x);
      x' != [] && !IsSpace(x'[|x'| - 1]) &&
      Collapse(x) == Collapse(x') + (if |x'| == |x| then [] else " ")
  {
    var x' := TrimRight(x);
    TrimRightSpec(x);
    TrimRightKeepsNonSpace(x);
    var sx := x[|x'|..];
    assert x == x' + sx;
    CollapseAppend(x', sx);
    if sx != [] {
      CollapseRun(sx, []);
      assert sx + [] == sx;
    }
  }

  /** Text followed by whitespace strips to its collapsed text with the front stripped. */
  lemma {:induction false} StripOfTrailing(x: string)
    requires NonSpace(x) != []
    ensures var c := TrimLeft(Collapse(TrimRight(x)));
      Strip(Collapse(x)) == c && c != [] && !IsSpace(c[|c| - 1])
  {
    var x' := TrimRight(x);
    CollapseOfTrailing(x);
    var cx := Collapse(x');
    CollapseLastChar(x');
    EndsInText(cx);
    var c := TrimLeft(cx);
    TrimLeftSpec(cx);
    TrimLeftKeepsNonSpace(cx);
    assert c[|c| - 1] == cx[|cx| - 1];
    var tail := if |x'| == |x| then [] else " ";
    TrimLeftAppend(cx, tail);
    TrimRightOfRun(c, tail);
  }

  /** Whitespace followed by text strips to its collapsed text with the end stripped. */
  lemma {:induction false} StripOfLeading(y: string)
    requires NonSpace(y) != []
    ensures var c := Collapse(TrimLeft(y));
      Strip(Collapse(y)) == TrimRight(c) && c != [] && !IsSpace(c[0])
  {
    var y' := TrimLeft(y);
    TrimLeftSpec(y);
    TrimLeftKeepsNonSpace(y);
    var py := y[..|y| - |y'|];
    assert y == py + y';
    var cy := Collapse(y');
    CollapseSpec(y');
    var lead := if py == [] then [] else " ";
    if py != [] {
      CollapseRun(py, y');
    }
    assert Collapse(y) == lead + cy;
    TrimLeftOfRun(lead, cy);
  }

  /** A string is its `rstrip` followed by whitespace. */
  lemma {:induction false} SplitTrailing(x: string)
    ensures x == TrimRight(x) + x[|TrimRight(x)|..] && AllSpace(x[|TrimRight(x)|..])
  {
    TrimRightSpec(x);
  }

  /** A string is whitespace followed by its `lstrip`. */
  lemma {:induction false} SplitLeading(y: string)
    ensures var k := |y| - |TrimLeft(y)|;
      y == y[..k] + TrimLeft(y) && AllSpace(y[..k])
  {
    TrimLeftSpec(y);
  }

  /** Three whitespace runs in a row make one whitespace run. */
  lemma {:induction false} SpacesConcat(a: string, b: string, c: string)
    requires AllSpace(a) && AllSpace(b) && AllSpace(c)
    ensures AllSpace(a + b + c)
  {
  }

  /** `x + sp + y` is `rstrip(x)`, one whitespace run, and `lstrip(y)`. */
  lemma {:induction false} JoinSplit(x: string, sp: string, y: string)
    requires AllSpace(sp)
    ensures var m := x[|TrimRight(x)|..] + sp + y[..|y| - |TrimLeft(y)|];
      AllSpace(m) && x + sp + y == TrimRight(x) + (m + TrimLeft(y))
  {
    var sx, py := x[|TrimRight(x)|..], y[..|y| - |TrimLeft(y)|];
    assert AllSpace(sx + sp + py) by {
      SplitTrailing(x);
      SplitLeading(y);
      SpacesConcat(sx, sp, py);
    }
    assert x + sp + y == TrimRight(x) + ((sx + sp + py) + TrimLeft(y)) by {
      SplitTrailing(x);
      SplitLeading(y);
    }
  }

  /** The `rstrip` of a string with text ends in text. */
  lemma {:induction false} TrimRightEndsInText(x: string)
    requires NonSpace(x) != []
    ensures TrimRight(x) != [] && !IsSpace(TrimRight(x)[|TrimRight(x)| - 1])
  {
    TrimRightSpec(x);
    TrimRightKeepsNonSpace(x);
  }

  /** The `lstrip` of a string with text starts with text. */
  lemma {:induction false} TrimLeftStartsWithText(y: string)
    requires NonSpace(y) != []
    ensures TrimLeft(y) != [] && !IsSpace(TrimLeft(y)[0])
  {
    TrimLeftSpec(y);
    TrimLeftKeepsNonSpace(y);
  }

  /** Text, a whitespace run and text: the run collapses to one blank between the two collapsed stretches. */
  lemma {:induction false} CollapseJoin(x: string, sp: string, y: string)
    requires NonSpace(x) != [] && NonSpace(y) != []
    requires sp != [] && AllSpace(sp)
    ensures Collapse(x + sp + y) == Collapse(TrimRight(x)) + " " + Collapse(TrimLeft(y))
  {
    var x', y' := TrimRight(x), TrimLeft(y);
    var m := x[|x'|..] + sp + y[..|y| - |y'|];
    JoinSplit(x, sp, y);
    assert Collapse(m + y') == " " + Collapse(y') by {
      TrimLeftStartsWithText(y);
      CollapseRun(m, y');
    }
    assert Collapse(x' + (m + y')) == Collapse(x') + Collapse(m + y') by {
      TrimRightEndsInText(x);
      CollapseAppend(x', m + y');
    }
  }

  /** Stripping two stretches of text joined by a blank strips only the outer ends. */
  lemma {:induction false} StripJoin(a: string, b: string)
    requires NonSpace(a) != [] && NonSpace(b) != []
    ensures Strip(a + " " + b) == TrimLeft(a) + " " + TrimRight(b)
  {
    TrimLeftAppend(a, " " + b);
    assert a + " " + b == a + (" " + b);
    assert TrimLeft(a) + (" " + b) == (TrimLeft(a) + " ") + b;
    TrimRightAppend(TrimLeft(a) + " ", b);
  }

  /** Trimming and collapsing keep the text of a string. */
  lemma {:induction false} CollapseTrimmedKeepsText(x: string)
    ensures NonSpace(Collapse(TrimRight(x))) == NonSpace(x)
    ensures NonSpace(Collapse(TrimLeft(x))) == NonSpace(x)
  {
    TrimRightKeepsNonSpace(x);
    TrimLeftKeepsNonSpace(x);
    CollapseKeepsNonSpace(TrimRight(x));
    CollapseKeepsNonSpace(TrimLeft(x));
  }

  /**
   * `clean_text` of two stretches of text with a whitespace run between them is the
   * cleaned first stretch, one blank, and the cleaned second stretch.
   */
  lemma {:induction false} CleanTextJoin(x: string, sp: string, y: string)
    requires NonSpace(x) != [] && NonSpace(y) != []
    requires sp != [] && AllSpace(sp)
    ensures CleanText(x + sp + y) == CleanText(x) + " " + CleanText(y)
  {
    var cx, cy := Collapse(TrimRight(x)), Collapse(TrimLeft(y));
    CollapseJoin(x, sp, y);
    CollapseTrimmedKeepsText(x);
    CollapseTrimmedKeepsText(y);
    StripJoin(cx, cy);
    StripOfTrailing(x);
    StripOfLeading(y);
  }

  /** Python's `s.startswith(p)`. */
  predicate StartsWith(s: string, p: string) {
    |p| <= |s| && s[..|p|] == p
  }

  /** `pat` occurs in `s` at position `i`. */
  ghost predicate OccursAt(pat: string, s: string, i: int) {
    0 <= i && i + |pat| <= |s| && s[i..i + |pat|] == pat
  }

  /** Python's `pat in s` for strings, by scanning start positions left to right. */
  function Contains(s: string, pat: string): (b: bool)
    ensures b <==> exists i :: OccursAt(pat, s, i)
    decreases |s|
  {
    if |s| < |pat| then false
    else if s[..|pat|] == pat then (assert OccursAt(pat, s, 0); true)
    else
      var b := Contains(s[1..], pat);
      ShiftOccurrence(pat, s);
      b
  }

  lemma {:induction false} ShiftOccurrence(pat: string, s: string)
    requires |pat| <= |s| && s[..|pat|] != pat
    ensures (exists i :: OccursAt(pat, s, i)) <==> (exists i :: OccursAt(pat, s[1..], i))
  {
    if i :| OccursAt(pat, s, i) {
      assert i != 0;
      assert s[1..][i - 1..i - 1 + |pat|] == s[i..i + |pat|];
      assert OccursAt(pat, s[1..], i - 1);
    }
    if i :| OccursAt(pat, s[1..], i) {
      assert s[1..][i..i + |pat|] == s[i + 1..i + 1 + |pat|];
      assert OccursAt(pat, s, i + 1);
    }
  }
}
