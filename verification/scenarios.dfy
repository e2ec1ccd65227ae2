/** Worked examples of the handler's behaviour on small pages. */
module Scenarios {
  import opened Wrappers
  import opened Text
  import opened Request
  import opened Elements
  import opened Extract
  import opened Sections

  ghost predicate Blanks(sp: string) {
    sp != [] && AllSpace(sp)
  }

  ghost predicate Word(w: string) {
    w != [] && forall i :: 0 <= i < |w| ==> !IsSpace(w[i])
  }

  /** A word without whitespace is already clean. */
  lemma {:induction false} CleanWord(w: string)
    requires Word(w)
    ensures CleanText(w) == w
  {
    CleanTextFixesClean(w);
  }

  /** A word followed by a whitespace run collapses to the word and one blank. */
  lemma {:induction false} CollapseWordRun(w: string, sp: string, t: string)
    requires Word(w) && Blanks(sp)
    requires t == [] || !IsSpace(t[0])
    ensures Collapse(w + sp + t) == w + " " + Collapse(t)
  {
    CollapseRun(sp, t);
    CollapseWord(w, sp + t);
    assert w + sp + t == w + (sp + t);
  }

  /** The substitution alone: every run, at the ends too, becomes one blank. */
  lemma {:induction false} CollapseTwoWords(a: string, w1: string, b: string, w2: string, c: string)
    requires Blanks(a) && Word(w1) && Blanks(b) && Word(w2) && Blanks(c)
    ensures Collapse(a + w1 + b + w2 + c) == " " + (w1 + " " + w2 + " ")
  {
    assert Collapse(w2 + c + []) == w2 + " " by {
      CollapseWordRun(w2, c, []);
    }
    assert Collapse(w1 + b + (w2 + c)) == w1 + " " + (w2 + " ") by {
      assert w2 + c + [] == w2 + c;
      CollapseWordRun(w1, b, w2 + c);
    }
    CollapseRun(a, w1 + b + (w2 + c));
    assert a + (w1 + b + (w2 + c)) == a + w1 + b + w2 + c;
  }

  /** Two words padded and separated by whitespace runs come out separated by one blank. */
  lemma {:induction false} CleanTwoWords(a: string, w1: string, b: string, w2: string, c: string)
    requires Blanks(a) && Word(w1) && Blanks(b) && Word(w2) && Blanks(c)
    ensures CleanText(a + w1 + b + w2 + c) == w1 + " " + w2
  {
    var u := w1 + " " + w2;
    CollapseTwoWords(a, w1, b, w2, c);
    assert TrimLeft(" " + (u + " ")) == u + " " by {
      assert (u + " ")[0] == w1[0];
      TrimLeftOfRun(" ", u + " ");
    }
    assert TrimRight(u + " ") == u by {
      assert u[|u| - 1] == w2[|w2| - 1];
      TrimRightOfRun(u, " ");
    }
  }

  lemma {:induction false} CleanExtraText()
    ensures CleanText("  extra   text  ") == "extra text"
  {
    var sp2, sp3, w1, w2 := "  ", "   ", "extra", "text";
    assert Blanks(sp2) && Blanks(sp3) && Word(w1) && Word(w2);
    CleanTwoWords(sp2, w1, sp3, w2, sp2);
    assert sp2 + w1 + sp3 + w2 + sp2 == "  extra   text  ";
    assert w1 + " " + w2 == "extra text";
  }

  lemma {:induction false} HeadingStep(st: BuildState, level: Digit, headline: Option<string>, text: string)
    requires StackInBounds(st) && HeadingTitle(headline, text) != ""
    ensures Step(st, Heading(level, headline, text)) == Open(st, level, HeadingTitle(headline, text))
  {
  }

  lemma {:induction false} ParagraphStep(st: BuildState, t: string)
    requires StackInBounds(st) && st.stack != [] && CleanText(t) != ""
    ensures Step(st, P(t)) == AddContent(st, Paragraph(CleanText(t)))
  {
  }

  lemma {:induction false} RunSnoc(es: seq<Element>, e: Element)
    ensures Run(es + [e]) == Step(Run(es), e)
  {
    assert (es + [e])[..|es|] == es;
  }

  lemma {:induction false} OpensFirst(title: string)
    requires title != "" && IsClean(title)
    ensures Step(Initial, Heading(2, Some(title), title)) == BuildState([Node(title, 2, [], [])], [0], [0])
  {
    CleanTextFixesClean(title);
    HeadingStep(Initial, 2, Some(title), title);
  }

  lemma {:induction false} AddsIntro(title: string, intro: string)
    requires intro != "" && IsClean(intro)
    ensures Step(BuildState([Node(title, 2, [], [])], [0], [0]), P(intro)) ==
            BuildState([Node(title, 2, [Paragraph(intro)], [])], [0], [0])
  {
    var st := BuildState([Node(title, 2, [], [])], [0], [0]);
    CleanTextFixesClean(intro);
    ParagraphStep(st, intro);
    assert [] + [Paragraph(intro)] == [Paragraph(intro)];
    assert AddContent(st, Paragraph(intro)).nodes == [Node(title, 2, [Paragraph(intro)], [])];
  }

  lemma {:induction false} OpensSub(title: string, intro: string, sub: string)
    requires sub != "" && IsClean(sub)
    ensures Step(BuildState([Node(title, 2, [Paragraph(intro)], [])], [0], [0]), Heading(3, None, sub)) ==
            BuildState([Node(title, 2, [Paragraph(intro)], [1]), Node(sub, 3, [], [])], [0], [0, 1])
  {
    var st := BuildState([Node(title, 2, [Paragraph(intro)], [])], [0], [0]);
    assert Open(st, 3, sub) == BuildState([Node(title, 2, [Paragraph(intro)], [1]), Node(sub, 3, [], [])], [0], [0, 1]) by {
      assert PopClosed(st.nodes, st.stack, 3) == [0];
      assert [] + [1] == [1];
      assert Open(st, 3, sub).nodes == [Node(title, 2, [Paragraph(intro)], [1]), Node(sub, 3, [], [])];
    }
    assert Step(st, Heading(3, None, sub)) == Open(st, 3, sub) by {
      CleanTextFixesClean(sub);
      HeadingStep(st, 3, None, sub);
    }
  }

  lemma {:induction false} AddsText(title: string, intro: string, sub: string, text: string)
    requires CleanText(text) != ""
    ensures Step(BuildState([Node(title, 2, [Paragraph(intro)], [1]), Node(sub, 3, [], [])], [0], [0, 1]), P(text)) ==
            BuildState([Node(title, 2, [Paragraph(intro)], [1]), Node(sub, 3, [Paragraph(CleanText(text))], [])], [0], [0, 1])
  {
    var st := BuildState([Node(title, 2, [Paragraph(intro)], [1]), Node(sub, 3, [], [])], [0], [0, 1]);
    ParagraphStep(st, text);
    assert [] + [Paragraph(CleanText(text))] == [Paragraph(CleanText(text))];
    assert AddContent(st, Paragraph(CleanText(text))).nodes ==
           [Node(title, 2, [Paragraph(intro)], [1]), Node(sub, 3, [Paragraph(CleanText(text))], [])];
  }

  lemma {:induction false} ReadsOffTree(title: string, intro: string, sub: string, c: string)
    ensures var nodes := [Node(title, 2, [Paragraph(intro)], [1]), Node(sub, 3, [Paragraph(c)], [])];
      ArenaOrdered(nodes) &&
      ToSections(nodes, [0], -1) == [Section(title, 2, [Paragraph(intro)], [Section(sub, 3, [Paragraph(c)], [])])]
  {
    var nodes := [Node(title, 2, [Paragraph(intro)], [1]), Node(sub, 3, [Paragraph(c)], [])];
    assert ToSection(nodes, 1) == Section(sub, 3, [Paragraph(c)], []);
    assert ToSections(nodes, [1], 0) == [Section(sub, 3, [Paragraph(c)], [])];
  }

  lemma {:induction false} RunsFirst(title: string)
    requires title != "" && IsClean(title)
    ensures Run([Heading(2, Some(title), title)]) == BuildState([Node(title, 2, [], [])], [0], [0])
  {
    var e1 := Heading(2, Some(title), title);
    RunSnoc([], e1);
    assert [] + [e1] == [e1];
    OpensFirst(title);
  }

  lemma {:induction false} RunsTwo(title: string, intro: string)
    requires title != "" && IsClean(title) && intro != "" && IsClean(intro)
    ensures Run([Heading(2, Some(title), title), P(intro)]) == BuildState([Node(title, 2, [Paragraph(intro)], [])], [0], [0])
  {
    var e1, e2 := Heading(2, Some(title), title), P(intro);
    RunsFirst(title);
    RunSnoc([e1], e2);
    assert [e1] + [e2] == [e1, e2];
    AddsIntro(title, intro);
  }

  lemma {:induction false} RunsThree(title: string, intro: string, sub: string)
    requires title != "" && IsClean(title) && intro != "" && IsClean(intro) && sub != "" && IsClean(sub)
    ensures Run([Heading(2, Some(title), title), P(intro), Heading(3, None, sub)]) ==
            BuildState([Node(title, 2, [Paragraph(intro)], [1]), Node(sub, 3, [], [])], [0], [0, 1])
  {
    var e1, e2, e3 := Heading(2, Some(title), title), P(intro), Heading(3, None, sub);
    RunsTwo(title, intro);
    RunSnoc([e1, e2], e3);
    assert [e1, e2] + [e3] == [e1, e2, e3];
    OpensSub(title, intro, sub);
  }

  lemma {:induction false} RunsFour(title: string, intro: string, sub: string, text: string)
    requires title != "" && IsClean(title) && intro != "" && IsClean(intro) && sub != "" && IsClean(sub)
    requires CleanText(text) != ""
    ensures Run([Heading(2, Some(title), title), P(intro), Heading(3, None, sub), P(text)]) ==
            BuildState([Node(title, 2, [Paragraph(intro)], [1]), Node(sub, 3, [Paragraph(CleanText(text))], [])], [0], [0, 1])
  {
    var e1, e2, e3, e4 := Heading(2, Some(title), title), P(intro), Heading(3, None, sub), P(text);
    RunsThree(title, intro, sub);
    RunSnoc([e1, e2, e3], e4);
    assert [e1, e2, e3] + [e4] == [e1, e2, e3, e4];
    AddsText(title, intro, sub, text);
  }

  /**
   * A level-2 heading with a paragraph, then a level-3 heading with a paragraph: one
   * top-level section holding the first paragraph and, as its subsection, the second.
   */
  lemma {:induction false} NestedSections(title: string, intro: string, sub: string, text: string)
    requires title != "" && IsClean(title) && sub != "" && IsClean(sub)
    requires intro != "" && IsClean(intro) && CleanText(text) != ""
    ensures Forest(Run([Heading(2, Some(title), title), P(intro), Heading(3, None, sub), P(text)])) ==
            [Section(title, 2, [Paragraph(intro)], [Section(sub, 3, [Paragraph(CleanText(text))], [])])]
  {
    RunsFour(title, intro, sub, text);
    ReadsOffTree(title, intro, sub, CleanText(text));
  }

  /** The same page with concrete text: "History" holds "Intro text." and its subsection "Sub" holds "extra text". */
  lemma {:induction false} HistoryExample()
    ensures Forest(Run([Heading(2, Some("History"), "History"), P("Intro text."), Heading(3, None, "Sub"), P("  extra   text  ")])) ==
            [Section("History", 2, [Paragraph("Intro text.")], [Section("Sub", 3, [Paragraph("extra text")], [])])]
  {
    ExampleTitlesClean();
    CleanExtraText();
    NestedSections("History", "Intro text.", "Sub", "  extra   text  ");
  }

  lemma {:induction false} ExampleTitlesClean()
    ensures IsClean("History") && IsClean("Intro text.") && IsClean("Sub")
  {
  }

  /** A request without `url`, or with an empty one, is refused as missing its parameter. */
  lemma {:induction false} MissingUrlExample()
    ensures ValidateUrl(None) == Failure(MissingUrl)
    ensures ValidateUrl(Some("")) == Failure(MissingUrl)
  {
  }

  /** A URL of another site is refused. */
  lemma {:induction false} OtherSiteExample(other: string)
    requires other == "https://example.com/page"
    ensures ValidateUrl(Some(other)) == Failure(InvalidUrl)
  {
    assert forall i :: 0 <= i < |other| ==> other[i] != Domain[0];
    AbsentFirstChar(Domain, other);
  }

  /** A pattern whose first character never appears in `s` does not occur in it. */
  lemma {:induction false} AbsentFirstChar(pat: string, s: string)
    requires pat != [] && forall i :: 0 <= i < |s| ==> s[i] != pat[0]
    ensures !exists i :: OccursAt(pat, s, i)
  {
    forall i | OccursAt(pat, s, i)
      ensures s[i] == pat[0]
    {
      assert s[i..i + |pat|][0] == s[i];
    }
  }

  /** A Wikipedia URL passes unchanged. */
  lemma {:induction false} WikipediaUrlExample(u: string)
    requires u == "https://en.wikipedia.org/wiki/Dafny"
    ensures ValidateUrl(Some(u)) == Success(u)
  {
    var pre, post := "https://en.", "/wiki/Dafny";
    assert pre + Domain + post == u;
    assert (pre + Domain + post)[|pre|..|pre| + |Domain|] == Domain;
    assert OccursAt(Domain, u, |pre|);
  }

  /** A protocol-relative thumbnail is kept with an `https:` URL; a bare icon is dropped. */
  lemma {:induction false} ImageExamples()
    ensures FlatImage(ImgTag(Some("//upload.wikimedia.org/x.png"), None, ["thumbimage"])) ==
            Some(ImageData("https://upload.wikimedia.org/x.png", ""))
    ensures FlatImage(ImgTag(Some("/static/icon.png"), Some("icon"), [])) == None
  {
    var src := "//upload.wikimedia.org/x.png";
    assert StartsWith(src, "//");
    assert "https:" + src == "https://upload.wikimedia.org/x.png";
    assert CleanText("") == "";
    var icon := "/static/icon.png";
    assert icon[..2][1] == 's';
    assert !StartsWith(icon, "//");
    assert !Contains(icon, "/wikipedia/commons/") by {
      assert |icon| < |"/wikipedia/commons/"|;
    }
  }

  /** A two-by-two table whose cells are all clean already comes out as it went in. */
  lemma {:induction false} CleanRowsKept(h1: string, h2: string, d1: string, d2: string)
    requires CleanText(h1) == h1 && CleanText(h2) == h2 && CleanText(d1) == d1 && CleanText(d2) == d2
    ensures TableRows([[h1, h2], [d1, d2]]) == [[h1, h2], [d1, d2]]
  {
    var rows := [[h1, h2], [d1, d2]];
    assert rows[..1] == [[h1, h2]] && rows[..1][..0] == [];
    assert CleanAll([h1, h2]) == [h1, h2];
    assert CleanAll([d1, d2]) == [d1, d2];
  }

  /** A header row and a data row of two cells each give one table of two rows. */
  lemma {:induction false} TableExample()
    ensures TableRows([["H1", "H2"], ["D1", "D2"]]) == [["H1", "H2"], ["D1", "D2"]]
  {
    CleanWord("H1");
    CleanWord("H2");
    CleanWord("D1");
    CleanWord("D2");
    CleanRowsKept("H1", "H2", "D1", "D2");
  }

  /** Two terms before one description both pair with it: the next `dd` sibling need not be adjacent. */
  lemma {:induction false} DescriptionExample()
    ensures DlPairs([Dt("A"), Dt("B"), Dd("x")]) == [Pair("A", "x"), Pair("B", "x")]
  {
    CleanWord("A");
    CleanWord("B");
    CleanWord("x");
    var cs := [Dt("A"), Dt("B"), Dd("x")];
    assert NextDd(cs, 0) == Some(2);
    assert NextDd(cs, 1) == Some(2);
    assert PairsUpTo(cs, 1) == [Pair("A", "x")];
    assert PairsUpTo(cs, 2) == [Pair("A", "x"), Pair("B", "x")];
  }
}
