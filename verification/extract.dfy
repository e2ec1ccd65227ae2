/**
 * What each scan builds from a single element: the `li` comprehension, the table
 * row/cell loops, the image rewrite and filter, the `dt`/`dd` pairing and the content
 * dispatch of the hierarchical scan (app.py:50-83 and 119-148).
 */
module Extract {
  import opened Wrappers
  import opened Text
  import opened Elements

  /** The cleaned text of every `li`, in order, skipping those that clean to the empty string (app.py:55, 125). */
  function ListItems(lis: seq<string>): (r: seq<string>)
    ensures |r| <= |lis|
    ensures forall k :: 0 <= k < |r| ==> r[k] != ""
  {
    if lis == [] then []
    else
      var c := CleanText(lis[0]);
      (if c != "" then [c] else []) + ListItems(lis[1..])
  }

  /** The items are exactly the non-empty cleaned `li` texts. */
  lemma {:induction false} ListItemsMembers(lis: seq<string>)
    ensures forall x :: x in ListItems(lis) <==> x != "" && exists i :: 0 <= i < |lis| && x == CleanText(lis[i])
  {
    if lis != [] {
      ListItemsMembers(lis[1..]);
      forall x ensures x in ListItems(lis) <==> x != "" && exists i :: 0 <= i < |lis| && x == CleanText(lis[i]) {
        if i :| 1 <= i < |lis| && x == CleanText(lis[i]) {
          assert x == CleanText(lis[1..][i - 1]);
        }
        if i :| 0 <= i < |lis[1..]| && x == CleanText(lis[1..][i]) {
          assert x == CleanText(lis[i + 1]);
        }
      }
    }
  }

  /** The comprehension keeps the document order of the `li` elements. */
  lemma {:induction false} ListItemsAppend(a: seq<string>, b: seq<string>)
    ensures ListItems(a + b) == ListItems(a) + ListItems(b)
  {
    if a == [] {
      assert a + b == b;
    } else {
      assert (a + b)[1..] == a[1..] + b;
      ListItemsAppend(a[1..], b);
    }
  }

  /** The cleaned text of every cell of a row, in column order. */
  function CleanAll(cells: seq<string>): (r: seq<string>)
    ensures |r| == |cells|
    ensures forall k :: 0 <= k < |r| ==> r[k] == CleanText(cells[k])
  {
    seq(|cells|, k requires 0 <= k < |cells| => CleanText(cells[k]))
  }

  /** The table the row/cell loops build: rows with no cell are dropped, cells never are. */
  function TableRows(rows: seq<seq<string>>): (r: seq<seq<string>>)
    ensures |r| <= |rows|
    ensures forall k :: 0 <= k < |r| ==> r[k] != []
  {
    if rows == [] then []
    else
      var last := rows[|rows| - 1];
      TableRows(rows[..|rows| - 1]) + (if last == [] then [] else [CleanAll(last)])
  }

  /** The rows are exactly the cleaned non-empty `tr` rows; a cell that cleans to "" stays. */
  lemma {:induction false} TableRowsMembers(rows: seq<seq<string>>)
    ensures forall row :: row in TableRows(rows) <==> exists i :: 0 <= i < |rows| && rows[i] != [] && row == CleanAll(rows[i])
  {
    if rows != [] {
      var init := rows[..|rows| - 1];
      TableRowsMembers(init);
      forall row ensures row in TableRows(rows) <==> exists i :: 0 <= i < |rows| && rows[i] != [] && row == CleanAll(rows[i]) {
        if i :| 0 <= i < |rows| - 1 && rows[i] != [] && row == CleanAll(rows[i]) {
          assert rows[i] == init[i];
        }
        if i :| 0 <= i < |init| && init[i] != [] && row == CleanAll(init[i]) {
          assert init[i] == rows[i];
        }
      }
    }
  }

  /** The table keeps the document order of its `tr` elements. */
  lemma {:induction false} TableRowsAppend(a: seq<seq<string>>, b: seq<seq<string>>)
    ensures TableRows(a + b) == TableRows(a) + TableRows(b)
    decreases |b|
  {
    if b == [] {
      assert a + b == a;
    } else {
      assert (a + b)[..|a + b| - 1] == a + b[..|b| - 1];
      TableRowsAppend(a, b[..|b| - 1]);
    }
  }

  /** The nested `for row` / `for cell` loops (app.py:75-81 and 128-133). */
  method ExtractTable(rows: seq<seq<string>>) returns (table: seq<seq<string>>)
    ensures table == TableRows(rows)
  {
    table := [];
    for i := 0 to |rows|
      invariant table == TableRows(rows[..i])
    {
      var cells: seq<string> := [];
      for j := 0 to |rows[i]|
        invariant cells == CleanAll(rows[i][..j])
      {
        cells := cells + [CleanText(rows[i][j])];
      }
      assert rows[i][..|rows[i]|] == rows[i];
      if cells != [] {
        table := table + [cells];
      }
      assert rows[..i + 1][..i] == rows[..i];
    }
    assert rows[..|rows|] == rows;
  }

  /** A protocol-relative URL, one starting with `//`, gets the `https:` scheme (app.py:65-66, 138). */
  function RewriteUrl(url: string): (r: string)
    ensures !StartsWith(r, "//")
    ensures r == url || r == "https:" + url
    ensures r == url <==> !StartsWith(url, "//")
  {
    if StartsWith(url, "//") then
      assert ("https:" + url)[0] == 'h';
      "https:" + url
    else url
  }

  /** Rewriting an already rewritten URL changes nothing. */
  lemma {:induction false} RewriteUrlIdempotent(url: string)
    ensures RewriteUrl(RewriteUrl(url)) == RewriteUrl(url)
  {
  }

  /** The inclusion filter: a `thumbimage` class or a Wikimedia Commons path (app.py:69, 140). */
  predicate KeepsImage(url: string, classes: seq<string>) {
    "thumbimage" in classes || Contains(url, "/wikipedia/commons/")
  }

  /** The flat scan's `img` branch (app.py:61-73): no `src`, no image. */
  function FlatImage(img: ImgTag): (r: Option<ImageData>)
    ensures r.Some? <==>
              img.src.Some? &&
              ("thumbimage" in img.classes || exists i :: OccursAt("/wikipedia/commons/", RewriteUrl(img.src.value), i))
    ensures r.Some? ==> r.value.url == RewriteUrl(img.src.value) && r.value.alt == CleanText(img.alt.GetOr(""))
  {
    match img.src
    case None => None
    case Some(src) =>
      var url := RewriteUrl(src);
      if KeepsImage(url, img.classes) then Some(ImageData(url, CleanText(img.alt.GetOr("")))) else None
  }

  /** The `figure` branch (app.py:135-141): a missing `src` is read as the empty URL. */
  function FigureImage(inner: Option<ImgTag>): (r: Option<ContentNode>)
    ensures r.Some? <==>
              inner.Some? &&
              ("thumbimage" in inner.value.classes ||
               exists i :: OccursAt("/wikipedia/commons/", RewriteUrl(inner.value.src.GetOr("")), i))
    ensures r.Some? ==> r.value.ImageNode?
  {
    match inner
    case None => None
    case Some(img) =>
      var url := RewriteUrl(img.src.GetOr(""));
      if KeepsImage(url, img.classes) then Some(ImageNode(url, CleanText(img.alt.GetOr("")))) else None
  }

  /**
   * The two image branches agree on an `img` with a `src`; on one without, the flat scan
   * drops it while a figure keeps it, with the empty URL, exactly when it has `thumbimage`.
   */
  lemma {:induction false} FigureAndFlatImage(img: ImgTag)
    ensures img.src.Some? ==>
              match FlatImage(img)
              case Some(d) => FigureImage(Some(img)) == Some(ImageNode(d.url, d.alt))
              case None => FigureImage(Some(img)) == None
    ensures img.src.None? ==>
              FlatImage(img) == None &&
              FigureImage(Some(img)) == if "thumbimage" in img.classes then Some(ImageNode("", CleanText(img.alt.GetOr("")))) else None
  {
    if img.src.None? {
      assert !Contains("", "/wikipedia/commons/");
    }
  }

  /** The next `dd` sibling of the child at position `i`: the first `dd` after it, if any (app.py:145). */
  function NextDd(children: seq<DlChild>, i: nat): (r: Option<nat>)
    ensures r.Some? ==>
              i < r.value < |children| && children[r.value].Dd? &&
              forall j :: i < j < r.value ==> !children[j].Dd?
    ensures r.None? ==> forall j :: i < j < |children| ==> !children[j].Dd?
    decreases |children| - i
  {
    if i + 1 >= |children| then None
    else if children[i + 1].Dd? then Some(i + 1)
    else NextDd(children, i + 1)
  }

  /** What the `dt` at position `i` contributes: a pair with its next `dd`, or nothing. */
  function PairAt(children: seq<DlChild>, i: nat): seq<Pair>
    requires i < |children|
  {
    match children[i]
    case Dt(term) =>
      (match NextDd(children, i)
       case Some(j) => [Pair(CleanText(term), CleanText(children[j].text))]
       case None => [])
    case _ => []
  }

  /** The pairs contributed by the first `n` children, in document order. */
  function PairsUpTo(children: seq<DlChild>, n: nat): (r: seq<Pair>)
    requires n <= |children|
    ensures |r| <= n
  {
    if n == 0 then [] else PairsUpTo(children, n - 1) + PairAt(children, n - 1)
  }

  /** The pairs of the whole description list. */
  function DlPairs(children: seq<DlChild>): seq<Pair> {
    PairsUpTo(children, |children|)
  }

  /** `p` is the pair of the term at `i` and the description at `j`, the first `dd` after it. */
  ghost predicate PairOfTerm(children: seq<DlChild>, i: nat, j: nat, p: Pair) {
    && i < j < |children|
    && children[i].Dt? && children[j].Dd?
    && (forall m :: i < m < j ==> !children[m].Dd?)
    && p == Pair(CleanText(children[i].text), CleanText(children[j].text))
  }

  /** Every pair comes from a `dt` and the first `dd` after it, both cleaned. */
  lemma {:induction false} PairsFromTerms(children: seq<DlChild>, n: nat)
    requires n <= |children|
    ensures forall p :: p in PairsUpTo(children, n) ==> exists i: nat, j: nat :: i < n && PairOfTerm(children, i, j, p)
  {
    if n > 0 {
      var i := n - 1;
      PairsFromTerms(children, i);
      assert PairsUpTo(children, n) == PairsUpTo(children, i) + PairAt(children, i);
      if children[i].Dt? && NextDd(children, i).Some? {
        var j := NextDd(children, i).value;
        var q := Pair(CleanText(children[i].text), CleanText(children[j].text));
        assert PairAt(children, i) == [q];
        assert PairOfTerm(children, i, j, q);
      } else {
        assert PairAt(children, i) == [];
      }
    }
  }

  /** A description list without any `dd` yields no pair. */
  lemma {:induction false} NoDescriptionNoPairs(children: seq<DlChild>, n: nat)
    requires n <= |children|
    requires forall j :: 0 <= j < |children| ==> !children[j].Dd?
    ensures PairsUpTo(children, n) == []
  {
    if n > 0 {
      NoDescriptionNoPairs(children, n - 1);
      assert NextDd(children, n - 1).None?;
    }
  }

  /** The child at position `i` is a term with a description somewhere after it. */
  ghost predicate Paired(children: seq<DlChild>, i: nat) {
    i < |children| && children[i].Dt? && NextDd(children, i).Some?
  }

  /** The pairs of a shorter prefix of the children come first, unchanged. */
  lemma {:induction false} PairsUpToPrefix(children: seq<DlChild>, m: nat, n: nat)
    requires m <= n <= |children|
    ensures |PairsUpTo(children, m)| <= |PairsUpTo(children, n)|
    ensures PairsUpTo(children, m) == PairsUpTo(children, n)[..|PairsUpTo(children, m)|]
    decreases n - m
  {
    if m < n {
      PairsUpToPrefix(children, m, n - 1);
      PrefixOfAppend(PairsUpTo(children, m), PairsUpTo(children, n - 1), PairAt(children, n - 1));
    }
  }

  /** A prefix of `b` is a prefix of `b + c`. */
  lemma {:induction false} PrefixOfAppend<T>(a: seq<T>, b: seq<T>, c: seq<T>)
    requires |a| <= |b| && a == b[..|a|]
    ensures |a| <= |b + c| && a == (b + c)[..|a|]
  {
    assert (b + c)[..|a|] == b[..|a|];
  }

  /**
   * Every term with a later description yields its pair, placed after the pairs of the
   * terms before it.
   */
  lemma {:induction false} TermYieldsPair(children: seq<DlChild>, i: nat)
    requires Paired(children, i)
    ensures var k := |PairsUpTo(children, i)|;
      k < |DlPairs(children)| &&
      DlPairs(children)[k] == Pair(CleanText(children[i].text), CleanText(children[NextDd(children, i).value].text))
  {
    var p := Pair(CleanText(children[i].text), CleanText(children[NextDd(children, i).value].text));
    var a := PairsUpTo(children, i);
    assert PairAt(children, i) == [p];
    assert PairsUpTo(children, i + 1) == a + [p];
    PairsUpToPrefix(children, i + 1, |children|);
    var all := DlPairs(children);
    assert a + [p] == all[..|a| + 1];
    assert all[|a|] == (a + [p])[|a|];
  }

  /** The paired terms among the first `n` children. */
  ghost function PairedTerms(children: seq<DlChild>, n: nat): set<nat> {
    set i | 0 <= i < n && Paired(children, i)
  }

  /** Counting the positions below `n` that satisfy `p`, one position at a time. */
  lemma {:induction false} CountStep(p: nat -> bool, n: nat)
    requires 0 < n
    ensures |set i | 0 <= i < n && p(i)| == |set i | 0 <= i < n - 1 && p(i)| + (if p(n - 1) then 1 else 0)
  {
    var before, now := set i | 0 <= i < n - 1 && p(i), set i | 0 <= i < n && p(i);
    if p(n - 1) {
      assert now == before + {n - 1};
    } else {
      assert now == before;
    }
  }

  /** Extending the prefix by one child adds that child to the paired terms exactly when it is paired. */
  lemma {:induction false} PairedTermsStep(children: seq<DlChild>, n: nat)
    requires 0 < n
    ensures |PairedTerms(children, n)| == |PairedTerms(children, n - 1)| + (if Paired(children, n - 1) then 1 else 0)
  {
    var p := (i: nat) => Paired(children, i);
    CountStep(p, n);
    assert PairedTerms(children, n) == set i | 0 <= i < n && p(i);
    assert PairedTerms(children, n - 1) == set i | 0 <= i < n - 1 && p(i);
  }

  /** A child contributes one pair if it is a paired term, and none otherwise. */
  lemma {:induction false} PairAtSize(children: seq<DlChild>, i: nat)
    requires i < |children|
    ensures |PairAt(children, i)| == if Paired(children, i) then 1 else 0
  {
  }

  /** There are exactly as many pairs as terms with a later description: each yields one pair. */
  lemma {:induction false} PairsCount(children: seq<DlChild>, n: nat)
    requires n <= |children|
    ensures |PairsUpTo(children, n)| == |PairedTerms(children, n)|
  {
    if n > 0 {
      var k := n - 1;
      var d := if Paired(children, k) then 1 else 0;
      assert |PairsUpTo(children, n)| == |PairsUpTo(children, k)| + d by {
        PairAtSize(children, k);
      }
      assert |PairedTerms(children, n)| == |PairedTerms(children, k)| + d by {
        PairedTermsStep(children, n);
      }
      PairsCount(children, k);
    }
  }

  /** The loop over the terms of a description list (app.py:143-147). */
  method DescriptionPairs(children: seq<DlChild>) returns (pairs: seq<Pair>)
    ensures pairs == DlPairs(children)
  {
    pairs := [];
    for i := 0 to |children|
      invariant pairs == PairsUpTo(children, i)
    {
      if children[i].Dt? {
        var dd := NextDd(children, i);
        if dd.Some? {
          pairs := pairs + [Pair(CleanText(children[i].text), CleanText(children[dd.value].text))];
        }
      }
    }
  }

  /** The `"type"`-specific non-emptiness every section content entry satisfies. */
  ghost predicate NonEmptyContent(c: ContentNode) {
    match c
    case Paragraph(text) => text != ""
    case ListNode(_, items) => items != [] && forall k :: 0 <= k < |items| ==> items[k] != ""
    case TableNode(rows) => rows != [] && forall k :: 0 <= k < |rows| ==> rows[k] != []
    case ImageNode(_, _) => true
    case DescriptionList(pairs) => pairs != []
  }

  /** The content entry the hierarchical scan builds for a non-heading element (app.py:120-148). */
  function ContentOf(e: Element): (r: Option<ContentNode>)
    ensures r.Some? ==> NonEmptyContent(r.value)
    ensures r.Some? ==> e.P? || e.List? || e.Table? || e.Figure? || e.Dl?
    ensures e.P? ==> (r.Some? <==> NonSpace(e.text) != [])
  {
    match e
    case P(text) =>
      CleanTextEmpty(text);
      var t := CleanText(text);
      if t != "" then Some(Paragraph(t)) else None
    case List(kind, lis) =>
      var items := ListItems(lis);
      if items != [] then Some(ListNode(kind, items)) else None
    case Table(rows) =>
      var t := TableRows(rows);
      if t != [] then Some(TableNode(t)) else None
    case Figure(inner) => FigureImage(inner)
    case Dl(children) =>
      var pairs := DlPairs(children);
      if pairs != [] then Some(DescriptionList(pairs)) else None
    case _ => None
  }

  /** The content dispatch as the handler runs it, with the table and `dl` loops. */
  method BuildContent(e: Element) returns (item: Option<ContentNode>)
    ensures item == ContentOf(e)
  {
    match e {
      case Table(rows) =>
        var t := ExtractTable(rows);
        item := if t != [] then Some(TableNode(t)) else None;
      case Dl(children) =>
        var pairs := DescriptionPairs(children);
        item := if pairs != [] then Some(DescriptionList(pairs)) else None;
      case _ =>
        item := ContentOf(e);
    }
  }

  /** A heading's title: the headline span's text if the span exists, else the heading's (app.py:97-98). */
  function HeadingTitle(headline: Option<string>, text: string): (r: string)
    ensures IsClean(r)
    ensures NonSpace(r) == NonSpace(headline.GetOr(text))
    ensures r == "" <==> NonSpace(headline.GetOr(text)) == []
  {
    CleanTextKeepsNonSpace(headline.GetOr(text));
    CleanTextEmpty(headline.GetOr(text));
    CleanText(headline.GetOr(text))
  }
}
