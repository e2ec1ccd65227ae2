/**
 * The flat scan (app.py:41-83): one pass over the `p`, `ul`, `ol`, `img` and `table`
 * elements of the content area, appending to four lists.
 */
module Flat {
  import opened Wrappers
  import opened Text
  import opened Elements
  import opened Extract

  /** `all_paragraphs`, `all_lists`, `all_images`, `all_tables`. */
  datatype FlatData = FlatData(
    paragraphs: seq<string>,
    lists: seq<ListData>,
    images: seq<ImageData>,
    tables: seq<seq<seq<string>>>)

  /** What one element adds to `all_paragraphs` (app.py:50-53). */
  function ParagraphOf(e: Element): seq<string> {
    if e.P? && CleanText(e.text) != "" then [CleanText(e.text)] else []
  }

  /** What one element adds to `all_lists` (app.py:54-60). */
  function ListOf(e: Element): seq<ListData> {
    if e.List? && ListItems(e.items) != [] then [ListData(e.kind, ListItems(e.items))] else []
  }

  /** What one element adds to `all_images` (app.py:61-73). */
  function ImageOf(e: Element): seq<ImageData> {
    if e.Img? && FlatImage(e.img).Some? then [FlatImage(e.img).value] else []
  }

  /** What one element adds to `all_tables` (app.py:74-83). */
  function TableOf(e: Element): seq<seq<seq<string>>> {
    if e.Table? && TableRows(e.rows) != [] then [TableRows(e.rows)] else []
  }

  /** The contributions of `es`, concatenated in document order. */
  function Gather<T>(es: seq<Element>, f: Element -> seq<T>): seq<T> {
    if es == [] then [] else Gather(es[..|es| - 1], f) + f(es[|es| - 1])
  }

  lemma {:induction false} GatherStep<T>(es: seq<Element>, i: nat, f: Element -> seq<T>)
    requires i < |es|
    ensures Gather(es[..i + 1], f) == Gather(es[..i], f) + f(es[i])
  {
    assert es[..i + 1][..i] == es[..i];
  }

  /** The four lists after the scan over `es`. */
  function FlatOf(es: seq<Element>): FlatData {
    FlatData(Gather(es, ParagraphOf), Gather(es, ListOf), Gather(es, ImageOf), Gather(es, TableOf))
  }

  /** The flat `for element in ...` loop. */
  method ExtractFlat(es: seq<Element>) returns (flat: FlatData)
    ensures flat == FlatOf(es)
  {
    var paragraphs: seq<string> := [];
    var lists: seq<ListData> := [];
    var images: seq<ImageData> := [];
    var tables: seq<seq<seq<string>>> := [];
    for i := 0 to |es|
      invariant paragraphs == Gather(es[..i], ParagraphOf)
      invariant lists == Gather(es[..i], ListOf)
      invariant images == Gather(es[..i], ImageOf)
      invariant tables == Gather(es[..i], TableOf)
    {
      GatherStep(es, i, ParagraphOf);
      GatherStep(es, i, ListOf);
      GatherStep(es, i, ImageOf);
      GatherStep(es, i, TableOf);
      match es[i] {
        case P(text) =>
          var t := CleanText(text);
          if t != "" {
            paragraphs := paragraphs + [t];
          }
        case List(kind, lis) =>
          var items := ListItems(lis);
          if items != [] {
            lists := lists + [ListData(kind, items)];
          }
        case Img(img) =>
          var image := FlatImage(img);
          if image.Some? {
            images := images + [image.value];
          }
        case Table(rows) =>
          var t := ExtractTable(rows);
          if t != [] {
            tables := tables + [t];
          }
        case _ =>
      }
    }
    assert es[..|es|] == es;
    flat := FlatData(paragraphs, lists, images, tables);
  }

  /** Each list keeps document order: the scan of `a + b` is the scan of `a`, then of `b`. */
  lemma {:induction false} GatherAppend<T>(a: seq<Element>, b: seq<Element>, f: Element -> seq<T>)
    ensures Gather(a + b, f) == Gather(a, f) + Gather(b, f)
    decreases |b|
  {
    if b == [] {
      assert a + b == a;
    } else {
      assert (a + b)[..|a + b| - 1] == a + b[..|b| - 1];
      GatherAppend(a, b[..|b| - 1], f);
    }
  }

  lemma {:induction false} FlatOfAppend(a: seq<Element>, b: seq<Element>)
    ensures FlatOf(a + b).paragraphs == FlatOf(a).paragraphs + FlatOf(b).paragraphs
    ensures FlatOf(a + b).lists == FlatOf(a).lists + FlatOf(b).lists
    ensures FlatOf(a + b).images == FlatOf(a).images + FlatOf(b).images
    ensures FlatOf(a + b).tables == FlatOf(a).tables + FlatOf(b).tables
  {
    GatherAppend(a, b, ParagraphOf);
    GatherAppend(a, b, ListOf);
    GatherAppend(a, b, ImageOf);
    GatherAppend(a, b, TableOf);
  }

  /** Elements outside the flat scan's filter contribute nothing to any list. */
  lemma {:induction false} OutsideFlatScan(e: Element)
    requires !InFlatScan(e)
    ensures FlatOf([e]) == FlatData([], [], [], [])
  {
    GatherStep([e], 0, ParagraphOf);
    GatherStep([e], 0, ListOf);
    GatherStep([e], 0, ImageOf);
    GatherStep([e], 0, TableOf);
    assert [e][..1] == [e];
  }

  /** An element that contributes nothing to a list leaves that list unchanged, wherever it stands. */
  lemma {:induction false} GatherSkips<T>(a: seq<Element>, h: Element, b: seq<Element>, f: Element -> seq<T>)
    requires f(h) == []
    ensures Gather(a + [h] + b, f) == Gather(a + b, f)
  {
    GatherAppend(a + [h], b, f);
    GatherAppend(a, [h], f);
    GatherAppend(a, b, f);
    assert Gather([h], f) == [] by {
      assert [h][..0] == [];
    }
  }

  /** Headings (and figures, description lists) do not change the flat lists, wherever they stand. */
  lemma {:induction false} FlatIgnoresHeadings(a: seq<Element>, h: Element, b: seq<Element>)
    requires !InFlatScan(h)
    ensures FlatOf(a + [h] + b) == FlatOf(a + b)
  {
    GatherSkips(a, h, b, ParagraphOf);
    GatherSkips(a, h, b, ListOf);
    GatherSkips(a, h, b, ImageOf);
    GatherSkips(a, h, b, TableOf);
  }

  /** Everything every element contributes satisfies `P`, so everything gathered does. */
  lemma {:induction false} GatherAll<T>(es: seq<Element>, f: Element -> seq<T>, P: T -> bool)
    requires forall e, k :: 0 <= k < |f(e)| ==> P(f(e)[k])
    ensures forall k :: 0 <= k < |Gather(es, f)| ==> P(Gather(es, f)[k])
    decreases |es|
  {
    if es != [] {
      GatherAll(es[..|es| - 1], f, P);
    }
  }

  /** The flat lists hold no empty item, in any of the ways the scan guards against. */
  ghost predicate WellFormedFlat(flat: FlatData) {
    && (forall k :: 0 <= k < |flat.paragraphs| ==> flat.paragraphs[k] != "")
    && (forall k :: 0 <= k < |flat.lists| ==>
          flat.lists[k].items != [] && forall j :: 0 <= j < |flat.lists[k].items| ==> flat.lists[k].items[j] != "")
    && (forall k :: 0 <= k < |flat.tables| ==>
          flat.tables[k] != [] && forall j :: 0 <= j < |flat.tables[k]| ==> flat.tables[k][j] != [])
    && (forall k :: 0 <= k < |flat.images| ==> !StartsWith(flat.images[k].url, "//"))
  }

  /**
   * No empty paragraph, no list without items, no empty item, no table without rows, no
   * row without cells, and no protocol-relative image URL survive the flat scan.
   */
  lemma {:induction false} FlatWellFormed(es: seq<Element>)
    ensures WellFormedFlat(FlatOf(es))
  {
    GatherAll(es, ParagraphOf, (t: string) => t != "");
    GatherAll(es, ListOf, (l: ListData) => l.items != [] && forall j :: 0 <= j < |l.items| ==> l.items[j] != "");
    GatherAll(es, TableOf, (t: seq<seq<string>>) => t != [] && forall j :: 0 <= j < |t| ==> t[j] != []);
    GatherAll(es, ImageOf, (d: ImageData) => !StartsWith(d.url, "//"));
  }

  /**
   * The section scan builds an entry from a paragraph, list or table exactly when the flat
   * scan emits one, holding the same text, items or rows; a figure gives its image entry,
   * a description list its pairs when it has any, and headings and bare images nothing.
   */
  lemma {:induction false} SectionContentMatchesFlat(e: Element)
    ensures e.P? ==>
              (ContentOf(e).Some? <==> ParagraphOf(e) != []) &&
              (ParagraphOf(e) != [] ==> ContentOf(e) == Some(Paragraph(ParagraphOf(e)[0])))
    ensures e.List? ==>
              (ContentOf(e).Some? <==> ListOf(e) != []) &&
              (ListOf(e) != [] ==> ContentOf(e) == Some(ListNode(ListOf(e)[0].kind, ListOf(e)[0].items)))
    ensures e.Table? ==>
              (ContentOf(e).Some? <==> TableOf(e) != []) &&
              (TableOf(e) != [] ==> ContentOf(e) == Some(TableNode(TableOf(e)[0])))
    ensures e.Figure? ==> ContentOf(e) == FigureImage(e.inner)
    ensures e.Dl? ==>
              (ContentOf(e).Some? <==> DlPairs(e.children) != []) &&
              (DlPairs(e.children) != [] ==> ContentOf(e) == Some(DescriptionList(DlPairs(e.children))))
    ensures e.Heading? || e.Img? ==> ContentOf(e) == None
  {
  }
}
