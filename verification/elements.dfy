/**
 * The parsed page as the two scans see it, and the JSON values they produce.
 *
 * The HTML parser is outside the model: each scan's tag search is given as one
 * document-ordered sequence of `Element`s, each carrying exactly what the handler reads
 * from that tag through the parser (its text, its `li`/`tr`/`th`/`td`/`img`/`dt`/`dd`
 * descendants, its attributes).
 */
module Elements {
  import opened Wrappers

  /** The level of a heading: the digit that follows the `h` of its tag name (app.py:96). */
  type Digit = d: nat | d <= 9

  /** `ul` or `ol`, emitted as `"list_type"`. */
  datatype ListKind = Ul | Ol

  /** An `img` tag: `src` and `alt` may be missing, `class` is a list of class names. */
  datatype ImgTag = ImgTag(src: Option<string>, alt: Option<string>, classes: seq<string>)

  /** A direct child of a `dl`: a term, a description, or any other tag. */
  datatype DlChild = Dt(text: string) | Dd(text: string) | OtherChild

  datatype Element =
    /** `h<d>`; `headline` is the text of its `span.mw-headline`, when it has one. */
    | Heading(level: Digit, headline: Option<string>, text: string)
    | P(text: string)
    /** `ul`/`ol` with the text of every `li` below it, in document order. */
    | List(kind: ListKind, items: seq<string>)
    /** `table` with, for every `tr` below it, the text of its `th`/`td` cells. */
    | Table(rows: seq<seq<string>>)
    | Img(img: ImgTag)
    /** `figure` with its first `img` descendant, if any. */
    | Figure(inner: Option<ImgTag>)
    | Dl(children: seq<DlChild>)

  /** The flat scan's filter: paragraphs, both list kinds, images and tables (app.py:49). */
  predicate InFlatScan(e: Element) {
    e.P? || e.List? || e.Img? || e.Table?
  }

  /** The hierarchical scan's filter: headings, `p`, `ul`, `ol`, `table`, `figure`, `dl` (app.py:90). */
  predicate InSectionScan(e: Element) {
    !e.Img?
  }

  /** An entry of `all_lists`. */
  datatype ListData = ListData(kind: ListKind, items: seq<string>)

  /** An entry of `all_images`: `url` and `alt_text`. */
  datatype ImageData = ImageData(url: string, alt: string)

  /** A `{"term", "description"}` entry of a description list. */
  datatype Pair = Pair(term: string, description: string)

  /** A `content` entry of a section, tagged by its `"type"`. */
  datatype ContentNode =
    | Paragraph(text: string)
    | ListNode(kind: ListKind, items: seq<string>)
    | TableNode(rows: seq<seq<string>>)
    | ImageNode(url: string, alt: string)
    | DescriptionList(pairs: seq<Pair>)

  /** A section of the output tree. */
  datatype Section = Section(title: string, level: Digit, content: seq<ContentNode>, subsections: seq<Section>)
}
