# Wikipedia scraper core, modelled in Dafny

The service exposes one HTTP endpoint, `GET /scrape-wikipedia?url=…`. It checks the URL and
fetches the page. From the page's main content area it builds a JSON document with these parts:

- the page title;
- a flat list of every paragraph, list, image and table;
- a tree of sections. Each section holds the content that follows its heading, and its
  subsections nest by heading level.

This project models that handler (`app.py`) on values, with these modules:

- `Text` models `clean_text`. Each whitespace run becomes one blank, and both ends are
  stripped. The module proves that the output is clean (its only whitespace is single
  blanks, none at either end) and that every non-whitespace character survives in order. It also proves that two stretches of text with a whitespace
  run between them clean to the two cleaned stretches joined by exactly one blank, that the
  function is idempotent, and that its output is empty exactly when its input is all
  whitespace.
- `Request` models the URL checks and the four error outcomes with their messages.
- `Elements` holds the parsed page as the two scans see it: one document-ordered sequence of
  elements. It also holds the JSON values the scans produce.
- `Extract` holds the per-element builders the two scans share:
  - list items;
  - the nested table row/cell loops (a method proved against `TableRows`);
  - the image URL rewrite and inclusion filter;
  - the `dt`/`dd` pairing loop (a method proved against `DlPairs`);
  - the section scan's content dispatch.
- `Flat` models the flat scan. The loop is a method proved equal to `FlatOf`. Lemmas prove
  that document order is kept, that tags outside the filter are ignored, and that nothing
  empty survives.
- `Sections` models the hierarchical scan. In the source, every section dict is shared between
  the tree and the stack of open sections. Here each section lives once in an arena, and the
  tree, the top-level list and the stack hold arena indices. The step function `Step` keeps an
  invariant: the stack is a root-to-leaf path of strictly increasing levels, and
  children are deeper than their parents. The class `SectionBuilder` updates this state in
  place. Its methods `OpenSection` and `AppendContent` are proved equal to the functions
  `Open` and `AddContent`, and the loop of `BuildSections` is proved to reach `Run`.
- `Scrape` models the whole handler. The fetch is a parameter.
- `Scenarios` holds worked examples on concrete pages and URLs.

A `dt` pairs with `find_next_sibling('dd')` (app.py:145), the first *later* `dd` sibling,
which need not be the adjacent one. `Scenarios.DescriptionExample` shows two terms sharing one
description.

## Model

| member | source | states |
|---|---|---|
| Text.IsSpace | app.py:10 | the whitespace class of `\s` and `strip()`: U+0009 to U+000D, U+001C to U+0020, U+0085, U+00A0, U+1680, U+2000 to U+200A, U+2028, U+2029, U+202F, U+205F and U+3000 |
| Text.TrimLeft | app.py:10 | `lstrip` never lengthens its input and shortens one that starts with whitespace |
| Text.TrimLeftSpec | app.py:10 | `lstrip` removes a whitespace prefix only, and what it keeps does not start with whitespace |
| Text.TrimRight | app.py:10 | `rstrip` never lengthens its input |
| Text.TrimRightSpec | app.py:10 | `rstrip` removes a whitespace suffix only, and what it keeps does not end with whitespace |
| Text.Strip | app.py:10 | `strip()` is `rstrip` after `lstrip`; `StripCleans` and `StripJoin` state what it removes |
| Text.Collapse | app.py:10 | the whitespace substitution never lengthens its input |
| Text.CollapseSpec | app.py:10 | after the substitution every whitespace character is a lone blank; the result is empty iff the input is, and its first character is whitespace iff the input's is (the blank per run is stated by `CollapseRun` and `CollapseJoin`) |
| Text.CleanText | app.py:9-10 | the output has only single blanks as whitespace, none at either end, and is no longer than the input |
| Text.StripCleans | app.py:10 | stripping a string whose whitespace is lone blanks yields a clean string |
| Text.TrimLeftKeepsNonSpace | app.py:10 | `lstrip` removes no non-whitespace character |
| Text.TrimRightKeepsNonSpace | app.py:10 | `rstrip` removes no non-whitespace character |
| Text.CollapseKeepsNonSpace | app.py:10 | the substitution keeps every non-whitespace character, in order, and adds none |
| Text.CleanTextKeepsNonSpace | app.py:9-10 | every non-whitespace character survives, in order, and none is added |
| Text.CleanTextEmpty | app.py:9-10 | the output is empty iff the input is empty or all whitespace (the truthiness tests at app.py:52, 99) |
| Text.CollapseFixesBlanks | app.py:10 | the substitution leaves unchanged a string whose whitespace is lone blanks |
| Text.CleanTextFixesClean | app.py:9-10 | a clean string is a fixed point of `clean_text` |
| Text.CleanTextIdempotent | app.py:9-10 | cleaning twice equals cleaning once |
| Text.CollapseWord | app.py:10 | the substitution copies a stretch without whitespace unchanged |
| Text.CollapseRun | app.py:10 | the substitution turns a whole whitespace run in front of text, or at the end, into exactly one blank |
| Text.TrimLeftOfRun | app.py:10 | `lstrip` removes exactly a whitespace run in front of text |
| Text.TrimRightOfRun | app.py:10 | `rstrip` removes exactly a whitespace run after text |
| Text.CollapseAppend | app.py:10 | the substitution works independently on both sides of a non-whitespace character |
| Text.CollapseJoin | app.py:10 | two stretches of text with a whitespace run between them collapse to the two collapsed stretches joined by one blank |
| Text.StripJoin | app.py:10 | stripping two stretches of text joined by a blank strips only their outer ends |
| Text.CleanTextJoin | app.py:9-10 | `clean_text` of text, a whitespace run and text is the cleaned first text, exactly one blank, and the cleaned second text |
| Text.StartsWith | app.py:65 | the `startswith` test; `Extract.RewriteUrl` states what it decides |
| Text.Contains | app.py:19 | the substring test is true iff the pattern occurs at some position |
| Request.ValidateUrl | app.py:16-20 | missing or empty `url` iff MissingUrl; non-empty without the domain iff InvalidUrl; success iff the domain occurs, returning the URL unchanged |
| Request.Message | app.py:17-38 | the `error` text of each failure; `MessageIdentifiesError` states what it keeps apart |
| Request.MessageIdentifiesError | app.py:17-38 | the three fixed error texts differ from one another; two fetch failures have the same text iff their exception texts agree, and that text ends with the exception's own |
| Elements.InFlatScan | app.py:49 | the flat scan admits `p`, `ul`/`ol`, `img` and `table` elements only |
| Elements.InSectionScan | app.py:90 | the hierarchical scan admits headings `h<digit>`, `p`, `ul`/`ol`, `table`, `figure` and `dl`: every element kind except a bare `img` |
| Extract.ListItems | app.py:55 | at most one item per `li`, and no item is empty |
| Extract.ListItemsMembers | app.py:55 | the items are exactly the non-empty cleaned `li` texts |
| Extract.ListItemsAppend | app.py:125 | the items keep the document order of the `li` elements |
| Extract.CleanAll | app.py:78-79 | a row has one cleaned cell per `th`/`td`, in column order |
| Extract.TableRows | app.py:75-81 | at most one row per `tr`, and no row is empty |
| Extract.TableRowsMembers | app.py:76-81 | the rows are exactly the cleaned rows of the `tr` elements with at least one cell; cells that clean to "" are kept |
| Extract.TableRowsAppend | app.py:128-133 | the rows keep the document order of the `tr` elements |
| Extract.ExtractTable | app.py:75-81 | the nested row and cell loops build exactly `TableRows` |
| Extract.RewriteUrl | app.py:65-66 | the result never starts with `//`; it is `https:` + the URL iff the URL started with `//`, and the URL itself otherwise |
| Extract.RewriteUrlIdempotent | app.py:138 | rewriting twice equals rewriting once |
| Extract.KeepsImage | app.py:69 | the image filter; `FlatImage` and `FigureImage` state when it keeps an image |
| Extract.FlatImage | app.py:61-73 | an `img` is kept iff it has a `src` and a `thumbimage` class or a Commons path in the rewritten URL; the kept entry has the rewritten URL and the cleaned `alt`, defaulting to "" |
| Extract.FigureImage | app.py:135-141 | a figure yields an image entry iff it has an `img` that passes the filter, a missing `src` reading as "" |
| Extract.FigureAndFlatImage | app.py:135-141 | both image branches agree on an `img` with a `src`; without one, only the figure branch can keep it, with the empty URL, exactly when it has `thumbimage` |
| Extract.NextDd | app.py:145 | the result is the first `dd` after the term, and None iff no later `dd` exists |
| Extract.PairsUpTo | app.py:143-147 | at most one pair per child |
| Extract.PairsFromTerms | app.py:143-147 | every pair is a cleaned `dt` with the first `dd` after it |
| Extract.NoDescriptionNoPairs | app.py:143-147 | a list without any `dd` yields no pair |
| Extract.PairAt | app.py:144-147 | what one child adds; `PairAtSize` states how many pairs that is |
| Extract.PairAtSize | app.py:144-147 | a child adds exactly one pair if it is a `dt` with a later `dd`, and none otherwise |
| Extract.DlPairs | app.py:143-148 | the pairs of the whole list; `PairsFromTerms`, `TermYieldsPair` and `PairsCount` state what they are |
| Extract.PairsUpToPrefix | app.py:143-147 | the pairs of the first children come first, unchanged, in the pairs of any longer prefix |
| Extract.TermYieldsPair | app.py:143-147 | every `dt` with a later `dd` yields its cleaned pair, right after the pairs of the terms before it |
| Extract.PairsCount | app.py:143-147 | there are exactly as many pairs as `dt` children with a later `dd` |
| Extract.DescriptionPairs | app.py:143-147 | the loop over the terms builds exactly `DlPairs` |
| Extract.ContentOf | app.py:120-148 | a content entry is never empty in its type-specific sense and comes only from a paragraph, list, table, figure or description list; a paragraph yields one iff it has a non-whitespace character; `Flat.SectionContentMatchesFlat` ties each case to the flat scan |
| Extract.BuildContent | app.py:120-148 | the dispatch with its table and description-list loops builds exactly `ContentOf` |
| Extract.HeadingTitle | app.py:97-99 | the title is clean, has the same non-whitespace characters as the headline span's text (or the heading's text without a span), and so is empty iff that text is all whitespace |
| Flat.ExtractFlat | app.py:41-83 | the loop builds exactly the four lists of `FlatOf` |
| Flat.ParagraphOf | app.py:50-53 | what one `p` adds; `FlatWellFormed` and `SectionContentMatchesFlat` state it |
| Flat.ListOf | app.py:54-60 | what one `ul`/`ol` adds; `FlatWellFormed` and `SectionContentMatchesFlat` state it |
| Flat.ImageOf | app.py:61-73 | what one `img` adds; `Extract.FlatImage` states when and what |
| Flat.TableOf | app.py:74-83 | what one `table` adds; `FlatWellFormed` and `SectionContentMatchesFlat` state it |
| Flat.FlatOf | app.py:41-83 | the four flat lists; `ExtractFlat`, `FlatOfAppend`, `FlatIgnoresHeadings` and `FlatWellFormed` state them |
| Flat.GatherAppend | app.py:49 | each flat list over `a + b` is its list over `a` followed by its list over `b` |
| Flat.FlatOfAppend | app.py:49-83 | all four flat lists keep document order under concatenation |
| Flat.OutsideFlatScan | app.py:49 | an element outside the tag filter adds nothing to any flat list |
| Flat.GatherSkips | app.py:49 | an element that adds nothing to a list leaves that list unchanged wherever it stands |
| Flat.FlatIgnoresHeadings | app.py:49 | inserting a heading, figure or description list anywhere leaves the flat lists unchanged |
| Flat.FlatWellFormed | app.py:52-83 | no empty paragraph, list, list item, table or row, and no protocol-relative image URL is emitted |
| Flat.SectionContentMatchesFlat | app.py:50-83 | a paragraph, list or table gives a section entry iff the flat scan emits one, with the same text, items or rows; a figure gives its image entry, a description list its pairs if any, a heading or bare `img` nothing |
| Sections.PopClosed | app.py:110-111 | pops exactly the top run of sections whose level is at least the new level; the new top, if any, is shallower |
| Sections.Open | app.py:102-117 | one heading step; `OpenAttachesToNearestSmaller`, `OpenKeepsNodes` and `OpenKeepsInvariant` state it |
| Sections.AddContent | app.py:150-151 | one content step; `ContentGoesToTop` and `AddContentKeepsInvariant` state it |
| Sections.Step | app.py:94-151 | one loop iteration; `StepKeepsInvariant` and `ContentGoesToTop` state it |
| Sections.OpenKeepsNodes | app.py:102-117 | a new heading adds one fresh section and changes no existing section's title, level or content |
| Sections.OpenStackShape | app.py:110-117 | after a heading the stack is the kept prefix with the new section on top, the kept levels unchanged |
| Sections.OpenKeepsStackIncreasing | app.py:110-117 | levels on the stack still strictly increase after a heading |
| Sections.OpenKeepsArenaOrdered | app.py:114 | the new section is attached as a child later in the arena and strictly deeper than its parent |
| Sections.OpenKeepsStackIsPath | app.py:113-117 | after a heading the stack is still a root-to-leaf path: from a top-level section down through `subsections` to the new section, which has none |
| Sections.OpenKeepsInvariant | app.py:102-117 | opening a section keeps the builder's invariant |
| Sections.AddContentKeepsInvariant | app.py:150-151 | appending a non-empty content entry keeps the builder's invariant |
| Sections.StepKeepsInvariant | app.py:94-151 | every iteration of the hierarchical loop keeps the builder's invariant |
| Sections.RunFrom | app.py:94-151 | the state after any prefix of elements satisfies the invariant |
| Sections.Run | app.py:94-151 | the loop from the empty state; `RunFromAppend`, `LeadingContentDropped` and `EmptyHeadingIgnored` state it |
| Sections.OpenAttachesToNearestSmaller | app.py:109-117 | a new section becomes a child of the nearest open section of smaller level, or a root when there is none; deeper or equal sections are closed, shallower ones stay open, and it goes on top |
| Sections.ContentGoesToTop | app.py:99-151 | empty headings, content with no open section and elements that yield no entry change nothing; otherwise the entry is appended to the top section only |
| Sections.ToSection | app.py:102-107 | the output section carries the arena section's title, level and content, and one subsection per child |
| Sections.ToSections | app.py:114-116 | one output section per index, each the tree rooted there |
| Sections.ToSectionWellFormed | app.py:102-107 | a section read off a valid state, and each of its subsections, has a clean non-empty title, non-empty entries and strictly deeper subsections |
| Sections.Forest | app.py:114-116 | the `sections` value read off the state; `ForestWellFormed` states it |
| Sections.ForestWellFormed | app.py:90-151 | every output section at any depth has a clean non-empty title, non-empty content entries and strictly deeper subsections |
| Sections.RunFromAppend | app.py:94 | the loop over `a + b` is the loop over `a` followed by the loop over `b` |
| Sections.NoHeadingsKeepInitial | app.py:119 | content before any heading leaves the builder empty |
| Sections.LeadingContentDropped | app.py:119 | content preceding the first heading never appears in the section tree |
| Sections.EmptyHeadingIgnored | app.py:99-100 | a heading with an empty title is ignored wherever it stands: it closes no section |
| Sections.SectionBuilder.constructor | app.py:92 | starts with no section and an empty stack, satisfying the invariant |
| Sections.SectionBuilder.PopClosedSections | app.py:110-111 | the in-place pop loop leaves exactly `PopClosed` of the old stack and changes no section |
| Sections.SectionBuilder.OpenSection | app.py:109-117 | the in-place pop, attach and push produce exactly `Open` of the old state and keep the invariant |
| Sections.SectionBuilder.AppendContent | app.py:150-151 | the in-place append produces exactly `AddContent` of the old state and keeps the invariant |
| Sections.BuildSections | app.py:90-151 | the loop's output is the tree read off `Run`, and every section in it is well formed |
| Scrape.PageTitle | app.py:31-32 | the title is the cleaned `h1#firstHeading` text, or "Title Not Found" without one |
| Scrape.ScrapeWikipedia | app.py:13-164 | each URL failure, fetch failure and missing content area gives its error; success iff none occurs, with the title, section tree and four flat lists of the two scans, all well formed |
| Scenarios.CleanTwoWords | app.py:9-10 | two words padded and separated by whitespace runs come out separated by one blank |
| Scenarios.CleanExtraText | app.py:9-10 | `"  extra   text  "` cleans to `"extra text"` |
| Scenarios.NestedSections | app.py:94-151 | a level-2 heading, paragraph, level-3 heading and paragraph give one section holding the first paragraph, with the second section as its only subsection |
| Scenarios.HistoryExample | app.py:94-151 | the same page with concrete text gives "History" with "Intro text." and subsection "Sub" with "extra text" |
| Scenarios.MissingUrlExample | app.py:16-17 | no `url` and an empty `url` are both refused as missing |
| Scenarios.OtherSiteExample | app.py:19-20 | a URL of another site is refused as invalid |
| Scenarios.WikipediaUrlExample | app.py:19-20 | a Wikipedia article URL is accepted unchanged |
| Scenarios.ImageExamples | app.py:61-73 | a protocol-relative thumbnail is kept with an `https:` URL; an icon outside Commons is dropped |
| Scenarios.TableExample | app.py:75-83 | a header row and a data row of two cells each give a two-row table |
| Scenarios.DescriptionExample | app.py:143-147 | two terms before one description both pair with it |

## Left out

- Flask routing, `jsonify` and HTTP status codes are not modelled. The handler returns a
  `Result`, and `Request.Message` holds each error's text.
- The HTTP request, `raise_for_status` and the exception text are not modelled. They are the
  `fetch` parameter of `Scrape.ScrapeWikipedia`.
- HTML parsing with BeautifulSoup/lxml is not modelled. Each scan's `find_all` is given as
  one document-ordered element sequence that already holds each tag's text, `li`, `tr`,
  `th`/`td`, `img` and `dt`/`dd` data. So `get_text()` concatenation, descendant search
  order and nested lists or tables are inputs, not modelled behaviour.
- A tag named exactly `h` makes the filter at app.py:90 read past the end of its name. That
  raises `IndexError`, which the handler does not catch. The element model has no such tag, so
  this failure is not modelled. Longer tag names that start with `h` but have no digit second
  (`hr`, `header`) are filtered out by both the source and the model, whose elements do not
  include them.
- Request.MessageIdentifiesError: it does not prove that a fetch-failure text differs from the
  three fixed texts. The exception text is arbitrary, and proving it requires comparing
  characters of the long literal messages, which the verifier does not do cheaply.
- Elements.Digit: a heading level is one decimal digit. `str.isdigit` also accepts other
  Unicode digits, which `int()` might reject. Those tag names do not occur in HTML.
- Extract.DlPairs: only the direct children of a `dl` are modelled. A `dt` nested deeper,
  which `find_all('dt')` would also return, is not.
- Sections.BuildSections: its contract states the tree read off the arena. It does not state
  that no section appears twice in the tree. That holds by construction (each new index is
  attached once) but is not proved.
- Sections.SectionBuilder: the source's aliasing of one section dict between the tree and the
  stack is modelled by arena indices, not by shared references.
- The `__main__` block that starts the development server is not modelled.
