/**
 * The handler `scrape_wikipedia` (app.py:13-164) from the checked URL to the JSON document.
 * The HTTP fetch and the HTML parse are outside the model. `fetch` stands for
 * `requests.get` followed by `raise_for_status` (app.py:22-26): it fails with the text of the
 * `RequestException` either of them raised, the only exception the handler catches, or else
 * yields the page. Parsing that page with `BeautifulSoup` (app.py:28) is taken to succeed, and
 * the parsed page is given as its first heading and its content elements.
 */
module Scrape {
  import opened Wrappers
  import opened Text
  import opened Request
  import opened Elements
  import opened Flat
  import opened Sections

  /**
   * What the handler reads from the parsed page: the text of `h1#firstHeading`, and the
   * document-ordered elements below `div#mw-content-text`, each when present.
   */
  datatype Page = Page(firstHeading: Option<string>, content: Option<seq<Element>>)

  /** The JSON body of a successful response. */
  datatype Document = Document(
    pageTitle: string,
    sections: seq<Section>,
    paragraphs: seq<string>,
    lists: seq<ListData>,
    images: seq<ImageData>,
    tables: seq<seq<seq<string>>>)

  /** `page_title`, with its `"Title Not Found"` default (app.py:31-32). */
  function PageTitle(firstHeading: Option<string>): (r: string)
    ensures firstHeading.None? ==> r == "Title Not Found"
    ensures firstHeading.Some? ==> r == CleanText(firstHeading.value) && IsClean(r)
  {
    match firstHeading
    case Some(t) => CleanText(t)
    case None => "Title Not Found"
  }

  /** The handler: checks, fetch, content lookup, then the flat scan and the section scan. */
  method ScrapeWikipedia(url: Option<string>, fetch: string -> Result<Page, string>)
    returns (r: Result<Document, ScrapeError>)
    ensures ValidateUrl(url).Failure? ==> r == Failure(ValidateUrl(url).error)
    ensures ValidateUrl(url).Success? && fetch(url.value).Failure? ==>
              r == Failure(FetchFailed(fetch(url.value).error))
    ensures ValidateUrl(url).Success? && fetch(url.value).Success? && fetch(url.value).value.content.None? ==>
              r == Failure(ContentNotFound)
    ensures r.Success? <==>
              ValidateUrl(url).Success? && fetch(url.value).Success? && fetch(url.value).value.content.Some?
    ensures r.Success? ==>
              var page := fetch(url.value).value;
              var es := page.content.value;
              && r.value.pageTitle == PageTitle(page.firstHeading)
              && r.value.sections == Forest(Run(es))
              && FlatData(r.value.paragraphs, r.value.lists, r.value.images, r.value.tables) == FlatOf(es)
              && WellFormedFlat(FlatOf(es))
              && forall k :: 0 <= k < |r.value.sections| ==> WellFormedSection(r.value.sections[k])
  {
    var checked := ValidateUrl(url);
    if checked.Failure? {
      return Failure(checked.error);
    }
    var fetched := fetch(checked.value);
    if fetched.Failure? {
      return Failure(FetchFailed(fetched.error));
    }
    var page := fetched.value;
    var title := PageTitle(page.firstHeading);
    if page.content.None? {
      return Failure(ContentNotFound);
    }
    var es := page.content.value;
    var flat := ExtractFlat(es);
    var sections := BuildSections(es);
    FlatWellFormed(es);
    r := Success(Document(title, sections, flat.paragraphs, flat.lists, flat.images, flat.tables));
  }
}
