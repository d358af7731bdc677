/**
 * What the crawlers see of the network: HTML pages reduced to the parts
 * that the title and link logic reads, and the outcome of one HTTP request.
 */
module Web {
  import opened Wrappers
  import opened Text

  /**
   * A parsed HTML page.
   *  - `titleTag`, `h1`: text of the first `<title>` / `<h1>` element, if any;
   *  - `ogTitle`, `twitterTitle`: `content` of the first `og:title` /
   *    `twitter:title` meta element, if it has one;
   *  - `anchors`: `href` of every `<a href>` in document order, and
   *    `navAnchors` those inside `<nav>`, `<header>` and `<footer>`;
   *  - `onclicks`, `dataHrefs`, `formActions`: the `onclick`, `data-href`
   *    and form `action` attribute values, in document order;
   *  - `linkTargets`: for each element matched by the link selectors of
   *    `Crawler.parse_links` (selector by selector, document order within
   *    each), the first non-empty of its `href`, `action`, `src` and
   *    `content` attributes, or "" when it has none;
   *  - `scriptUrls`: the candidate URLs that the regular expressions of
   *    `Crawler.parse_links` find in `<script>` text, in scan order;
   *  - `dataAttrs`: every string value of a `data-*` attribute, in document
   *    order.
   */
  datatype Page = Page(
    titleTag: Option<string>,
    ogTitle: Option<string>,
    twitterTitle: Option<string>,
    h1: Option<string>,
    anchors: seq<string>,
    navAnchors: seq<string>,
    onclicks: seq<string>,
    dataHrefs: seq<string>,
    formActions: seq<string>,
    linkTargets: seq<string>,
    scriptUrls: seq<string>,
    dataAttrs: seq<string>)

  const TitleNotFound: string := "Başlık bulunamadı"

  /** The stripped text of a title candidate, or "" when it is absent. */
  function StrippedText(o: Option<string>): string {
    if o.Some? then Strip(o.value) else ""
  }

  /**
   * The outcome of `session.get(url)`: a response with its status code,
   * page and `Location` header, or one of the three exception classes the
   * crawlers tell apart.
   */
  datatype FetchOutcome =
    | Response(status: nat, page: Page, location: Option<string>)
    | Timeout
    | RequestError
    | OtherError

  /** A fetch site: one request made at one place in the crawler. */
  type Fetcher = string -> FetchOutcome

  /**
   * General `urljoin(base, ref)` (section 5.2 of RFC 3986); `None` stands for
   * the `ValueError` that parsing may raise.
   */
  type Resolver = (string, string) -> Option<string>
}
