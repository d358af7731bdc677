/**
 * `Crawler` (crawler.py): the original crawler.  It reads the site's
 * sitemaps, fetches a title for every URL they list, then crawls level by
 * level from the start URL, following links and redirects on the start
 * host only.
 *
 * Every request is an oracle: `Fetcher` for page fetches, `SitemapSource`
 * for sitemap documents, `Resolver` for general `urljoin`, and a predicate
 * for the robots.txt verdict.  Iteration over a Python `set` happens in an
 * order the model leaves open (`:|`), so every property holds for every
 * order.
 */
module Crawling {
  import opened Wrappers
  import opened Text
  import opened Urls
  import opened Web

  const MaxDepth: nat := 6
  const MaxUrls: nat := 15000

  /** Title recorded when fetching a sitemap URL raises. */
  const TitleUnavailable: string := "Başlık alınamadı"

  /** The sitemap locations probed by `crawl`, in order. */
  const SitemapPaths: seq<string> :=
    ["/sitemap.xml", "/sitemap_index.xml", "/sitemaps.xml", "/sitemap/", "/sitemaps/"]

  const SkippedExtensions: seq<string> :=
    [".pdf", ".jpg", ".jpeg", ".png", ".gif", ".css", ".js", ".ico", ".svg",
     ".woff", ".woff2", ".ttf", ".eot", ".zip", ".mp4", ".avi", ".mov"]

  // ---------------------------------------------------------------- URLs

  /** The start URL with `https://` added unless an http(s) prefix is present. */
  function WithScheme(url: string): string {
    if HasHttpPrefix(url) then url else "https://" + url
  }

  /** `_normalize_url`: scheme added when missing, then all trailing '/' removed. */
  function NormalizeUrl(url: string): (r: string)
    ensures |r| <= |WithScheme(url)| && r == WithScheme(url)[..|r|]
    ensures r == [] || r[|r| - 1] != '/'
    ensures forall i | |r| <= i < |WithScheme(url)| :: WithScheme(url)[i] == '/'
  {
    RStripChar(WithScheme(url), '/')
  }

  predicate AllChar(s: string, c: char) {
    forall i | 0 <= i < |s| :: s[i] == c
  }

  /** Stripping a trailing character leaves a prefix alone when the rest holds another character. */
  lemma {:induction false} RStripAfter(p: string, s: string, c: char)
    requires !AllChar(s, c)
    ensures RStripChar(p + s, c) == p + RStripChar(s, c)
    decreases |s|
  {
    if s[|s| - 1] == c {
      var s' := s[..|s| - 1];
      assert (p + s)[..|p + s| - 1] == p + s';
      assert !AllChar(s', c) by {
        var i :| 0 <= i < |s| && s[i] != c;
        assert s'[i] == s[i];
      }
      RStripAfter(p, s', c);
    }
  }

  /**
   * Normalisation adds `https://` exactly when no http(s) prefix is present
   * and removes only the trailing slashes of the input.
   */
  lemma NormalizeUrlShape(url: string)
    ensures HasHttpPrefix(url) ==> NormalizeUrl(url) == RStripChar(url, '/')
    ensures !HasHttpPrefix(url) && !AllChar(url, '/') ==>
              NormalizeUrl(url) == "https://" + RStripChar(url, '/')
  {
    if !HasHttpPrefix(url) && !AllChar(url, '/') {
      RStripAfter("https://", url, '/');
    }
  }

  /** A normalised URL that kept its scheme prefix is a fixed point. */
  lemma NormalizeUrlIdempotent(url: string)
    requires HasHttpPrefix(NormalizeUrl(url))
    ensures NormalizeUrl(NormalizeUrl(url)) == NormalizeUrl(url)
  {
  }

  predicate HasSkippedExtension(path: string) {
    exists k | 0 <= k < |SkippedExtensions| :: EndsWith(path, SkippedExtensions[k])
  }

  /** The visited-independent part of `_is_valid_url`: the start host, http(s), no skipped extension. */
  predicate OnSite(p: Parts, domain: string) {
    p.netloc == domain && (p.scheme == "http" || p.scheme == "https") &&
    !HasSkippedExtension(Lower(p.path))
  }

  /** `_is_valid_url` on a parsed URL: on site and `geturl()` not yet visited. */
  predicate IsValidUrl(p: Parts, domain: string, visited: set<string>) {
    OnSite(p, domain) && GetUrl(p) !in visited
  }

  /** The outcome of `urlparse(url)` followed by `_is_valid_url`. */
  datatype Verdict = Unparsable | Rejected | Accepted

  function Judgement(url: string, domain: string, visited: set<string>): Verdict {
    match UrlParse(url)
    case Err(_) => Unparsable
    case Ok(p) => if IsValidUrl(p, domain, visited) then Accepted else Rejected
  }

  /** A validity check, as the scans below see it. */
  type Judge = string -> Verdict

  /** The check `_is_valid_url` performs for a given host and `visited` set. */
  function JudgeOf(domain: string, visited: set<string>): Judge {
    u => Judgement(u, domain, visited)
  }

  /** `urlparse(url)` succeeds and `_is_valid_url` accepts the result. */
  predicate Admits(url: string, domain: string, visited: set<string>) {
    Judgement(url, domain, visited) == Accepted
  }

  /** A string that parses to an on-site URL. */
  predicate OnSiteUrl(url: string, domain: string) {
    UrlParse(url).Ok? && OnSite(UrlParse(url).value, domain)
  }

  ghost predicate AllOnSite(s: set<string>, domain: string) {
    forall u {:trigger OnSiteUrl(u, domain)} | u in s :: OnSiteUrl(u, domain)
  }

  /** What the check accepts is on site and parsed to a URL not yet visited. */
  lemma AcceptedOnSite(s: set<string>, domain: string, visited: set<string>)
    requires forall u | u in s :: JudgeOf(domain, visited)(u) == Accepted
    ensures AllOnSite(s, domain)
    ensures forall u | u in s :: Admits(u, domain, visited)
  {
    forall u | u in s
      ensures OnSiteUrl(u, domain) && Admits(u, domain, visited)
    {
      assert JudgeOf(domain, visited)(u) == Judgement(u, domain, visited);
    }
  }

  /** Visiting more URLs never makes a rejected URL acceptable, and the host rule is exact. */
  lemma AdmitsFacts(url: string, domain: string, visited: set<string>, more: set<string>)
    requires Admits(url, domain, more) && visited <= more
    ensures Admits(url, domain, visited)
    ensures UrlParse(url).Ok? && UrlParse(url).value.netloc == domain && OnSiteUrl(url, domain)
  {
  }

  /** A URL whose path ends in a listed extension, in any letter case, is refused. */
  lemma ExtensionRejected(p: Parts, domain: string, visited: set<string>, k: nat)
    requires k < |SkippedExtensions| && EndsWith(Lower(p.path), SkippedExtensions[k])
    ensures !IsValidUrl(p, domain, visited)
  {
  }

  // -------------------------------------------------------------- titles

  /** `_extract_title`: the `<title>` text, else the `<h1>` text, else the default. */
  function ExtractTitle(page: Page): (r: string)
    ensures r != "" && !IsSpace(r[0]) && !IsSpace(r[|r| - 1])
    ensures r == StrippedText(page.titleTag) || r == StrippedText(page.h1) || r == TitleNotFound
    ensures StrippedText(page.titleTag) != "" ==> r == StrippedText(page.titleTag)
    ensures StrippedText(page.titleTag) == "" && StrippedText(page.h1) == "" ==> r == TitleNotFound
  {
    var t := StrippedText(page.titleTag);
    var h := StrippedText(page.h1);
    if t != "" then t else if h != "" then h else TitleNotFound
  }

  /**
   * What the sitemap title pass records for a fetch: the title on 200,
   * nothing on another status, and `TitleUnavailable` when the request raises.
   */
  function SitemapTitle(outcome: FetchOutcome): Option<string> {
    match outcome
    case Response(status, page, _) => if status == 200 then Some(ExtractTitle(page)) else None
    case _ => Some(TitleUnavailable)
  }

  // --------------------------------------------------------------- links

  /** One link candidate: skipped, a failing `urljoin`, or a URL to check. */
  datatype Target = Skip | Broken | Url(url: string)

  predicate IsSkippedHref(h: string) {
    h == "" || StartsWith(h, "#") || StartsWith(h, "mailto:") || StartsWith(h, "tel:") ||
    StartsWith(h, "javascript:")
  }

  /** A selector match of `parse_links`: stripped, filtered, joined with the page URL. */
  function AnchorTarget(v: string, base: string, resolve: Resolver): Target {
    var h := Strip(v);
    if IsSkippedHref(h) then Skip
    else match resolve(base, h)
      case None => Broken
      case Some(u) => Url(u)
  }

  function AnchorTargets(vs: seq<string>, base: string, resolve: Resolver): (ts: seq<Target>)
    ensures |ts| == |vs|
  {
    seq(|vs|, i requires 0 <= i < |vs| => AnchorTarget(vs[i], base, resolve))
  }

  /**
   * A script or `data-*` candidate: values starting with '/' are joined with
   * the page URL; a `data-*` value is considered only when it starts with '/'
   * or mentions the host.
   */
  function ExtraTarget(v: string, base: string, resolve: Resolver, isData: bool,
                       domain: string): Target
  {
    if isData && !StartsWith(v, "/") && !Contains(v, domain) then Skip
    else if StartsWith(v, "/") then
      (match resolve(base, v)
       case None => Broken
       case Some(u) => Url(u))
    else Url(v)
  }

  function ExtraTargets(vs: seq<string>, base: string, resolve: Resolver, isData: bool,
                        domain: string): (ts: seq<Target>)
    ensures |ts| == |vs|
  {
    seq(|vs|, i requires 0 <= i < |vs| => ExtraTarget(vs[i], base, resolve, isData, domain))
  }

  /** URLs collected so far and whether an exception ended the scan. */
  datatype Scan = Scan(found: set<string>, aborted: bool)

  /**
   * A scan whose exceptions escape to the enclosing `try`: the first
   * `Broken` target or unparsable URL ends it with what was found so far.
   */
  function ScanUrls(ts: seq<Target>, judge: Judge): Scan
    decreases |ts|
  {
    if ts == [] then Scan({}, false)
    else
      var s := ScanUrls(ts[..|ts| - 1], judge);
      if s.aborted then s else ScanStep(s.found, ts[|ts| - 1], judge)
  }

  function ScanStep(found: set<string>, t: Target, judge: Judge): Scan {
    match t
    case Skip => Scan(found, false)
    case Broken => Scan(found, true)
    case Url(u) =>
      match judge(u)
      case Unparsable => Scan(found, true)
      case Accepted => Scan(found + {u}, false)
      case Rejected => Scan(found, false)
  }

  /** A scan whose exceptions are caught per candidate: failures are skipped. */
  function CollectUrls(ts: seq<Target>, judge: Judge): set<string>
    decreases |ts|
  {
    if ts == [] then {}
    else
      var t := ts[|ts| - 1];
      CollectUrls(ts[..|ts| - 1], judge) +
      (if t.Url? && judge(t.url) == Accepted then {t.url} else {})
  }

  /** The set `parse_links(html, base)` returns. */
  function LinksFound(page: Page, base: string, domain: string, judge: Judge,
                      resolve: Resolver): set<string>
  {
    var a := ScanUrls(AnchorTargets(page.linkTargets, base, resolve), judge);
    if a.aborted then a.found
    else
      a.found + CollectUrls(ExtraTargets(page.scriptUrls, base, resolve, false, domain), judge) +
      CollectUrls(ExtraTargets(page.dataAttrs, base, resolve, true, domain), judge)
  }

  /** Once a scan has aborted, later candidates change nothing. */
  lemma {:induction false} AbortSticks(ts: seq<Target>, k: nat, judge: Judge)
    requires k <= |ts| && ScanUrls(ts[..k], judge).aborted
    ensures ScanUrls(ts, judge) == ScanUrls(ts[..k], judge)
    decreases |ts| - k
  {
    if k < |ts| {
      assert ts[..|ts| - 1][..k] == ts[..k];
      AbortSticks(ts[..|ts| - 1], k, judge);
    } else {
      assert ts[..k] == ts;
    }
  }

  lemma {:induction false} ScanAccepted(ts: seq<Target>, judge: Judge)
    ensures forall u | u in ScanUrls(ts, judge).found :: judge(u) == Accepted
    decreases |ts|
  {
    if ts != [] {
      ScanAccepted(ts[..|ts| - 1], judge);
    }
  }

  lemma {:induction false} CollectAccepted(ts: seq<Target>, judge: Judge)
    ensures forall u | u in CollectUrls(ts, judge) :: judge(u) == Accepted
    decreases |ts|
  {
    if ts != [] {
      CollectAccepted(ts[..|ts| - 1], judge);
    }
  }

  /** Every URL a link scan returns was accepted by its check. */
  lemma LinksAccepted(page: Page, base: string, domain: string, judge: Judge, resolve: Resolver)
    ensures forall u | u in LinksFound(page, base, domain, judge, resolve) :: judge(u) == Accepted
  {
    ScanAccepted(AnchorTargets(page.linkTargets, base, resolve), judge);
    CollectAccepted(ExtraTargets(page.scriptUrls, base, resolve, false, domain), judge);
    CollectAccepted(ExtraTargets(page.dataAttrs, base, resolve, true, domain), judge);
  }

  /** Every URL `parse_links` returns passed `_is_valid_url` when it was found. */
  lemma LinksAdmitted(page: Page, base: string, domain: string, visited: set<string>,
                      resolve: Resolver)
    ensures forall u | u in LinksFound(page, base, domain, JudgeOf(domain, visited), resolve) ::
              Admits(u, domain, visited)
    ensures AllOnSite(LinksFound(page, base, domain, JudgeOf(domain, visited), resolve), domain)
  {
    LinksAccepted(page, base, domain, JudgeOf(domain, visited), resolve);
    AcceptedOnSite(LinksFound(page, base, domain, JudgeOf(domain, visited), resolve), domain, visited);
  }

  /**
   * An href that is empty, a fragment, or a mailto:, tel: or javascript:
   * link after stripping contributes nothing, wherever it stands.
   */
  lemma SkippedHrefIgnored(vs: seq<string>, v: string, base: string, judge: Judge, resolve: Resolver)
    requires IsSkippedHref(Strip(v))
    ensures ScanUrls(AnchorTargets(vs + [v], base, resolve), judge) ==
            ScanUrls(AnchorTargets(vs, base, resolve), judge)
  {
    var ts := AnchorTargets(vs + [v], base, resolve);
    assert ts[..|ts| - 1] == AnchorTargets(vs, base, resolve);
    assert ts[|ts| - 1] == Skip;
  }

  /** A joined href that is admitted is found, unless an earlier candidate aborted the scan. */
  lemma AdmittedHrefFound(vs: seq<string>, v: string, base: string, judge: Judge, resolve: Resolver,
                          u: string)
    requires !ScanUrls(AnchorTargets(vs, base, resolve), judge).aborted
    requires !IsSkippedHref(Strip(v)) && resolve(base, Strip(v)) == Some(u)
    requires judge(u) == Accepted
    ensures u in ScanUrls(AnchorTargets(vs + [v], base, resolve), judge).found
  {
    var ts := AnchorTargets(vs + [v], base, resolve);
    assert ts[..|ts| - 1] == AnchorTargets(vs, base, resolve);
    assert ts[|ts| - 1] == Url(u);
  }

  // ------------------------------------------------------------ sitemaps

  /** An XML element: its tag (with namespace), its text and its children. */
  datatype Xml = Element(tag: string, text: Option<string>, children: seq<Xml>)

  /** A sitemap request: a response whose body parsed (or not), or a request that raised. */
  datatype SitemapReply = Reply(status: nat, document: Option<Xml>) | Unreachable

  type SitemapSource = string -> SitemapReply

  const SitemapNamespace: string := "{http://www.sitemaps.org/schemas/sitemap/0.9}"
  const LocTag: string := SitemapNamespace + "loc"
  const SitemapTag: string := SitemapNamespace + "sitemap"

  /** The elements below `children`'s parent in document order (ElementTree's descendant axis). */
  function Descendants(children: seq<Xml>): seq<Xml>
    decreases children
  {
    if children == [] then []
    else
      assert children[0] in children;
      [children[0]] + Descendants(children[0].children) + Descendants(children[1..])
  }

  /** The stripped texts of the `loc` elements with text, in document order. */
  function LocTexts(elems: seq<Xml>): seq<string>
  {
    if elems == [] then []
    else
      var e := elems[0];
      (if e.tag == LocTag && e.text.Some? && e.text.value != "" then [Strip(e.text.value)] else []) +
      LocTexts(elems[1..])
  }

  /** `find('.//loc')`: the first `loc` element among `elems`. */
  function FirstLoc(elems: seq<Xml>): Option<Xml>
  {
    if elems == [] then None
    else if elems[0].tag == LocTag then Some(elems[0])
    else FirstLoc(elems[1..])
  }

  /** The child sitemaps of an index: the first `loc` text of each `sitemap` element, stripped. */
  function ChildSitemaps(elems: seq<Xml>): seq<string>
  {
    if elems == [] then []
    else
      var e := elems[0];
      var loc := FirstLoc(Descendants(e.children));
      (if e.tag == SitemapTag && loc.Some? && loc.value.text.Some? && loc.value.text.value != ""
       then [Strip(loc.value.text.value)] else []) +
      ChildSitemaps(elems[1..])
  }

  function LocTargets(locs: seq<string>): (ts: seq<Target>)
    ensures |ts| == |locs|
  {
    seq(|locs|, i requires 0 <= i < |locs| => Url(locs[i]))
  }

  /**
   * What `parse_sitemap(url)` adds to `urls` when `fuel` nested calls are
   * left: the accepted `loc`s, then what each child sitemap adds.  An
   * unparsable `loc` ends the call; a failed request or document adds nothing.
   */
  function SitemapUrls(url: string, fuel: nat, source: SitemapSource, judge: Judge): set<string>
    decreases fuel, 0, 0
  {
    if fuel == 0 then {}
    else match source(url)
      case Unreachable => {}
      case Reply(status, document) =>
        if status != 200 || document.None? then {}
        else DocumentUrls(document.value, fuel - 1, source, judge)
  }

  /** What one fetched sitemap document adds, with `fuel` nested calls left for its children. */
  function DocumentUrls(root: Xml, fuel: nat, source: SitemapSource, judge: Judge): set<string>
    decreases fuel, 2, 0
  {
    var elems := Descendants(root.children);
    var s := ScanUrls(LocTargets(LocTexts(elems)), judge);
    if s.aborted then s.found
    else s.found + IndexUrls(ChildSitemaps(elems), fuel, source, judge)
  }

  /** What the child sitemaps add, in order. */
  function IndexUrls(children: seq<string>, fuel: nat, source: SitemapSource, judge: Judge): set<string>
    decreases fuel, 1, |children|
  {
    if children == [] then {}
    else
      IndexUrls(children[..|children| - 1], fuel, source, judge) +
      SitemapUrls(children[|children| - 1], fuel, source, judge)
  }

  lemma {:induction false} SitemapAccepted(url: string, fuel: nat, source: SitemapSource, judge: Judge)
    ensures forall u | u in SitemapUrls(url, fuel, source, judge) :: judge(u) == Accepted
    decreases fuel, 0, 0
  {
    if fuel > 0 && source(url).Reply? && source(url).status == 200 && source(url).document.Some? {
      DocumentAccepted(source(url).document.value, fuel - 1, source, judge);
    }
  }

  lemma {:induction false} DocumentAccepted(root: Xml, fuel: nat, source: SitemapSource, judge: Judge)
    ensures forall u | u in DocumentUrls(root, fuel, source, judge) :: judge(u) == Accepted
    decreases fuel, 2, 0
  {
    var elems := Descendants(root.children);
    ScanAccepted(LocTargets(LocTexts(elems)), judge);
    IndexAccepted(ChildSitemaps(elems), fuel, source, judge);
  }

  lemma {:induction false} IndexAccepted(children: seq<string>, fuel: nat, source: SitemapSource,
                                         judge: Judge)
    ensures forall u | u in IndexUrls(children, fuel, source, judge) :: judge(u) == Accepted
    decreases fuel, 1, |children|
  {
    if children != [] {
      IndexAccepted(children[..|children| - 1], fuel, source, judge);
      SitemapAccepted(children[|children| - 1], fuel, source, judge);
    }
  }

  /** Every URL `parse_sitemap` adds passed `_is_valid_url`, so it is on the start host. */
  lemma SitemapAdmitted(url: string, fuel: nat, source: SitemapSource, domain: string,
                        visited: set<string>)
    ensures forall u | u in SitemapUrls(url, fuel, source, JudgeOf(domain, visited)) ::
              Admits(u, domain, visited)
    ensures AllOnSite(SitemapUrls(url, fuel, source, JudgeOf(domain, visited)), domain)
  {
    SitemapAccepted(url, fuel, source, JudgeOf(domain, visited));
    AcceptedOnSite(SitemapUrls(url, fuel, source, JudgeOf(domain, visited)), domain, visited);
  }

  /** Every child sitemap of an index contributes what it adds on its own. */
  lemma {:induction false} ChildRead(children: seq<string>, k: nat, fuel: nat, source: SitemapSource,
                                     judge: Judge)
    requires k < |children|
    ensures SitemapUrls(children[k], fuel, source, judge) <= IndexUrls(children, fuel, source, judge)
    decreases |children|
  {
    if k < |children| - 1 {
      ChildRead(children[..|children| - 1], k, fuel, source, judge);
    }
  }

  /**
   * A document whose `loc`s all parse reads every child sitemap: what a
   * child adds is part of what the document adds.
   */
  lemma ChildrenRead(root: Xml, k: nat, fuel: nat, source: SitemapSource, judge: Judge)
    requires !ScanUrls(LocTargets(LocTexts(Descendants(root.children))), judge).aborted
    requires k < |ChildSitemaps(Descendants(root.children))|
    ensures SitemapUrls(ChildSitemaps(Descendants(root.children))[k], fuel, source, judge) <=
            DocumentUrls(root, fuel, source, judge)
  {
    ChildRead(ChildSitemaps(Descendants(root.children)), k, fuel, source, judge);
  }

  /**
   * An index sitemap with nesting depth at most `d`: every chain of child
   * sitemaps ends within `d` documents, so the index has no cycle.
   */
  ghost predicate Nested(url: string, source: SitemapSource, d: nat)
    decreases d, 1
  {
    d > 0 &&
    match source(url)
    case Unreachable => true
    case Reply(status, document) =>
      status != 200 || document.None? || ChildrenNested(document.value, source, d - 1)
  }

  /** Every child sitemap a fetched document lists has nesting depth at most `d`. */
  ghost predicate ChildrenNested(root: Xml, source: SitemapSource, d: nat)
    decreases d + 1, 0
  {
    var children := ChildSitemaps(Descendants(root.children));
    forall k | 0 <= k < |children| :: Nested(children[k], source, d)
  }

  /**
   * For an acyclic index, any fuel at least its depth gives the same URLs:
   * the recursion of `parse_sitemap` terminates with a fixed result.
   */
  lemma {:induction false} FuelSuffices(url: string, d: nat, f1: nat, f2: nat, source: SitemapSource,
                                        judge: Judge)
    requires Nested(url, source, d) && d <= f1 <= f2
    ensures SitemapUrls(url, f1, source, judge) == SitemapUrls(url, f2, source, judge)
    decreases d, 0
  {
    SitemapUnfold(url, f1, source, judge);
    SitemapUnfold(url, f2, source, judge);
    var reply := source(url);
    if reply.Reply? && reply.status == 200 && reply.document.Some? {
      NestedDocumentFuel(reply.document.value, d - 1, f1 - 1, f2 - 1, source, judge);
    }
  }

  /** One step of `parse_sitemap`: a fetched document is read with one call less left. */
  lemma SitemapUnfold(url: string, fuel: nat, source: SitemapSource, judge: Judge)
    requires fuel > 0
    ensures var reply := source(url);
            SitemapUrls(url, fuel, source, judge) ==
              if reply.Reply? && reply.status == 200 && reply.document.Some?
              then DocumentUrls(reply.document.value, fuel - 1, source, judge)
              else {}
  {
  }

  /** A fetched document whose children are nested at most `d` deep reads the same with any fuel from `d` on. */
  lemma NestedDocumentFuel(root: Xml, d: nat, f1: nat, f2: nat, source: SitemapSource, judge: Judge)
    requires ChildrenNested(root, source, d) && d <= f1 <= f2
    ensures DocumentUrls(root, f1, source, judge) == DocumentUrls(root, f2, source, judge)
    decreases d, 2
  {
    IndexFuel(ChildSitemaps(Descendants(root.children)), d, f1, f2, source, judge);
    DocumentFuel(root, f1, f2, source, judge);
  }

  lemma DocumentFuel(root: Xml, f1: nat, f2: nat, source: SitemapSource, judge: Judge)
    requires IndexUrls(ChildSitemaps(Descendants(root.children)), f1, source, judge) ==
             IndexUrls(ChildSitemaps(Descendants(root.children)), f2, source, judge)
    ensures DocumentUrls(root, f1, source, judge) == DocumentUrls(root, f2, source, judge)
  {
  }

  lemma {:induction false} IndexFuel(children: seq<string>, d: nat, f1: nat, f2: nat,
                                     source: SitemapSource, judge: Judge)
    requires forall k | 0 <= k < |children| :: Nested(children[k], source, d)
    requires d <= f1 <= f2
    ensures IndexUrls(children, f1, source, judge) == IndexUrls(children, f2, source, judge)
    decreases d, 1, |children|
  {
    if children != [] {
      IndexFuel(children[..|children| - 1], d, f1, f2, source, judge);
      FuelSuffices(children[|children| - 1], d, f1, f2, source, judge);
    }
  }

  /** A sitemap that lists itself as a child has no finite nesting depth. */
  lemma {:induction false} SelfIndexNotNested(url: string, source: SitemapSource, d: nat)
    requires source(url).Reply? && source(url).status == 200 && source(url).document.Some?
    requires url in ChildSitemaps(Descendants(source(url).document.value.children))
    ensures !Nested(url, source, d)
    decreases d
  {
    if d > 0 {
      SelfIndexNotNested(url, source, d - 1);
      var children := ChildSitemaps(Descendants(source(url).document.value.children));
      var k :| 0 <= k < |children| && children[k] == url;
      assert !ChildrenNested(source(url).document.value, source, d - 1) by {
        assert !Nested(children[k], source, d - 1);
      }
    }
  }

  /** `urljoin(start_url, path)` for an absolute path without dot segments. */
  function SitemapLocation(p: Parts, path: string): string {
    UrlUnsplit(p.scheme, p.netloc, path, "", "")
  }

  // --------------------------------------------------------- level crawl

  predicate IsOk(outcome: FetchOutcome) {
    outcome.Response? && outcome.status == 200
  }

  predicate IsRedirect(status: nat) {
    status == 301 || status == 302 || status == 303 || status == 307 || status == 308
  }

  /** The next-level URL a redirect contributes: the joined `Location`, if `_is_valid_url` accepts it. */
  function RedirectTarget(outcome: FetchOutcome, url: string, domain: string, visited: set<string>,
                          resolve: Resolver): set<string>
  {
    if outcome.Response? && IsRedirect(outcome.status) && outcome.location.Some? &&
       outcome.location.value != "" && resolve(url, outcome.location.value).Some? &&
       Admits(resolve(url, outcome.location.value).value, domain, visited)
    then {resolve(url, outcome.location.value).value}
    else {}
  }

  /** A followed redirect target is on site. */
  lemma RedirectOnSite(outcome: FetchOutcome, url: string, domain: string, visited: set<string>,
                       resolve: Resolver)
    ensures AllOnSite(RedirectTarget(outcome, url, domain, visited, resolve), domain)
  {
    if RedirectTarget(outcome, url, domain, visited, resolve) != {} {
      AdmitsFacts(resolve(url, outcome.location.value).value, domain, visited, visited);
    }
  }

  /** The counters the crawl loops change: `visited`, `crawled_urls` and `url_data`. */
  datatype Tally = Tally(visited: set<string>, crawled: nat, data: map<string, string>)

  /**
   * One URL of a level: a URL that is new, allowed by robots.txt and answers
   * 200 is visited, counted and titled; anything else leaves the counters.
   */
  function VisitStep(t: Tally, url: string, fetch: Fetcher, canCrawl: string -> bool): Tally {
    if url !in t.visited && canCrawl(url) && IsOk(fetch(url))
    then Tally(t.visited + {url}, t.crawled + 1, t.data[url := ExtractTitle(fetch(url).page)])
    else t
  }

  /** The counters after visiting the URLs of `order` in turn. */
  function LevelRun(t: Tally, order: seq<string>, fetch: Fetcher, canCrawl: string -> bool): Tally
    decreases |order|
  {
    if order == [] then t
    else VisitStep(LevelRun(t, order[..|order| - 1], fetch, canCrawl), order[|order| - 1], fetch, canCrawl)
  }

  /**
   * One URL of the sitemap title pass: below the cap it is visited and
   * counted, whatever its answer, and titled when `SitemapTitle` has one.
   */
  function TitleStep(t: Tally, url: string, fetch: Fetcher): Tally {
    if |t.visited| < MaxUrls then
      Tally(t.visited + {url}, t.crawled + 1,
            match SitemapTitle(fetch(url))
            case Some(title) => t.data[url := title]
            case None => t.data)
    else t
  }

  function TitleRun(t: Tally, order: seq<string>, fetch: Fetcher): Tally
    decreases |order|
  {
    if order == [] then t
    else TitleStep(TitleRun(t, order[..|order| - 1], fetch), order[|order| - 1], fetch)
  }

  lemma LevelRunSnoc(t: Tally, order: seq<string>, u: string, fetch: Fetcher, canCrawl: string -> bool)
    ensures LevelRun(t, order + [u], fetch, canCrawl) == VisitStep(LevelRun(t, order, fetch, canCrawl), u, fetch, canCrawl)
  {
    assert (order + [u])[..|order|] == order;
  }

  lemma TitleRunSnoc(t: Tally, order: seq<string>, u: string, fetch: Fetcher)
    ensures TitleRun(t, order + [u], fetch) == TitleStep(TitleRun(t, order, fetch), u, fetch)
  {
    assert (order + [u])[..|order|] == order;
  }

  /** Visiting two lists in turn is visiting their concatenation. */
  lemma {:induction false} LevelRunConcat(t: Tally, a: seq<string>, b: seq<string>, fetch: Fetcher,
                                          canCrawl: string -> bool)
    ensures LevelRun(t, a + b, fetch, canCrawl) == LevelRun(LevelRun(t, a, fetch, canCrawl), b, fetch, canCrawl)
    decreases |b|
  {
    if b == [] {
      assert a + b == a;
    } else {
      var b' := b[..|b| - 1];
      assert (a + b)[..|a + b| - 1] == a + b';
      assert (a + b)[|a + b| - 1] == b[|b| - 1];
      LevelRunConcat(t, a, b', fetch, canCrawl);
    }
  }

  /**
   * A level only adds to `visited`, and only URLs it listed that robots.txt
   * allows and that answered 200; `crawled_urls` grows by exactly the number
   * of URLs added.
   */
  lemma {:induction false} LevelRunVisited(t: Tally, order: seq<string>, fetch: Fetcher, canCrawl: string -> bool)
    ensures t.visited <= LevelRun(t, order, fetch, canCrawl).visited
    ensures forall u | u in LevelRun(t, order, fetch, canCrawl).visited && u !in t.visited ::
              u in order && canCrawl(u) && IsOk(fetch(u))
    ensures LevelRun(t, order, fetch, canCrawl).crawled + |t.visited| ==
            t.crawled + |LevelRun(t, order, fetch, canCrawl).visited|
    decreases |order|
  {
    if order != [] {
      var front := order[..|order| - 1];
      LevelRunVisited(t, front, fetch, canCrawl);
      forall u | u in front
        ensures u in order
      {
        var k :| 0 <= k < |front| && front[k] == u;
        assert order[k] == u;
      }
    }
  }

  /**
   * Each URL a level adds to `visited` maps to its page's title; every other
   * entry of `url_data` whose URL was visited before, or is still unvisited,
   * is kept.
   */
  lemma {:induction false} LevelRunTitles(t: Tally, order: seq<string>, fetch: Fetcher, canCrawl: string -> bool)
    ensures forall u | u in LevelRun(t, order, fetch, canCrawl).visited && u !in t.visited ::
              IsOk(fetch(u)) && u in LevelRun(t, order, fetch, canCrawl).data &&
              LevelRun(t, order, fetch, canCrawl).data[u] == ExtractTitle(fetch(u).page)
    ensures forall u | u in t.data && (u in t.visited || u !in LevelRun(t, order, fetch, canCrawl).visited) ::
              u in LevelRun(t, order, fetch, canCrawl).data &&
              LevelRun(t, order, fetch, canCrawl).data[u] == t.data[u]
    decreases |order|
  {
    if order != [] {
      var front := order[..|order| - 1];
      LevelRunTitles(t, front, fetch, canCrawl);
      LevelRunVisited(t, front, fetch, canCrawl);
    }
  }

  /** A level whose URLs are all visited already changes nothing. */
  lemma {:induction false} LevelRunIdle(t: Tally, order: seq<string>, fetch: Fetcher, canCrawl: string -> bool)
    requires forall i | 0 <= i < |order| :: order[i] in t.visited
    ensures LevelRun(t, order, fetch, canCrawl) == t
    decreases |order|
  {
    if order != [] {
      LevelRunIdle(t, order[..|order| - 1], fetch, canCrawl);
    }
  }

  /**
   * The sitemap title pass only adds listed URLs to `visited`, never pushes
   * `visited` past the cap from below it, and skips a listed URL only once
   * the cap is reached.
   */
  lemma {:induction false} TitleRunVisited(t: Tally, order: seq<string>, fetch: Fetcher)
    ensures t.visited <= TitleRun(t, order, fetch).visited
    ensures forall u | u in TitleRun(t, order, fetch).visited && u !in t.visited :: u in order
    ensures |t.visited| < MaxUrls ==> |TitleRun(t, order, fetch).visited| <= MaxUrls
    ensures forall u | u in order :: u in TitleRun(t, order, fetch).visited || |TitleRun(t, order, fetch).visited| >= MaxUrls
    decreases |order|
  {
    if order != [] {
      var front := order[..|order| - 1];
      TitleRunVisited(t, front, fetch);
      forall u | u in front
        ensures u in order
      {
        var k :| 0 <= k < |front| && front[k] == u;
        assert order[k] == u;
      }
      forall u | u in order
        ensures u in front || u == order[|order| - 1]
      {
        var k :| 0 <= k < |order| && order[k] == u;
        if k < |order| - 1 {
          assert front[k] == u;
        }
      }
    }
  }

  /** Over distinct URLs not yet visited, the pass counts each URL it adds exactly once. */
  lemma {:induction false} TitleRunCount(t: Tally, order: seq<string>, fetch: Fetcher)
    requires NoDuplicates(order) && forall i | 0 <= i < |order| :: order[i] !in t.visited
    ensures TitleRun(t, order, fetch).crawled + |t.visited| == t.crawled + |TitleRun(t, order, fetch).visited|
    decreases |order|
  {
    if order != [] {
      var front := order[..|order| - 1];
      var last := order[|order| - 1];
      TitleRunCount(t, front, fetch);
      TitleRunVisited(t, front, fetch);
    }
  }

  /** Each URL the pass adds carries the title `SitemapTitle` gives for it, when there is one. */
  lemma {:induction false} TitleRunTitles(t: Tally, order: seq<string>, fetch: Fetcher)
    ensures forall u | u in TitleRun(t, order, fetch).visited && u !in t.visited && SitemapTitle(fetch(u)).Some? ::
              u in TitleRun(t, order, fetch).data && TitleRun(t, order, fetch).data[u] == SitemapTitle(fetch(u)).value
    decreases |order|
  {
    if order != [] {
      TitleRunTitles(t, order[..|order| - 1], fetch);
    }
  }

  /** Every URL of a crawl's levels was a start URL or an on-site URL. */
  ghost predicate Reached(order: seq<string>, start: set<string>, domain: string) {
    forall i | 0 <= i < |order| :: order[i] in start || OnSiteUrl(order[i], domain)
  }

  lemma ReachedJoin(order: seq<string>, step: seq<string>, current: set<string>, start: set<string>,
                    domain: string)
    requires Reached(order, start, domain) && forall i | 0 <= i < |step| :: step[i] in current
    requires current == start || AllOnSite(current, domain)
    ensures Reached(order + step, start, domain)
  {
    forall i | 0 <= i < |order + step|
      ensures (order + step)[i] in start || OnSiteUrl((order + step)[i], domain)
    {
      if i >= |order| {
        assert (order + step)[i] == step[i - |order|];
      } else {
        assert (order + step)[i] == order[i];
      }
    }
  }

  /**
   * What one URL of a level adds to `next_level_urls`, given `visited` just
   * before it: a 200 page's `parse_links` result below the last level, or a
   * redirect's accepted target; a URL that is not fetched adds nothing.
   */
  function Found(visited: set<string>, url: string, depth: nat, domain: string, fetch: Fetcher,
                 canCrawl: string -> bool, resolve: Resolver): set<string>
  {
    if url in visited || !canCrawl(url) then {}
    else if IsOk(fetch(url)) then
      if depth < MaxDepth - 1
      then LinksFound(fetch(url).page, url, domain, JudgeOf(domain, visited + {url}), resolve)
      else {}
    else RedirectTarget(fetch(url), url, domain, visited, resolve)
  }

  /** `next_level_urls` once a level at `depth` has visited the URLs of `order` in turn. */
  function LevelNext(t: Tally, order: seq<string>, depth: nat, domain: string, fetch: Fetcher,
                     canCrawl: string -> bool, resolve: Resolver): set<string>
    decreases |order|
  {
    if order == [] then {}
    else
      var front := order[..|order| - 1];
      LevelNext(t, front, depth, domain, fetch, canCrawl, resolve) +
      Found(LevelRun(t, front, fetch, canCrawl).visited, order[|order| - 1], depth, domain, fetch, canCrawl, resolve)
  }

  lemma LevelNextSnoc(t: Tally, order: seq<string>, u: string, depth: nat, domain: string, fetch: Fetcher,
                      canCrawl: string -> bool, resolve: Resolver)
    ensures LevelNext(t, order + [u], depth, domain, fetch, canCrawl, resolve) ==
            LevelNext(t, order, depth, domain, fetch, canCrawl, resolve) +
            Found(LevelRun(t, order, fetch, canCrawl).visited, u, depth, domain, fetch, canCrawl, resolve)
  {
    assert (order + [u])[..|order|] == order;
  }

  /** The levels run one after the other, as one visiting order. */
  function Flatten(levels: seq<seq<string>>): seq<string>
    decreases |levels|
  {
    if levels == [] then [] else Flatten(levels[..|levels| - 1]) + levels[|levels| - 1]
  }

  /**
   * The set the level loop works on after running `levels` from the counters
   * `t`: `start` before the first level, then the `next_level_urls` of the
   * last level run.
   */
  function Frontier(t: Tally, start: set<string>, levels: seq<seq<string>>, domain: string, fetch: Fetcher,
                    canCrawl: string -> bool, resolve: Resolver): set<string>
  {
    if levels == [] then start
    else
      var front := levels[..|levels| - 1];
      LevelNext(LevelRun(t, Flatten(front), fetch, canCrawl), levels[|levels| - 1], |front|,
                domain, fetch, canCrawl, resolve)
  }

  /** `order` lists each member of `s` exactly once. */
  predicate Lists(order: seq<string>, s: set<string>) {
    NoDuplicates(order) && (forall i | 0 <= i < |order| :: order[i] in s) && forall u | u in s :: u in order
  }

  /**
   * `levels` is a run of the loop of `crawl` from `start`: level 0 lists
   * `start`, level d + 1 lists the `next_level_urls` of level d, and every
   * level began with the loop condition true.
   */
  ghost predicate LevelsFollow(t: Tally, start: set<string>, levels: seq<seq<string>>, domain: string,
                               fetch: Fetcher, canCrawl: string -> bool, resolve: Resolver)
    decreases |levels|
  {
    levels == [] ||
    var front := levels[..|levels| - 1];
    LevelsFollow(t, start, front, domain, fetch, canCrawl, resolve) && |levels| <= MaxDepth &&
    Lists(levels[|levels| - 1], Frontier(t, start, front, domain, fetch, canCrawl, resolve)) &&
    Frontier(t, start, front, domain, fetch, canCrawl, resolve) != {} &&
    |LevelRun(t, Flatten(front), fetch, canCrawl).visited| < MaxUrls
  }

  /** The loop has stopped: nothing left to visit, the depth limit, or the cap at a level boundary. */
  ghost predicate LevelsStopped(t: Tally, start: set<string>, levels: seq<seq<string>>, domain: string,
                                fetch: Fetcher, canCrawl: string -> bool, resolve: Resolver)
  {
    Frontier(t, start, levels, domain, fetch, canCrawl, resolve) == {} || |levels| == MaxDepth ||
    |LevelRun(t, Flatten(levels), fetch, canCrawl).visited| >= MaxUrls
  }

  /** Running one more level, on the current frontier, extends a run of the loop. */
  lemma LevelsFollowSnoc(t: Tally, start: set<string>, levels: seq<seq<string>>, step: seq<string>,
                         domain: string, fetch: Fetcher, canCrawl: string -> bool, resolve: Resolver)
    requires LevelsFollow(t, start, levels, domain, fetch, canCrawl, resolve) && |levels| < MaxDepth
    requires Frontier(t, start, levels, domain, fetch, canCrawl, resolve) != {}
    requires Lists(step, Frontier(t, start, levels, domain, fetch, canCrawl, resolve))
    requires |LevelRun(t, Flatten(levels), fetch, canCrawl).visited| < MaxUrls
    ensures LevelsFollow(t, start, levels + [step], domain, fetch, canCrawl, resolve)
    ensures Flatten(levels + [step]) == Flatten(levels) + step
    ensures Frontier(t, start, levels + [step], domain, fetch, canCrawl, resolve) ==
            LevelNext(LevelRun(t, Flatten(levels), fetch, canCrawl), step, |levels|, domain, fetch, canCrawl, resolve)
  {
    assert (levels + [step])[..|levels|] == levels;
  }

  /** Every prefix of a run of the loop is a run of the loop. */
  lemma {:induction false} LevelsFollowPrefix(t: Tally, start: set<string>, levels: seq<seq<string>>, k: nat,
                                              domain: string, fetch: Fetcher, canCrawl: string -> bool,
                                              resolve: Resolver)
    requires LevelsFollow(t, start, levels, domain, fetch, canCrawl, resolve) && k <= |levels|
    ensures LevelsFollow(t, start, levels[..k], domain, fetch, canCrawl, resolve)
    decreases |levels|
  {
    if k < |levels| {
      var front := levels[..|levels| - 1];
      LevelsFollowPrefix(t, start, front, k, domain, fetch, canCrawl, resolve);
      assert front[..k] == levels[..k];
    } else {
      assert levels[..k] == levels;
    }
  }

  /** A URL of a level that robots.txt allows and that answers 200 is visited once the level has run. */
  lemma {:induction false} LevelRunFetches(t: Tally, order: seq<string>, u: string, fetch: Fetcher,
                                           canCrawl: string -> bool)
    requires u in order && canCrawl(u) && IsOk(fetch(u))
    ensures u in LevelRun(t, order, fetch, canCrawl).visited
    decreases |order|
  {
    var front := order[..|order| - 1];
    if u == order[|order| - 1] {
    } else {
      var k :| 0 <= k < |order| && order[k] == u;
      assert front[k] == u;
      LevelRunFetches(t, front, u, fetch, canCrawl);
    }
  }

  /**
   * The loop of `crawl` run on a non-empty start set below the cap runs at
   * least one level, so every start URL that robots.txt allows and that
   * answers 200 ends visited.
   */
  lemma StartFetched(t: Tally, start: set<string>, levels: seq<seq<string>>, u: string, domain: string,
                     fetch: Fetcher, canCrawl: string -> bool, resolve: Resolver)
    requires LevelsFollow(t, start, levels, domain, fetch, canCrawl, resolve)
    requires LevelsStopped(t, start, levels, domain, fetch, canCrawl, resolve)
    requires |t.visited| < MaxUrls && u in start && canCrawl(u) && IsOk(fetch(u))
    ensures levels != [] && Lists(levels[0], start)
    ensures u in LevelRun(t, Flatten(levels), fetch, canCrawl).visited
  {
    assert levels != [] by {
      assert Flatten([]) == [];
    }
    LevelsFollowPrefix(t, start, levels, 1, domain, fetch, canCrawl, resolve);
    assert levels[..1][..0] == [];
    var first := [levels[0]];
    assert Flatten(first) == levels[0] by {
      assert first[..0] == [];
    }
    var rest := levels[1..];
    FlattenSplit(levels, 1);
    assert levels[..1] == first;
    LevelRunConcat(t, Flatten(first), Flatten(rest), fetch, canCrawl);
    LevelRunFetches(t, levels[0], u, fetch, canCrawl);
    LevelRunVisited(LevelRun(t, levels[0], fetch, canCrawl), Flatten(rest), fetch, canCrawl);
  }

  /**
   * A link the level at depth d finds is listed, and so fetched, by level
   * d + 1 whenever the loop went on.
   */
  lemma NextLevelListed(t: Tally, start: set<string>, levels: seq<seq<string>>, d: nat, u: string,
                        domain: string, fetch: Fetcher, canCrawl: string -> bool, resolve: Resolver)
    requires LevelsFollow(t, start, levels, domain, fetch, canCrawl, resolve)
    requires d + 1 < |levels|
    requires u in LevelNext(LevelRun(t, Flatten(levels[..d]), fetch, canCrawl), levels[d], d,
                            domain, fetch, canCrawl, resolve)
    ensures u in levels[d + 1]
  {
    LevelsFollowPrefix(t, start, levels, d + 2, domain, fetch, canCrawl, resolve);
    var p := levels[..d + 2];
    var q := levels[..d + 1];
    assert p[..d + 1] == q && p[d + 1] == levels[d + 1];
    LevelsFollowLast(t, start, p, domain, fetch, canCrawl, resolve);
    assert q[..d] == levels[..d] && q[d] == levels[d];
    FrontierLast(t, start, q, domain, fetch, canCrawl, resolve);
  }

  lemma LevelsFollowLast(t: Tally, start: set<string>, levels: seq<seq<string>>, domain: string,
                         fetch: Fetcher, canCrawl: string -> bool, resolve: Resolver)
    requires LevelsFollow(t, start, levels, domain, fetch, canCrawl, resolve) && levels != []
    ensures Lists(levels[|levels| - 1], Frontier(t, start, levels[..|levels| - 1], domain, fetch, canCrawl, resolve))
  {
  }

  lemma FrontierLast(t: Tally, start: set<string>, levels: seq<seq<string>>, domain: string,
                     fetch: Fetcher, canCrawl: string -> bool, resolve: Resolver)
    requires levels != []
    ensures Frontier(t, start, levels, domain, fetch, canCrawl, resolve) ==
            LevelNext(LevelRun(t, Flatten(levels[..|levels| - 1]), fetch, canCrawl), levels[|levels| - 1],
                      |levels| - 1, domain, fetch, canCrawl, resolve)
  {
  }

  lemma {:induction false} FlattenSplit(levels: seq<seq<string>>, k: nat)
    requires k <= |levels|
    ensures Flatten(levels) == Flatten(levels[..k]) + Flatten(levels[k..])
    decreases |levels|
  {
    if |levels| == k {
      assert levels[..k] == levels;
      assert levels[k..] == [];
    } else {
      var front := levels[..|levels| - 1];
      FlattenSplit(front, k);
      assert front[..k] == levels[..k];
      var back := levels[k..];
      assert back[..|back| - 1] == front[k..];
      assert back[|back| - 1] == levels[|levels| - 1];
    }
  }

  // ------------------------------------------------------------ the crawler

  class Crawler {
    const startUrl: string
    const domain: string
    var urls: set<string>
    var visited: set<string>
    var crawledUrls: nat
    var totalUrls: nat
    var urlData: map<string, string>

    /** The start URL parses and `domain` is its host. */
    ghost predicate Valid() {
      UrlParse(startUrl).Ok? && domain == UrlParse(startUrl).value.netloc
    }

    /** The counters the crawl loops change. */
    function Counters(): Tally
      reads this
    {
      Tally(visited, crawledUrls, urlData)
    }

    /** `__init__` */
    constructor (start: string)
      requires UrlParse(NormalizeUrl(start)).Ok?
      ensures startUrl == NormalizeUrl(start) && Valid()
      ensures urls == {} && visited == {} && crawledUrls == 0 && totalUrls == 0 && urlData == map[]
    {
      var url := NormalizeUrl(start);
      var parsed := UrlParse(url);
      startUrl := url;
      domain := parsed.value.netloc;
      urls := {};
      visited := {};
      crawledUrls := 0;
      totalUrls := 0;
      urlData := map[];
    }

    /** `parse_links(html, base)`, where `judge` is `_is_valid_url` (`JudgeOf(domain, visited)`); changes nothing. */
    method ParseLinks(page: Page, base: string, resolve: Resolver, judge: Judge) returns (found: set<string>)
      ensures found == LinksFound(page, base, domain, judge, resolve)
    {
      var ts := AnchorTargets(page.linkTargets, base, resolve);
      found := {};
      var i := 0;
      while i < |page.linkTargets|
        invariant i <= |page.linkTargets|
        invariant ScanUrls(ts[..i], judge) == Scan(found, false)
      {
        assert ts[..i + 1][..i] == ts[..i];
        var h := Strip(page.linkTargets[i]);
        if !IsSkippedHref(h) {
          var target := resolve(base, h);
          if target.None? {
            AbortSticks(ts, i + 1, judge);
            return;
          }
          var verdict := judge(target.value);
          if verdict == Unparsable {
            AbortSticks(ts, i + 1, judge);
            return;
          }
          if verdict == Accepted {
            found := found + {target.value};
          }
        }
        i := i + 1;
      }
      assert ts[..i] == ts;
      var more := CollectExtra(page.scriptUrls, base, resolve, false, judge);
      var data := CollectExtra(page.dataAttrs, base, resolve, true, judge);
      found := found + more + data;
    }

    /**
     * The script and `data-*` loops of `parse_links`, where `judge` is
     * `_is_valid_url` (`JudgeOf(domain, visited)`): failures skip one candidate.
     */
    method CollectExtra(vs: seq<string>, base: string, resolve: Resolver, isData: bool, judge: Judge)
      returns (found: set<string>)
      ensures found == CollectUrls(ExtraTargets(vs, base, resolve, isData, domain), judge)
    {
      var ts := ExtraTargets(vs, base, resolve, isData, domain);
      found := {};
      var i := 0;
      while i < |vs|
        invariant i <= |vs|
        invariant found == CollectUrls(ts[..i], judge)
      {
        assert ts[..i + 1][..i] == ts[..i];
        var v := vs[i];
        if !isData || StartsWith(v, "/") || Contains(v, domain) {
          var target := if StartsWith(v, "/") then resolve(base, v) else Some(v);
          if target.Some? && judge(target.value) == Accepted {
            found := found + {target.value};
          }
        }
        i := i + 1;
      }
      assert ts[..i] == ts;
    }

    /**
     * `parse_sitemap(url)` with `fuel` nested calls left, where `judge` is
     * `_is_valid_url` (`JudgeOf(domain, visited)`, and `visited` does not change).
     */
    method ParseSitemap(url: string, fuel: nat, source: SitemapSource, judge: Judge)
      modifies this
      ensures urls == old(urls) + SitemapUrls(url, fuel, source, judge)
      ensures visited == old(visited) && crawledUrls == old(crawledUrls) &&
              totalUrls == old(totalUrls) && urlData == old(urlData)
      decreases fuel, 0
    {
      if fuel == 0 {
        return;
      }
      var reply := source(url);
      if !reply.Reply? || reply.status != 200 || reply.document.None? {
        return;
      }
      ParseDocument(reply.document.value, fuel - 1, source, judge);
    }

    /** The body of `parse_sitemap` once the document has parsed. */
    method ParseDocument(root: Xml, fuel: nat, source: SitemapSource, judge: Judge)
      modifies this
      ensures urls == old(urls) + DocumentUrls(root, fuel, source, judge)
      ensures visited == old(visited) && crawledUrls == old(crawledUrls) &&
              totalUrls == old(totalUrls) && urlData == old(urlData)
      decreases fuel, 1
    {
      var elems := Descendants(root.children);
      var aborted := AddLocs(LocTexts(elems), judge);
      if aborted {
        return;
      }
      var children := ChildSitemaps(elems);
      ghost var u0 := urls;
      var j := 0;
      while j < |children|
        invariant j <= |children| && visited == old(visited)
        invariant urls == u0 + IndexUrls(children[..j], fuel, source, judge)
        invariant crawledUrls == old(crawledUrls) && totalUrls == old(totalUrls) && urlData == old(urlData)
      {
        assert children[..j + 1][..j] == children[..j];
        ParseSitemap(children[j], fuel, source, judge);
        j := j + 1;
      }
      assert children[..j] == children;
    }

    /**
     * The `loc` loop of `parse_sitemap`: each accepted `loc` is added as it is
     * met; an unparsable one ends the document, keeping what was added.
     */
    method AddLocs(locs: seq<string>, judge: Judge) returns (aborted: bool)
      modifies this
      ensures urls == old(urls) + ScanUrls(LocTargets(locs), judge).found
      ensures aborted == ScanUrls(LocTargets(locs), judge).aborted
      ensures visited == old(visited) && crawledUrls == old(crawledUrls) &&
              totalUrls == old(totalUrls) && urlData == old(urlData)
    {
      var ts := LocTargets(locs);
      ghost var own: set<string> := {};
      aborted := false;
      var i := 0;
      while i < |locs|
        invariant i <= |locs|
        invariant ScanUrls(ts[..i], judge) == Scan(own, false)
        invariant urls == old(urls) + own
        invariant visited == old(visited) && crawledUrls == old(crawledUrls) &&
                  totalUrls == old(totalUrls) && urlData == old(urlData)
      {
        assert ts[..i + 1][..i] == ts[..i];
        var verdict := judge(locs[i]);
        if verdict == Unparsable {
          AbortSticks(ts, i + 1, judge);
          aborted := true;
          return;
        }
        if verdict == Accepted {
          urls := urls + {locs[i]};
          own := own + {locs[i]};
        }
        i := i + 1;
      }
      assert ts[..i] == ts;
    }

    /**
     * The sitemap title pass of `crawl`: every collected URL, in some order,
     * is visited, counted and titled while fewer than `MaxUrls` are visited.
     */
    method SitemapTitles(fetch: Fetcher) returns (ghost order: seq<string>)
      modifies this
      ensures Counters() == TitleRun(old(Counters()), order, fetch)
      ensures NoDuplicates(order) && (forall i | 0 <= i < |order| :: order[i] in urls)
      ensures forall u | u in urls :: u in order
      ensures urls == old(urls) && totalUrls == old(totalUrls)
    {
      order := [];
      var rest := urls;
      while rest != {}
        invariant rest <= urls && urls == old(urls) && totalUrls == old(totalUrls)
        invariant Counters() == TitleRun(old(Counters()), order, fetch)
        invariant NoDuplicates(order) && forall i | 0 <= i < |order| :: order[i] in urls && order[i] !in rest
        invariant forall u | u in urls && u !in rest :: u in order
        decreases rest
      {
        var u :| u in rest;
        TitleRunSnoc(old(Counters()), order, u, fetch);
        NoDuplicatesSnoc(order, u);
        if |visited| < MaxUrls {
          visited := visited + {u};
          crawledUrls := crawledUrls + 1;
          var title := SitemapTitle(fetch(u));
          if title.Some? {
            urlData := urlData[u := title.value];
          }
        }
        order := order + [u];
        rest := rest - {u};
      }
    }

    /**
     * One URL of a level: fetched when new and allowed, then recorded; `found`
     * is what it adds to the next level.
     */
    method Visit(url: string, depth: nat, next: set<string>, fetch: Fetcher, canCrawl: string -> bool,
                 resolve: Resolver)
      returns (found: set<string>, fetched: bool)
      modifies this
      ensures fetched <==> url !in old(visited) && canCrawl(url)
      ensures Counters() == VisitStep(old(Counters()), url, fetch, canCrawl)
      ensures found == Found(old(visited), url, depth, domain, fetch, canCrawl, resolve)
      ensures AllOnSite(found, domain) && (!fetched ==> found == {})
      ensures totalUrls == if fetched then |visited| + |next + found| else old(totalUrls)
      ensures urls == old(urls)
    {
      found := {};
      fetched := url !in visited && canCrawl(url);
      if !fetched {
        return;
      }
      var outcome := fetch(url);
      if IsOk(outcome) {
        found := RecordPage(url, outcome.page, depth, resolve);
      } else {
        found := FollowRedirect(url, outcome, resolve);
      }
      totalUrls := |visited| + |next + found|;
    }

    /** A 200 answer: the page is visited, its title recorded, its links parsed below the last level. */
    method RecordPage(url: string, page: Page, depth: nat, resolve: Resolver) returns (found: set<string>)
      requires url !in visited
      modifies this
      ensures visited == old(visited) + {url} && crawledUrls == old(crawledUrls) + 1
      ensures urlData == old(urlData)[url := ExtractTitle(page)]
      ensures found == if depth < MaxDepth - 1
                       then LinksFound(page, url, domain, JudgeOf(domain, old(visited) + {url}), resolve)
                       else {}
      ensures AllOnSite(found, domain)
      ensures urls == old(urls) && totalUrls == old(totalUrls)
    {
      visited := visited + {url};
      crawledUrls := crawledUrls + 1;
      urlData := urlData[url := ExtractTitle(page)];
      found := {};
      if depth < MaxDepth - 1 {
        found := ParseLinks(page, url, resolve, JudgeOf(domain, visited));
        LinksAdmitted(page, url, domain, visited, resolve);
      }
    }

    /** Any other answer: a redirect with a `Location` contributes its accepted target. */
    method FollowRedirect(url: string, outcome: FetchOutcome, resolve: Resolver) returns (found: set<string>)
      ensures found == RedirectTarget(outcome, url, domain, visited, resolve)
      ensures AllOnSite(found, domain)
    {
      RedirectOnSite(outcome, url, domain, visited, resolve);
      found := {};
      if outcome.Response? && IsRedirect(outcome.status) && outcome.location.Some? &&
         outcome.location.value != "" {
        var full := resolve(url, outcome.location.value);
        if full.Some? && Judgement(full.value, domain, visited) == Accepted {
          found := {full.value};
        }
      }
    }

    /** One level: every URL of `current`, in some order, exactly once. */
    method Level(current: set<string>, depth: nat, fetch: Fetcher, canCrawl: string -> bool,
                 resolve: Resolver)
      returns (next: set<string>, ghost order: seq<string>)
      modifies this
      ensures Counters() == LevelRun(old(Counters()), order, fetch, canCrawl)
      ensures NoDuplicates(order) && (forall i | 0 <= i < |order| :: order[i] in current)
      ensures forall u | u in current :: u in order
      ensures next == LevelNext(old(Counters()), order, depth, domain, fetch, canCrawl, resolve)
      ensures AllOnSite(next, domain)
      ensures (forall u | u in current :: u in old(visited)) ==> next == {} && Counters() == old(Counters())
      ensures urls == old(urls)
    {
      next := {};
      order := [];
      var rest := current;
      while rest != {}
        invariant rest <= current && urls == old(urls)
        invariant Counters() == LevelRun(old(Counters()), order, fetch, canCrawl)
        invariant NoDuplicates(order) && forall i | 0 <= i < |order| :: order[i] in current && order[i] !in rest
        invariant forall u | u in current && u !in rest :: u in order
        invariant next == LevelNext(old(Counters()), order, depth, domain, fetch, canCrawl, resolve)
        invariant AllOnSite(next, domain)
        invariant (forall u | u in current :: u in old(visited)) ==> next == {} && Counters() == old(Counters())
        decreases rest
      {
        var u :| u in rest;
        LevelRunSnoc(old(Counters()), order, u, fetch, canCrawl);
        NoDuplicatesSnoc(order, u);
        LevelNextSnoc(old(Counters()), order, u, depth, domain, fetch, canCrawl, resolve);
        var found, fetched := Visit(u, depth, next, fetch, canCrawl, resolve);
        OnSiteJoin(next, found, domain);
        next := next + found;
        order := order + [u];
        rest := rest - {u};
      }
    }

    /**
     * The level loop of `crawl`: at most `MaxDepth` levels, stopping early
     * when a level is empty or `MaxUrls` URLs are visited at a level boundary.
     */
    method Levels(start: set<string>, fetch: Fetcher, canCrawl: string -> bool, resolve: Resolver)
      returns (depth: nat, ghost order: seq<string>, ghost levels: seq<seq<string>>)
      modifies this
      ensures depth <= MaxDepth && depth == |levels| && order == Flatten(levels)
      ensures LevelsFollow(old(Counters()), start, levels, domain, fetch, canCrawl, resolve)
      ensures LevelsStopped(old(Counters()), start, levels, domain, fetch, canCrawl, resolve)
      ensures Counters() == LevelRun(old(Counters()), order, fetch, canCrawl)
      ensures Reached(order, start, domain)
      ensures (forall u | u in start :: u in old(visited)) ==> Counters() == old(Counters())
      ensures urls == old(urls)
    {
      ghost var t0 := Counters();
      var current := start;
      depth := 0;
      order := [];
      levels := [];
      while current != {} && depth < MaxDepth && |visited| < MaxUrls
        invariant depth <= MaxDepth && urls == old(urls)
        invariant depth == |levels| && order == Flatten(levels)
        invariant LevelsFollow(t0, start, levels, domain, fetch, canCrawl, resolve)
        invariant current == Frontier(t0, start, levels, domain, fetch, canCrawl, resolve)
        invariant Counters() == LevelRun(t0, order, fetch, canCrawl)
        invariant Reached(order, start, domain)
        invariant depth > 0 ==> AllOnSite(current, domain)
        invariant depth == 0 ==> current == start
        invariant (forall u | u in start :: u in t0.visited) ==>
                    Counters() == t0 && (depth > 0 ==> current == {})
        decreases MaxDepth - depth
      {
        ghost var before := Counters();
        var next;
        ghost var step;
        next, step := Level(current, depth, fetch, canCrawl, resolve);
        assert Counters() == LevelRun(before, step, fetch, canCrawl);
        assert next == LevelNext(before, step, depth, domain, fetch, canCrawl, resolve);
        assert Lists(step, current);
        LevelRunConcat(t0, order, step, fetch, canCrawl);
        ReachedJoin(order, step, current, start, domain);
        LevelsFollowSnoc(t0, start, levels, step, domain, fetch, canCrawl, resolve);
        levels := levels + [step];
        order := order + step;
        current := next;
        depth := depth + 1;
      }
    }

    /**
     * `crawl`: the start URL and every admitted sitemap `loc` are collected,
     * the sitemap URLs are visited with their titles, and the level loop
     * starts from all visited URLs when there are more than one, otherwise
     * from the start URL.  `seeds` is `visited` when the level loop starts.
     */
    method Crawl(sitemaps: SitemapSource, fuel: nat, titleFetch: Fetcher, fetch: Fetcher,
                 canCrawl: string -> bool, resolve: Resolver)
      returns (ghost seeds: set<string>, ghost entry: Tally, ghost levels: seq<seq<string>>)
      requires Valid()
      modifies this
      ensures startUrl in urls && AllOnSite(urls - old(urls) - {startUrl}, domain)
      ensures old(visited) <= seeds <= visited && seeds - old(visited) <= urls
      ensures |old(visited)| < MaxUrls ==> |seeds| <= MaxUrls
      ensures |urls| > 1 ==> forall u | u in urls :: u in seeds || |seeds| >= MaxUrls
      ensures forall u | u in seeds && u !in old(visited) && SitemapTitle(titleFetch(u)).Some? ::
                u in urlData && urlData[u] == SitemapTitle(titleFetch(u)).value
      ensures |seeds| > 1 ==> visited == seeds
      ensures AllOnSite(visited - seeds - {startUrl}, domain)
      ensures forall u | u in visited && u !in seeds ::
                canCrawl(u) && IsOk(fetch(u)) && u in urlData && urlData[u] == ExtractTitle(fetch(u).page)
      ensures old(visited) == {} && old(crawledUrls) == 0 ==> crawledUrls == |visited|
      ensures entry.visited == seeds && Counters() == LevelRun(entry, Flatten(levels), fetch, canCrawl)
      ensures LevelsFollow(entry, if |seeds| > 1 then seeds else {startUrl}, levels, domain, fetch, canCrawl, resolve)
      ensures LevelsStopped(entry, if |seeds| > 1 then seeds else {startUrl}, levels, domain, fetch, canCrawl, resolve)
      ensures |seeds| <= 1 && canCrawl(startUrl) && IsOk(fetch(startUrl)) ==> startUrl in visited
    {
      urls := urls + {startUrl};
      totalUrls := 1;
      IngestSitemaps(sitemaps, fuel);
      SitemapPhase(titleFetch);
      seeds := visited;
      entry := Counters();
      ghost var t1 := entry;
      var start := if |visited| > 1 then visited else {startUrl};
      var depth;
      ghost var order;
      depth, order, levels := Levels(start, fetch, canCrawl, resolve);
      if |seeds| <= 1 && canCrawl(startUrl) && IsOk(fetch(startUrl)) {
        StartFetched(t1, start, levels, startUrl, domain, fetch, canCrawl, resolve);
      }
      LevelRunVisited(t1, order, fetch, canCrawl);
      LevelRunTitles(t1, order, fetch, canCrawl);
      CrawlOnSite(t1, order, start, fetch, canCrawl, startUrl, domain);
    }

    /** The sitemap part of `crawl`: the title pass runs when a sitemap gave any URL. */
    method SitemapPhase(titleFetch: Fetcher)
      modifies this
      ensures old(visited) <= visited && visited - old(visited) <= urls
      ensures |old(visited)| < MaxUrls ==> |visited| <= MaxUrls
      ensures |urls| > 1 ==> forall u | u in urls :: u in visited || |visited| >= MaxUrls
      ensures forall u | u in visited && u !in old(visited) && SitemapTitle(titleFetch(u)).Some? ::
                u in urlData && urlData[u] == SitemapTitle(titleFetch(u)).value
      ensures old(visited) == {} && old(crawledUrls) == 0 ==> crawledUrls == |visited|
      ensures urls == old(urls) && totalUrls == old(totalUrls)
    {
      if |urls| > 1 {
        ghost var t0 := Counters();
        ghost var listed := SitemapTitles(titleFetch);
        TitleRunVisited(t0, listed, titleFetch);
        TitleRunTitles(t0, listed, titleFetch);
        if t0.visited == {} {
          TitleRunCount(t0, listed, titleFetch);
        }
      }
    }

    /** The five `parse_sitemap` calls of `crawl`. */
    method IngestSitemaps(sitemaps: SitemapSource, fuel: nat)
      requires Valid()
      modifies this
      ensures old(urls) <= urls
      ensures AllOnSite(urls - old(urls), domain)
      ensures visited == old(visited) && crawledUrls == old(crawledUrls) &&
              totalUrls == old(totalUrls) && urlData == old(urlData)
    {
      var base := UrlParse(startUrl).value;
      var k := 0;
      while k < |SitemapPaths|
        invariant k <= |SitemapPaths| && old(urls) <= urls
        invariant AllOnSite(urls - old(urls), domain)
        invariant visited == old(visited) && crawledUrls == old(crawledUrls) &&
                  totalUrls == old(totalUrls) && urlData == old(urlData)
      {
        var loc := SitemapLocation(base, SitemapPaths[k]);
        SitemapAdmitted(loc, fuel, sitemaps, domain, visited);
        ParseSitemap(loc, fuel, sitemaps, JudgeOf(domain, visited));
        k := k + 1;
      }
    }
  }

  /** The URLs a crawl's levels add beyond the seeds and the start URL are on site. */
  lemma CrawlOnSite(t: Tally, order: seq<string>, start: set<string>, fetch: Fetcher, canCrawl: string -> bool,
                    startUrl: string, domain: string)
    requires Reached(order, start, domain)
    requires start == t.visited || start == {startUrl}
    requires forall u | u in LevelRun(t, order, fetch, canCrawl).visited && u !in t.visited :: u in order
    ensures AllOnSite(LevelRun(t, order, fetch, canCrawl).visited - t.visited - {startUrl}, domain)
  {
    forall u | u in LevelRun(t, order, fetch, canCrawl).visited - t.visited - {startUrl}
      ensures OnSiteUrl(u, domain)
    {
      var k :| 0 <= k < |order| && order[k] == u;
    }
  }

  lemma OnSiteJoin(a: set<string>, b: set<string>, domain: string)
    requires AllOnSite(a, domain) && AllOnSite(b, domain)
    ensures AllOnSite(a + b, domain)
  {
  }
}
