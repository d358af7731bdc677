/**
 * The string policy of `EnhancedCrawler`: start-URL normalisation, the base
 * domain used for subdomain probing, the validity predicate, clean URLs,
 * title extraction and the titles recorded for each fetch outcome.
 */
module EnhancedPolicy {
  import opened Text
  import opened Wrappers
  import opened Urls
  import opened Web
  import UrlFacts

  /** `_normalize_url`: `https://` is prepended unless an http(s) prefix is present. */
  function NormalizeUrl(url: string): (r: string)
    ensures HasHttpPrefix(r)
  {
    if HasHttpPrefix(url) then url else "https://" + url
  }

  /**
   * Normalising keeps the URL as its suffix, leaves an http(s) URL alone and
   * otherwise adds exactly the eight characters of `https://`.
   */
  lemma NormalizeUrlKeeps(url: string)
    ensures EndsWith(NormalizeUrl(url), url)
    ensures HasHttpPrefix(url) ==> NormalizeUrl(url) == url
    ensures !HasHttpPrefix(url) ==> |NormalizeUrl(url)| == |url| + 8
  {
    if !HasHttpPrefix(url) {
      assert ("https://" + url)[8..] == url;
    }
  }

  lemma NormalizeUrlIdempotent(url: string)
    ensures NormalizeUrl(NormalizeUrl(url)) == NormalizeUrl(url)
  {
  }

  /** The first labels that mark a host as a subdomain of its base domain. */
  predicate IsSubdomainLabel(name: string) {
    name in {"www", "blog", "api", "app", "help", "support", "docs"}
  }

  predicate HasTwoLevelSuffix(host: string) {
    EndsWith(host, ".com.tr") || EndsWith(host, ".org.tr")
  }

  /** How many trailing labels of a subdomain host make up its base domain. */
  function BaseLabelCount(host: string): nat {
    if HasTwoLevelSuffix(host) then 3 else 2
  }

  /**
   * `base_domain` in `EnhancedCrawler.__init__`: the last three (".com.tr",
   * ".org.tr") or last two labels of a host with at least two dots whose first
   * label is a common subdomain label; the host itself otherwise.
   */
  function BaseDomain(host: string): string
  {
    if CountChar(host, '.') >= 2 then
      var parts := Split(host, '.');
      if |parts| >= 3 && IsSubdomainLabel(parts[0]) then
        Join(parts[|parts| - BaseLabelCount(host)..], ".")
      else host
    else host
  }

  /** The base domain is a suffix of the host. */
  lemma BaseDomainSuffix(host: string)
    ensures EndsWith(host, BaseDomain(host))
  {
    var parts := Split(host, '.');
    if CountChar(host, '.') >= 2 && |parts| >= 3 && IsSubdomainLabel(parts[0]) {
      JoinSplitTail(host, '.', |parts| - BaseLabelCount(host));
    }
  }

  /**
   * The base domain keeps exactly the last two or three labels of a host
   * with at least three labels whose first label marks a subdomain, and is
   * the host itself in every other case.
   */
  lemma BaseDomainLabels(host: string)
    ensures var parts := Split(host, '.');
            if |parts| >= 3 && IsSubdomainLabel(parts[0])
            then Split(BaseDomain(host), '.') == parts[|parts| - BaseLabelCount(host)..]
            else BaseDomain(host) == host
  {
    var parts := Split(host, '.');
    SplitCount(host, '.');
    if |parts| >= 3 && IsSubdomainLabel(parts[0]) {
      var tail := parts[|parts| - BaseLabelCount(host)..];
      SplitPieces(host, '.');
      LabelsTail(parts, |parts| - BaseLabelCount(host));
      SplitJoin(tail, '.');
    }
  }

  /** A tail of labels holds no dot either. */
  lemma LabelsTail(parts: seq<string>, m: nat)
    requires m < |parts| && forall k | 0 <= k < |parts| :: NoChar(parts[k], '.')
    ensures |parts[m..]| >= 1 && forall k | 0 <= k < |parts[m..]| :: NoChar(parts[m..][k], '.')
  {
    assert forall k | 0 <= k < |parts[m..]| :: parts[m..][k] == parts[m + k];
  }

  /** The extensions `_is_valid_url` refuses, after lower-casing the path. */
  predicate HasSkippedExtension(path: string) {
    EndsWith(path, ".pdf") || EndsWith(path, ".jpg") || EndsWith(path, ".jpeg") ||
    EndsWith(path, ".png") || EndsWith(path, ".gif") || EndsWith(path, ".css") ||
    EndsWith(path, ".js") || EndsWith(path, ".ico")
  }

  /**
   * `_is_valid_url`: the host is one of the allowed hosts, the scheme is http
   * or https and the path does not name a binary or asset file; a URL that
   * does not parse is invalid.
   */
  predicate IsValidUrl(url: string, allowed: set<string>) {
    match UrlParse(url)
    case Err(_) => false
    case Ok(p) =>
      p.netloc in allowed && (p.scheme == "http" || p.scheme == "https") &&
      !HasSkippedExtension(Lower(p.path))
  }

  /** The query string is never inspected: appending one keeps the verdict. */
  lemma ValidityIgnoresQuery(url: string, query: string, allowed: set<string>)
    requires NoChar(url, '?') && NoChar(url, '#')
    ensures IsValidUrl(url + "?" + query, allowed) == IsValidUrl(url, allowed)
  {
    UrlFacts.ParseAppendQuery(url, query);
  }

  /** Allowing more hosts never invalidates a URL. */
  lemma ValidityMonotone(url: string, allowed: set<string>, more: set<string>)
    requires allowed <= more && IsValidUrl(url, allowed)
    ensures IsValidUrl(url, more)
  {
  }

  /**
   * The clean URL of `_comprehensive_link_extraction`:
   * `scheme://netloc` + path, and `?query` when the query is not empty.
   */
  function CleanUrl(p: Parts): string {
    p.scheme + "://" + p.netloc + p.path + (if p.query != "" then "?" + p.query else "")
  }

  /** A meta `content` candidate: taken, stripped, when present and not empty. */
  function MetaCandidate(o: Option<string>, current: string): string {
    if |current| < 3 && o.Some? && o.value != "" then Strip(o.value) else current
  }

  /**
   * Title selection in `_extract_title`: the `<title>` text, replaced in turn
   * by og:title, twitter:title and the `<h1>` text while the title so far is
   * missing or shorter than three characters; "" when nothing was found.
   */
  function SelectTitle(page: Page): (r: string)
    ensures r == "" || r == StrippedText(page.titleTag) || r == StrippedText(page.h1) ||
            r == StrippedText(page.ogTitle) || r == StrippedText(page.twitterTitle)
  {
    var t0 := StrippedText(page.titleTag);
    var t1 := MetaCandidate(page.ogTitle, t0);
    var t2 := MetaCandidate(page.twitterTitle, t1);
    if |t2| < 3 && StrippedText(page.h1) != "" then StrippedText(page.h1) else t2
  }

  /** A `<title>` of three or more characters is never overridden. */
  lemma TitleTagWins(page: Page)
    requires |StrippedText(page.titleTag)| >= 3
    ensures SelectTitle(page) == StrippedText(page.titleTag)
  {
  }

  /** og:title is preferred to twitter:title and `<h1>` when the `<title>` is short. */
  lemma OgTitleBeforeOthers(page: Page)
    requires |StrippedText(page.titleTag)| < 3
    requires page.ogTitle.Some? && |Strip(page.ogTitle.value)| >= 3
    ensures SelectTitle(page) == Strip(page.ogTitle.value)
  {
  }

  /** `title[:-len(suffix)]` when the title ends with the suffix. */
  function DropSuffix(t: string, suffix: string): (r: string)
    ensures StartsWith(t, r)
    ensures EndsWith(t, suffix) ==> t == r + suffix
    ensures !EndsWith(t, suffix) ==> r == t
  {
    if EndsWith(t, suffix) then
      assert t == t[..|t| - |suffix|] + t[|t| - |suffix|..];
      t[..|t| - |suffix|]
    else t
  }

  /** The suffixes " - domain", " | domain" and " :: domain" removed once each, in that order. */
  function StripDomain(t: string, domain: string): (r: string)
    ensures StartsWith(t, r)
  {
    var t1 := DropSuffix(t, " - " + domain);
    var t2 := DropSuffix(t1, " | " + domain);
    var t3 := DropSuffix(t2, " :: " + domain);
    assert t1 == t[..|t1|] && t2 == t1[..|t2|] && t3 == t2[..|t3|];
    t3
  }

  /** A cleaned title is kept when longer than two characters and not a generic word. */
  predicate IsMeaningful(t: string) {
    |t| > 2 && !IsGenericTitle(Lower(t))
  }

  predicate IsGenericTitle(lowered: string) {
    lowered in {"untitled", "page", "home"}
  }

  /**
   * Title cleanup in `_extract_title`: whitespace collapsed, the suffixes
   * " - domain", " | domain" and " :: domain" removed once each in that
   * order; kept only when longer than two characters and not a generic word.
   */
  function CleanTitle(title: string, domain: string): (r: string)
    ensures title == "" ==> r == TitleNotFound
    ensures title != "" && IsMeaningful(StripDomain(Collapse(title), domain)) ==>
            r == StripDomain(Collapse(title), domain)
    ensures title != "" && !IsMeaningful(StripDomain(Collapse(title), domain)) ==>
            r == TitleNotFound
    ensures r == TitleNotFound || (IsMeaningful(r) && StartsWith(Collapse(title), r))
  {
    if title == "" then TitleNotFound
    else
      var t := StripDomain(Collapse(title), domain);
      if IsMeaningful(t) then t else TitleNotFound
  }

  /**
   * A title read as "<name> - <domain>" is recorded as <name>, when <name>
   * is meaningful and does not itself end with one of the later suffixes.
   */
  lemma CleanTitleDropsDomain(title: string, name: string, domain: string)
    requires Collapse(title) == name + " - " + domain
    requires IsMeaningful(name)
    requires !EndsWith(name, " | " + domain) && !EndsWith(name, " :: " + domain)
    ensures CleanTitle(title, domain) == name
  {
    var t0 := Collapse(title);
    var suffix := " - " + domain;
    assert t0 == name + suffix;
    assert t0[|t0| - |suffix|..] == suffix;
    assert DropSuffix(t0, suffix) == name by {
      assert t0[..|t0| - |suffix|] == name;
    }
    assert Collapse("") == "";
  }

  /** `_extract_title` of `EnhancedCrawler`. */
  function ExtractTitle(page: Page, domain: string): string {
    CleanTitle(SelectTitle(page), domain)
  }

  /** `' '.join(...)` of the readable title: `-` and `_` become spaces, then `title()`. */
  function Humanize(segment: string): (r: string)
    ensures |r| == |segment|
  {
    TitleCase(ReplaceChar(ReplaceChar(segment, '-', ' '), '_', ' '))
  }

  /** The path segments kept for a readable title: not empty and not "index.html". */
  function KeptSegments(segments: seq<string>): (r: seq<string>)
    ensures |r| <= |segments|
    ensures forall k | 0 <= k < |r| :: r[k] != "" && r[k] != "index.html"
    ensures r == [] <==> forall k | 0 <= k < |segments| :: segments[k] == "" || segments[k] == "index.html"
  {
    if |segments| == 0 then []
    else
      var rest := KeptSegments(segments[1..]);
      assert forall k | 1 <= k < |segments| :: segments[k] == segments[1..][k - 1];
      if segments[0] != "" && segments[0] != "index.html" then [segments[0]] + rest else rest
  }

  /** `url.split('/')[-2:]`: the last two `/`-separated segments of a URL. */
  function LastTwoSegments(url: string): (r: seq<string>)
    ensures 1 <= |r| <= 2
  {
    var parts := Split(url, '/');
    if |parts| >= 2 then parts[|parts| - 2..] else parts
  }

  /** The readable title built from the last two segments of a URL. */
  function ReadableTitle(url: string): string {
    var kept := KeptSegments(LastTwoSegments(url));
    Join(seq(|kept|, k requires 0 <= k < |kept| => Humanize(kept[k])), " ")
  }

  lemma {:induction false} JoinNonEmpty(parts: seq<string>, sep: string)
    requires |parts| > 0 && parts[0] != ""
    ensures Join(parts, sep) != ""
  {
    if |parts| > 1 {
      assert |Join(parts, sep)| >= |parts[0]|;
    }
  }

  /**
   * The readable title is empty exactly when each of the last two segments
   * is empty or "index.html".
   */
  lemma ReadableTitleEmpty(url: string)
    ensures ReadableTitle(url) == "" <==>
            forall k | 0 <= k < |LastTwoSegments(url)| ::
              LastTwoSegments(url)[k] == "" || LastTwoSegments(url)[k] == "index.html"
  {
    var kept := KeptSegments(LastTwoSegments(url));
    if kept != [] {
      var words := seq(|kept|, k requires 0 <= k < |kept| => Humanize(kept[k]));
      assert |words[0]| == |kept[0]| > 0;
      JoinNonEmpty(words, " ");
    }
  }

  /** The readable title, or `fallback` when it is empty. */
  function ReadableOr(url: string, fallback: string): (r: string)
    requires fallback != ""
    ensures r != ""
  {
    var t := ReadableTitle(url);
    if t != "" then t else fallback
  }

  predicate IsRedirectStatus(code: nat) {
    code in {301, 302, 303, 307, 308}
  }

  function HttpStatusText(code: nat): string {
    "HTTP " + NatToString(code)
  }

  /**
   * The value the batch loop of `_deep_content_crawl` records for a URL:
   * for 200, the extracted title or else the readable title (falling back to
   * "Sayfa başlığı"); for a redirect status, "Yönlendirme"; for any other
   * status, "HTTP <code>"; one fixed text per exception class.
   */
  function BatchRecord(o: FetchOutcome, url: string, domain: string): (r: string)
    ensures r != ""
    ensures o.Response? && o.status == 200 && Strip(ExtractTitle(o.page, domain)) != "" &&
            ExtractTitle(o.page, domain) != TitleNotFound ==>
            r == Strip(ExtractTitle(o.page, domain))
    ensures o.Response? && o.status == 200 && r != Strip(ExtractTitle(o.page, domain)) ==>
            r == ReadableOr(url, "Sayfa başlığı")
    ensures o.Response? && o.status == 200 &&
            !(Strip(ExtractTitle(o.page, domain)) != "" && ExtractTitle(o.page, domain) != TitleNotFound) ==>
            r == ReadableOr(url, "Sayfa başlığı")
    ensures o.Response? && o.status != 200 ==>
            r == if IsRedirectStatus(o.status) then "Yönlendirme" else HttpStatusText(o.status)
    ensures o.Timeout? ==> r == "Zaman aşımı"
    ensures o.RequestError? ==> r == "Erişim hatası"
    ensures o.OtherError? ==> r == "Başlık alınamadı"
  {
    match o
    case Response(code, page, _) =>
      if code == 200 then
        var t := ExtractTitle(page, domain);
        if Strip(t) != "" && t != TitleNotFound then Strip(t) else ReadableOr(url, "Sayfa başlığı")
      else if IsRedirectStatus(code) then "Yönlendirme"
      else HttpStatusText(code)
    case Timeout => "Zaman aşımı"
    case RequestError => "Erişim hatası"
    case OtherError => "Başlık alınamadı"
  }

  /**
   * The value the finalisation step of `_deep_content_crawl` records for a
   * refetched URL: for 200 the extracted title or "Sayfa başlığı"; for every
   * other status "HTTP <code>"; on any exception the readable title or "Sayfa".
   */
  function FinalRecord(o: FetchOutcome, url: string, domain: string): (r: string)
    ensures r != ""
    ensures o.Response? && o.status == 200 ==>
            var t := ExtractTitle(o.page, domain);
            r == if t != "" && t != TitleNotFound then t else "Sayfa başlığı"
    ensures o.Response? && o.status != 200 ==> r == HttpStatusText(o.status)
    ensures !o.Response? ==> r == ReadableOr(url, "Sayfa")
  {
    match o
    case Response(code, page, _) =>
      if code == 200 then
        var t := ExtractTitle(page, domain);
        if t != "" && t != TitleNotFound then t else "Sayfa başlığı"
      else HttpStatusText(code)
    case _ => ReadableOr(url, "Sayfa")
  }

  /** The value recorded for a URL left without one: readable title or "Sayfa". */
  function LeftoverRecord(url: string): (r: string)
    ensures r != ""
  {
    ReadableOr(url, "Sayfa")
  }

  /**
   * Only the outcome matters: two fetches with the same exception class or
   * the same non-200 status record the same value for any two URLs in the
   * batch loop.
   */
  lemma BatchRecordOfFailure(o: FetchOutcome, u: string, v: string, domain: string)
    requires !(o.Response? && o.status == 200)
    ensures BatchRecord(o, u, domain) == BatchRecord(o, v, domain)
    ensures BatchRecord(o, u, domain) in
            {"Yönlendirme", "Zaman aşımı", "Erişim hatası", "Başlık alınamadı"} ||
            (o.Response? && BatchRecord(o, u, domain) == HttpStatusText(o.status))
  {
  }
}
