/**
 * Link and path discovery of `EnhancedCrawler`: href classification and link
 * extraction from a page, the URL-pattern template, and the first-segment
 * paths gathered for pattern generation.
 */
module EnhancedLinks {
  import opened Text
  import opened Wrappers
  import opened Urls
  import opened Web
  import opened EnhancedPolicy

  /** `s[i]` for every `i` with `keep(s[i])`, in order. */
  function Filter(s: seq<string>, keep: string -> bool): (r: seq<string>)
    ensures |r| <= |s|
    ensures forall k | 0 <= k < |r| :: keep(r[k])
  {
    if |s| == 0 then []
    else (if keep(s[0]) then [s[0]] else []) + Filter(s[1..], keep)
  }

  /** A reference that names no page: mail, phone, fragment or script. */
  predicate IsNonPageRef(href: string) {
    StartsWith(href, "mailto:") || StartsWith(href, "tel:") || StartsWith(href, "#") ||
    StartsWith(href, "javascript:")
  }

  /** What the anchor loop does with one `href`. */
  datatype HrefAction = Skip | Follow(url: string) | Raise

  function FromJoin(o: Option<string>): HrefAction {
    if o.Some? then Follow(o.value) else Raise
  }

  /**
   * Anchor classification in `_comprehensive_link_extraction`: root-relative
   * references are joined to the page URL, references starting with "http"
   * are taken as they are, mail/phone/fragment/script references are
   * skipped and everything else is joined.
   */
  function ClassifyHref(href: string, base: string, resolve: Resolver): (r: HrefAction)
    ensures r.Skip? <==> href == "" || IsNonPageRef(href)
    ensures StartsWith(href, "http") ==> r == Follow(href)
    ensures r.Raise? ==> resolve(base, href).None?
  {
    if href == "" then Skip
    else if StartsWith(href, "/") then
      RootRelativeIsPageRef(href);
      FromJoin(resolve(base, href))
    else if StartsWith(href, "http") then Follow(href)
    else if IsNonPageRef(href) then Skip
    else FromJoin(resolve(base, href))
  }

  lemma RootRelativeIsPageRef(href: string)
    requires StartsWith(href, "/")
    ensures !IsNonPageRef(href)
  {
    assert href[0] == href[..1][0] == '/';
  }

  /** `url` parses and its authority is one of the allowed hosts. */
  predicate AllowedParse(url: string, allowed: set<string>) {
    UrlParse(url).Ok? && UrlParse(url).value.netloc in allowed
  }

  /** `l` is the clean form of a URL whose authority is allowed. */
  ghost predicate CleanOfAllowed(l: string, allowed: set<string>) {
    exists u :: AllowedParse(u, allowed) && l == CleanUrl(UrlParse(u).value)
  }

  lemma CleanOfAllowedIntro(u: string, allowed: set<string>)
    requires AllowedParse(u, allowed)
    ensures CleanOfAllowed(CleanUrl(UrlParse(u).value), allowed)
  {
  }

  /**
   * The anchor loop: the clean URL of each followed link with an allowed
   * host; the flag is set when a join or parse raised, which ends the whole
   * extraction with the links found so far.
   */
  function AnchorLinks(hrefs: seq<string>, base: string, allowed: set<string>,
                       resolve: Resolver): (r: (set<string>, bool))
    ensures forall l | l in r.0 :: CleanOfAllowed(l, allowed)
  {
    if |hrefs| == 0 then ({}, false)
    else
      match ClassifyHref(hrefs[0], base, resolve)
      case Skip => AnchorLinks(hrefs[1..], base, allowed, resolve)
      case Raise => ({}, true)
      case Follow(full) =>
        if UrlParse(full).Err? then ({}, true)
        else
          var rest := AnchorLinks(hrefs[1..], base, allowed, resolve);
          if AllowedParse(full, allowed) then
            CleanOfAllowedIntro(full, allowed);
            ({CleanUrl(UrlParse(full).value)} + rest.0, rest.1)
          else rest
  }

  /** Each reference joined to the page URL, kept when it parses to an allowed host. */
  function ResolvedAllowed(refs: seq<string>, base: string, allowed: set<string>,
                           resolve: Resolver): (r: set<string>)
    ensures forall l | l in r :: AllowedParse(l, allowed)
  {
    if |refs| == 0 then {}
    else
      var rest := ResolvedAllowed(refs[1..], base, allowed, resolve);
      match resolve(base, refs[0])
      case None => rest
      case Some(full) => if AllowedParse(full, allowed) then {full} + rest else rest
  }

  predicate IsQuote(c: char) { c == '"' || c == '\'' }

  /** Length of the leading run of characters other than quotes. */
  function QuoteFreeRun(s: string): (n: nat)
    ensures n <= |s|
    ensures forall k | 0 <= k < n :: !IsQuote(s[k])
    ensures n < |s| ==> IsQuote(s[n])
  {
    if |s| == 0 || IsQuote(s[0]) then 0 else 1 + QuoteFreeRun(s[1..])
  }

  predicate QuoteFree(s: string) {
    forall k | 0 <= k < |s| :: !IsQuote(s[k])
  }

  /** `re.findall(r'["\']([^"\']*)["\']', s)`: the text between successive quote pairs. */
  function QuotedStrings(s: string): (r: seq<string>)
    ensures forall k | 0 <= k < |r| :: QuoteFree(r[k])
    decreases |s|
  {
    if |s| == 0 then []
    else if IsQuote(s[0]) then
      var n := QuoteFreeRun(s[1..]);
      if 1 + n < |s| then [s[1..1 + n]] + QuotedStrings(s[2 + n..]) else []
    else QuotedStrings(s[1..])
  }

  /** A quoted string between any two quote characters is found whole. */
  lemma QuotedStringsOfQuoted(open: char, m: string, close: char)
    requires IsQuote(open) && IsQuote(close) && QuoteFree(m)
    ensures QuotedStrings([open] + m + [close]) == [m]
  {
    var s := [open] + m + [close];
    assert s[1..] == m + [close];
    assert QuoteFreeRun(s[1..]) == |m| by {
      assert (m + [close])[|m|] == close;
    }
    assert s[1..1 + |m|] == m;
    assert s[2 + |m|..] == [];
  }

  /** The references an `onclick` handler offers: quoted, root-relative or naming the domain. */
  function HandlerRefs(handler: string, domain: string): seq<string> {
    if Contains(handler, "location") || Contains(handler, "href") then
      Filter(QuotedStrings(handler), m => StartsWith(m, "/") || Contains(m, domain))
    else []
  }

  /** The links found in `onclick` handlers. */
  function HandlerLinks(handlers: seq<string>, domain: string, base: string,
                        allowed: set<string>, resolve: Resolver): (r: set<string>)
    ensures forall l | l in r :: AllowedParse(l, allowed)
  {
    if |handlers| == 0 then {}
    else
      ResolvedAllowed(HandlerRefs(handlers[0], domain), base, allowed, resolve) +
      HandlerLinks(handlers[1..], domain, base, allowed, resolve)
  }

  predicate IsFormTarget(action: string) {
    action != "" && !StartsWith(action, "mailto:") && !StartsWith(action, "#")
  }

  /**
   * `_comprehensive_link_extraction`: anchor links in clean form, then the
   * links from `onclick` handlers, `data-href` attributes and form actions;
   * when the anchor loop raised, only the anchor links found before it.
   */
  function ExtractLinks(page: Page, base: string, domain: string, allowed: set<string>,
                        resolve: Resolver): (r: set<string>)
    ensures forall l | l in r :: AllowedParse(l, allowed) || CleanOfAllowed(l, allowed)
  {
    var (anchors, raised) := AnchorLinks(page.anchors, base, allowed, resolve);
    if raised then anchors
    else
      anchors + HandlerLinks(page.onclicks, domain, base, allowed, resolve) +
      ResolvedAllowed(Filter(page.dataHrefs, h => h != ""), base, allowed, resolve) +
      ResolvedAllowed(Filter(page.formActions, IsFormTarget), base, allowed, resolve)
  }

  // URL-pattern templates (`_analyze_url_pattern`)

  /** `\w` on ASCII, and `[\w-]`. */
  predicate IsWordChar(c: char) { IsAsciiLetter(c) || IsAsciiDigit(c) || c == '_' }
  predicate IsWordOrDash(c: char) { IsWordChar(c) || c == '-' }

  /** Length of the leading `[\w-]` run. */
  function WordRun(s: string): (n: nat)
    ensures n <= |s|
    ensures forall k | 0 <= k < n :: IsWordOrDash(s[k])
    ensures n < |s| ==> !IsWordOrDash(s[n])
  {
    if |s| == 0 || !IsWordOrDash(s[0]) then 0 else 1 + WordRun(s[1..])
  }

  /** Length of the leading `\d` run. */
  function DigitRun(s: string): (n: nat)
    ensures n <= |s|
    ensures forall k | 0 <= k < n :: IsAsciiDigit(s[k])
    ensures n < |s| ==> !IsAsciiDigit(s[n])
  {
    if |s| == 0 || !IsAsciiDigit(s[0]) then 0 else 1 + DigitRun(s[1..])
  }

  /** `\d+/` at the start of `s`. */
  predicate DigitsThenSlash(s: string) {
    var n := DigitRun(s);
    1 <= n < |s| && s[n] == '/'
  }

  /** `[\w-]+/` at the start of `s`. */
  predicate WordsThenSlash(s: string) {
    var n := WordRun(s);
    1 <= n < |s| && s[n] == '/'
  }

  /** `/\d{4}/\d{2}/` at the start of `s`. */
  predicate DateAt(s: string) {
    |s| >= 9 && s[0] == '/' && IsAsciiDigit(s[1]) && IsAsciiDigit(s[2]) &&
    IsAsciiDigit(s[3]) && IsAsciiDigit(s[4]) && s[5] == '/' &&
    IsAsciiDigit(s[6]) && IsAsciiDigit(s[7]) && s[8] == '/'
  }

  /** The number of pattern regexes `_analyze_url_pattern` tries. */
  const PatternCount: nat := 7

  /**
   * Pattern `i` matches at the start of `s`: `/blog/\d+/`, `/page/\d+/`,
   * `/category/[\w-]+/`, `/tag/[\w-]+/`, `/\d{4}/\d{2}/`, `/product/[\w-]+/`,
   * `/article/[\w-]+/`, in that order.
   */
  predicate PatternAt(i: nat, s: string) {
    if i == 0 then StartsWith(s, "/blog/") && DigitsThenSlash(s[6..])
    else if i == 1 then StartsWith(s, "/page/") && DigitsThenSlash(s[6..])
    else if i == 2 then StartsWith(s, "/category/") && WordsThenSlash(s[10..])
    else if i == 3 then StartsWith(s, "/tag/") && WordsThenSlash(s[5..])
    else if i == 4 then DateAt(s)
    else if i == 5 then StartsWith(s, "/product/") && WordsThenSlash(s[9..])
    else if i == 6 then StartsWith(s, "/article/") && WordsThenSlash(s[9..])
    else false
  }

  /** `re.search(pattern_i, path)` */
  predicate Searches(i: nat, path: string)
    decreases |path|
  {
    PatternAt(i, path) || (|path| > 0 && Searches(i, path[1..]))
  }

  /** Some pattern regex is found in `path`. */
  predicate HasShape(path: string) {
    exists i | 0 <= i < PatternCount :: Searches(i, path)
  }

  /** `re.sub(r'[\w-]+', '{param}', path)` */
  function Template(path: string): string
    decreases |path|
  {
    if |path| == 0 then ""
    else if IsWordOrDash(path[0]) then "{param}" + Template(path[WordRun(path)..])
    else [path[0]] + Template(path[1..])
  }

  /** `re.sub(r'\d+', '{num}', s)` */
  function SubstituteNumbers(s: string): string
    decreases |s|
  {
    if |s| == 0 then ""
    else if IsAsciiDigit(s[0]) then "{num}" + SubstituteNumbers(s[DigitRun(s)..])
    else [s[0]] + SubstituteNumbers(s[1..])
  }

  /** The template `_analyze_url_pattern` computes: both substitutions in turn. */
  function PatternTemplate(path: string): string {
    SubstituteNumbers(Template(path))
  }

  predicate HasNoDigit(s: string) {
    forall k | 0 <= k < |s| :: !IsAsciiDigit(s[k])
  }

  lemma NoDigitAppend(a: string, b: string)
    requires HasNoDigit(a) && HasNoDigit(b)
    ensures HasNoDigit(a + b)
  {
    forall k | 0 <= k < |a + b|
      ensures !IsAsciiDigit((a + b)[k])
    {
      if k >= |a| {
        assert (a + b)[k] == b[k - |a|];
      }
    }
  }

  /** Every digit belongs to a `[\w-]` run, so a template holds no digit. */
  lemma {:induction false} TemplateHasNoDigit(path: string)
    ensures HasNoDigit(Template(path))
    decreases |path|
  {
    if |path| > 0 {
      if IsWordOrDash(path[0]) {
        TemplateHasNoDigit(path[WordRun(path)..]);
        NoDigitAppend("{param}", Template(path[WordRun(path)..]));
      } else {
        TemplateHasNoDigit(path[1..]);
        NoDigitAppend([path[0]], Template(path[1..]));
      }
    }
  }

  lemma {:induction false} SubstituteNumbersIdentity(s: string)
    requires HasNoDigit(s)
    ensures SubstituteNumbers(s) == s
    decreases |s|
  {
    if |s| > 0 {
      assert HasNoDigit(s[1..]) by {
        assert forall k | 0 <= k < |s| - 1 :: s[1..][k] == s[k + 1];
      }
      SubstituteNumbersIdentity(s[1..]);
      assert [s[0]] + s[1..] == s;
    }
  }

  /** The `{num}` substitution never changes a template. */
  lemma NumberSubstitutionNeverFires(path: string)
    ensures PatternTemplate(path) == Template(path)
  {
    TemplateHasNoDigit(path);
    SubstituteNumbersIdentity(Template(path));
  }

  /** Paths that agree outside their `[\w-]` runs. */
  predicate SameSkeleton(p: string, q: string) {
    |p| == |q| &&
    forall k | 0 <= k < |p| ::
      (IsWordOrDash(p[k]) <==> IsWordOrDash(q[k])) && (!IsWordOrDash(p[k]) ==> p[k] == q[k])
  }

  lemma {:induction false} WordRunSkeleton(p: string, q: string)
    requires SameSkeleton(p, q)
    ensures WordRun(p) == WordRun(q)
    decreases |p|
  {
    if |p| > 0 && IsWordOrDash(p[0]) {
      assert SameSkeleton(p[1..], q[1..]) by {
        assert forall k | 0 <= k < |p| - 1 :: p[1..][k] == p[k + 1] && q[1..][k] == q[k + 1];
      }
      WordRunSkeleton(p[1..], q[1..]);
    }
  }

  lemma SkeletonSuffix(p: string, q: string, n: nat)
    requires SameSkeleton(p, q) && n <= |p|
    ensures SameSkeleton(p[n..], q[n..])
  {
    assert forall k | 0 <= k < |p| - n :: p[n..][k] == p[n + k] && q[n..][k] == q[n + k];
  }

  /**
   * The template depends only on the characters outside the `[\w-]` runs
   * and where the runs are: the words themselves are forgotten.
   */
  lemma {:induction false} TemplateForgetsWords(p: string, q: string)
    requires SameSkeleton(p, q)
    ensures Template(p) == Template(q)
    decreases |p|
  {
    if |p| > 0 {
      if IsWordOrDash(p[0]) {
        WordRunSkeleton(p, q);
        SkeletonSuffix(p, q, WordRun(p));
        TemplateForgetsWords(p[WordRun(p)..], q[WordRun(q)..]);
      } else {
        SkeletonSuffix(p, q, 1);
        TemplateForgetsWords(p[1..], q[1..]);
      }
    }
  }

  /** A `[\w-]` run is recognised up to the first other character. */
  lemma WordRunIs(s: string, n: nat)
    requires n < |s| && !IsWordOrDash(s[n])
    requires forall k | 0 <= k < n :: IsWordOrDash(s[k])
    ensures WordRun(s) == n
  {
  }

  /** One segment followed by a slash becomes "{param}/" and the rest. */
  lemma TemplateSegment(seg: string, rest: string)
    requires |seg| > 0 && forall k | 0 <= k < |seg| :: IsWordOrDash(seg[k])
    ensures Template(seg + "/" + rest) == "{param}/" + Template(rest)
  {
    var s := seg + "/" + rest;
    assert s[|seg|] == '/';
    WordRunIs(s, |seg|);
    assert s[|seg|..] == "/" + rest;
    assert s[|seg|..][1..] == rest;
  }

  lemma TemplateSlash(rest: string)
    ensures Template("/" + rest) == "/" + Template(rest)
  {
    assert ("/" + rest)[1..] == rest;
  }

  predicate IsWordRun(x: string) {
    |x| > 0 && forall k | 0 <= k < |x| :: IsWordOrDash(x[k])
  }

  /** A word segment closed by a slash becomes "{param}/". */
  lemma WordSlashTemplate(b: string)
    requires IsWordRun(b)
    ensures Template(b + "/") == "{param}/"
  {
    TemplateSegment(b, "");
    assert b + "/" == b + "/" + "";
  }

  lemma SlashAssoc(a: string, b: string)
    ensures "/" + a + "/" + b + "/" == "/" + (a + "/" + (b + "/"))
  {
  }

  lemma ParamAssoc()
    ensures "/" + ("{param}/" + "{param}/") == "/" + "{param}/" + "{param}/"
  {
  }

  /** Two word segments, each closed by a slash, become "/{param}/{param}/". */
  lemma TwoSegmentTemplate(a: string, b: string)
    requires IsWordRun(a) && IsWordRun(b)
    ensures Template("/" + a + "/" + b + "/") == "/" + "{param}/" + "{param}/"
  {
    WordSlashTemplate(b);
    TemplateSegment(a, b + "/");
    SlashAssoc(a, b);
    TemplateSlash(a + "/" + (b + "/"));
    ParamAssoc();
  }

  /** `/category/X/` is recognised; its template forgets the category too. */
  lemma CategoryPathTemplate(x: string)
    requires IsWordRun(x)
    ensures Searches(2, "/category/" + x + "/")
    ensures Template("/category/" + x + "/") == "/" + "{param}/" + "{param}/"
  {
    var s := "/category/" + x + "/";
    ConcatAssoc("/category/", x, "/");
    ConcatParts("/category/", x + "/");
    WordRunIs(x + "/", |x|);
    assert PatternAt(2, s);
    assert IsWordRun("category");
    assert "/category/" == "/" + "category" + "/";
    TwoSegmentTemplate("category", x);
  }

  lemma BlogLiteral(n: string)
    ensures "/blog/" + n + "/" == "/" + "blog" + "/" + n + "/"
  {
    assert "/blog/" == "/" + "blog" + "/";
  }

  lemma BlogIsWordRun()
    ensures IsWordRun("blog")
  {
  }

  /** A digit run closed by a slash is recognised by `\d+/`. */
  lemma DigitsSlash(n: string)
    requires |n| > 0 && forall k | 0 <= k < |n| :: IsAsciiDigit(n[k])
    ensures DigitsThenSlash(n + "/")
  {
    assert (n + "/")[|n|] == '/';
    assert DigitRun(n + "/") == |n| by {
      assert forall k | 0 <= k < |n| :: (n + "/")[k] == n[k];
    }
  }

  /** `/blog/N/` matches the first pattern at its start. */
  lemma BlogPathSearched(n: string)
    requires |n| > 0 && forall k | 0 <= k < |n| :: IsAsciiDigit(n[k])
    ensures Searches(0, "/blog/" + n + "/")
  {
    var s := "/blog/" + n + "/";
    ConcatAssoc("/blog/", n, "/");
    ConcatParts("/blog/", n + "/");
    DigitsSlash(n);
    assert PatternAt(0, s);
  }

  /** `/blog/N/` is recognised; its template is "/{param}/{param}/", not "/blog/{num}/". */
  lemma BlogPathTemplate(n: string)
    requires |n| > 0 && forall k | 0 <= k < |n| :: IsAsciiDigit(n[k])
    ensures Searches(0, "/blog/" + n + "/")
    ensures Template("/blog/" + n + "/") == "/" + "{param}/" + "{param}/"
  {
    BlogPathSearched(n);
    BlogIsWordRun();
    assert IsWordRun(n);
    BlogLiteral(n);
    TwoSegmentTemplate("blog", n);
  }

  /** A category page and a numbered blog post share one template. */
  lemma TemplateExamples()
    ensures Template("/category/news/") == Template("/blog/42/") == "/" + "{param}/" + "{param}/"
  {
    assert IsWordRun("news");
    CategoryPathTemplate("news");
    assert "/category/" + "news" + "/" == "/category/news/";
    BlogPathTemplate("42");
    assert "/blog/" + "42" + "/" == "/blog/42/";
  }

  // First-segment paths (`_extract_paths_from_content`)

  /**
   * The first segment of a root-relative `href` with query and fragment
   * dropped; links from the whole page are also limited to 99 characters.
   * `None` when the link contributes no directory.
   */
  function FirstSegment(href: string, limitLength: bool): (r: Option<string>)
    ensures r.Some? ==> r.value != "" && NoChar(r.value, '?') && NoChar(r.value, '#')
  {
    if StartsWith(href, "/") && |href| > 1 then
      var noQuery := Split(href, '?')[0];
      var clean := Split(noQuery, '#')[0];
      if |clean| > 1 && (!limitLength || |clean| < 100) then
        var first := Split(StripChar(clean, '/'), '/')[0];
        if first != "" then
          FirstSegmentFacts(noQuery, clean, first);
          Some(first)
        else None
      else None
    else None
  }

  lemma FirstSegmentFacts(noQuery: string, clean: string, first: string)
    requires NoChar(noQuery, '?') && clean == Split(noQuery, '#')[0]
    requires first == Split(StripChar(clean, '/'), '/')[0]
    ensures NoChar(first, '?') && NoChar(first, '#')
  {
    SplitFirst(noQuery, '#');
    NoCharPrefix(noQuery, |clean|, '?');
    var left := LStripChar(clean, '/');
    var stripped := RStripChar(left, '/');
    NoCharSuffix(clean, |clean| - |left|, '?');
    NoCharSuffix(clean, |clean| - |left|, '#');
    NoCharPrefix(left, |stripped|, '?');
    NoCharPrefix(left, |stripped|, '#');
    SplitFirst(stripped, '/');
    NoCharPrefix(stripped, |first|, '?');
    NoCharPrefix(stripped, |first|, '#');
  }

  /** A directory path, with and without its trailing slash. */
  predicate IsDirPath(p: string) {
    |p| >= 2 && p[0] == '/' && NoChar(p, '?') && NoChar(p, '#')
  }

  lemma DirPaths(first: string)
    requires first != "" && NoChar(first, '?') && NoChar(first, '#')
    ensures IsDirPath("/" + first) && IsDirPath("/" + first + "/")
  {
    assert forall k | 1 <= k < |"/" + first| :: ("/" + first)[k] == first[k - 1];
    assert forall k | 0 <= k < |"/" + first| :: ("/" + first + "/")[k] == ("/" + first)[k];
  }

  /** The directory paths one link contributes: "/seg" and "/seg/". */
  function FirstSegmentPaths(href: string, limitLength: bool): (r: set<string>)
    ensures forall p | p in r :: IsDirPath(p)
  {
    match FirstSegment(href, limitLength)
    case None => {}
    case Some(first) =>
      DirPaths(first);
      {"/" + first, "/" + first + "/"}
  }

  /**
   * The noise filter: a path is kept when, without its slashes, it has at
   * least two characters, is not all digits and is not an asset directory.
   */
  predicate KeepPath(path: string) {
    var name := StripChar(path, '/');
    |name| >= 2 && !IsDigits(name) &&
    !(name in {"js", "css", "img", "images", "assets", "static"})
  }

  function AnchorPaths(hrefs: seq<string>, limitLength: bool): (r: set<string>)
    ensures forall p | p in r :: IsDirPath(p)
  {
    if |hrefs| == 0 then {}
    else FirstSegmentPaths(hrefs[0], limitLength) + AnchorPaths(hrefs[1..], limitLength)
  }

  /** The paths one fetched home page contributes; none unless it answered 200. */
  function PagePaths(o: FetchOutcome): (r: set<string>)
    ensures forall p | p in r :: IsDirPath(p)
  {
    if o.Response? && o.status == 200 then
      AnchorPaths(o.page.anchors, true) + AnchorPaths(o.page.navAnchors, false)
    else {}
  }

  /**
   * `_extract_paths_from_content`: the kept directory paths of the home
   * pages of the start URL and every discovered subdomain.
   */
  function DiscoveredPaths(homes: seq<FetchOutcome>): (r: set<string>)
    ensures forall p | p in r :: KeepPath(p) && IsDirPath(p)
  {
    if |homes| == 0 then {}
    else
      (set p | p in PagePaths(homes[0]) && KeepPath(p)) + DiscoveredPaths(homes[1..])
  }
}
