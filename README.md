# Sitemap generator: crawler, sitemap builder, rate limiter and sessions

This project is a Dafny model of the core of a small web service. Given a start URL, the service crawls the
site and writes an XML sitemap. It also serves a per-session CSV of page titles. The model covers:

- **`EnhancedCrawler`** (`enhanced_crawler.py`), the crawler the web application runs:
  - start-URL normalisation and base-domain extraction;
  - subdomain probing;
  - URL validity against the allowed hosts;
  - link extraction from a page: anchors, `onclick` handlers, `data-href`, form actions;
  - URL-pattern learning;
  - path discovery from home pages;
  - pattern-based URL generation, which as written stops the crawl with a `NameError` (see the quirks below);
  - the deep content crawl that would record a title for every visited URL, were it reached;
  - title extraction with its fallbacks and clean-up.
- **`Crawler`** (`crawler.py`), the older breadth-first crawler:
  - normalisation and validity;
  - `parse_links`;
  - recursive `parse_sitemap`;
  - the sitemap title pass;
  - the level-by-level crawl with redirects and its depth and size caps.
- **`SitemapGenerator.generate`** (`sitemap_generator.py`): one `<url>` entry per URL, in sorted order, with a
  priority rule for home pages.
- **The rate limiter** (`production_optimizations.py`): at most three accepted requests per address in any
  30-second window.
- **The session logic of the Flask application** (`app.py`):
  - request admission for `/crawl`;
  - session creation;
  - expiry clean-up;
  - the progress reply;
  - the CSV export.

How the model is built:

- The network is an oracle. Every fetch site has its own function from URL to `FetchOutcome`: a response with
  status, parsed page and `Location`, a timeout, a request error, or another exception.
- General `urljoin` is a `Resolver` oracle. `None` stands for the `ValueError` it can raise.
- Robots checking (`_can_crawl`) is a predicate parameter.
- `urlparse` is modelled concretely (module `Urls`), following Python 3.12 `urlsplit`/`urlparse`.
- Python set iteration order is arbitrary, so the model leaves it to Dafny's `:|` choice. Every property
  holds whatever order is chosen.
- Classes whose fields the source mutates (`EnhancedCrawler`, `Crawler`, the session store, the rate limiter)
  are Dafny classes with `modifies` frames. Their loops are `while` loops with invariants.
- Each method is proved against a function that specifies it (`LevelRun`, `TitleRun`, `SitemapUrls`,
  `LinksFound`, `Step`, `Admissible`, `Recorded`, …). The lemmas state the properties of those functions.

Quirks of the code as written, which the model follows:

- **Pattern-based generation.** `_generate_pattern_urls` loops over `common_paths`, a name that is never
  defined (`enhanced_crawler.py:592`). As written, the phase raises `NameError` before it changes any state.
  `GeneratePatternUrls` models exactly that. Nothing catches the error, so it escapes `crawl()`
  (`enhanced_crawler.py:101`), and nothing after it runs:
  - the category and date loops of the same phase never run. `GenerateCatalogueUrls` models them as they would
    behave if reached;
  - `_deep_content_crawl` (`enhanced_crawler.py:104`) never runs. `DeepContentCrawl` and the methods it calls
    model it as it would behave if reached;
  - in the web application, `sitemap_gen.generate` (`app.py:106`) never runs. The `except Exception` at
    `app.py:138-143` stores the text "name 'common_paths' is not defined" as the session's `error` and sets
    `completed`. The crawl thread is not part of this model (see "Left out"), so the model does not state this
    outcome.
- **URL-pattern templates.** The templates learned by `_analyze_url_pattern` never contain `{num}`. The
  `[\w-]+` substitution already swallows every digit, so `/blog/42/` and `/category/news/` both become
  `/{param}/{param}/` (`TemplateExamples`, `NumberSubstitutionNeverFires`).
- **Title selection.** `_extract_title` tries the `<title>` tag, then `og:title`, then `twitter:title`, then
  `<h1>`. Each later source is consulted only while the current title is missing or shorter than three
  characters.
- **Progress percentage.** The enhanced crawler never updates `total_urls`, so the progress percentage is 100
  for a completed session and 0 otherwise.
- **Redirects in `Crawler.crawl`.** The level fetch passes `allow_redirects=True` (`crawler.py:108`), so
  `requests` itself follows every 301/302/303/307/308 answer that carries a `Location` header. The redirect
  branch at `crawler.py:127-132` is then reached only for a redirect status without `Location`, and adds
  nothing. `FollowRedirect` and `RedirectTarget` also cover a redirect with `Location`, which the fetch oracle
  may return but the running program never sees.
- **Sitemap phase of `Crawler.crawl`.** When sitemaps yield more than one URL, the sitemap phase puts them in
  `visited`. The breadth-first crawl then starts from a copy of `visited`, and so fetches nothing.

## Model

| member | source | states |
|---|---|---|
| EnhancedPolicy.NormalizeUrl | enhanced_crawler.py:53-56 | the normalised start URL always begins with `http://` or `https://` |
| EnhancedPolicy.NormalizeUrlKeeps | enhanced_crawler.py:53-56 | the input is a suffix of the result; a URL with a scheme is unchanged, any other gets exactly `https://` (8 characters) prepended |
| EnhancedPolicy.NormalizeUrlIdempotent | enhanced_crawler.py:53-56 | normalising twice is the same as normalising once |
| EnhancedPolicy.BaseDomainSuffix | enhanced_crawler.py:21-32 | the base domain is always a suffix of the host |
| EnhancedPolicy.BaseDomainLabels | enhanced_crawler.py:21-32 | with three or more labels and a first label among www/blog/api/app/help/support/docs, the base domain is the last three labels (for `.com.tr`/`.org.tr`) or the last two; otherwise it is the host itself |
| EnhancedPolicy.ValidityIgnoresQuery | enhanced_crawler.py:968-990 | appending a query string never changes whether a URL is valid |
| EnhancedPolicy.ValidityMonotone | enhanced_crawler.py:968-990 | a URL valid for some allowed hosts stays valid when more hosts are allowed |
| EnhancedPolicy.SelectTitle | enhanced_crawler.py:923-947 | the raw title is empty or the stripped text of one of the four candidate sources |
| EnhancedPolicy.TitleTagWins | enhanced_crawler.py:926-932 | a `<title>` of at least three characters after stripping is the title chosen |
| EnhancedPolicy.OgTitleBeforeOthers | enhanced_crawler.py:931-935 | when the `<title>` is shorter than three characters, an `og:title` of at least three is chosen over `twitter:title` and `<h1>` |
| EnhancedPolicy.DropSuffix | enhanced_crawler.py:955-956 | a title ending with the suffix loses exactly that suffix; any other title is unchanged |
| EnhancedPolicy.CleanTitle | enhanced_crawler.py:949-962 | an empty title gives the not-found text; otherwise the whitespace-collapsed title with the three domain suffixes removed once each is the result when it is longer than two characters and not a generic word, and the not-found text when it is not; the result is always the not-found text or such a prefix of the collapsed title |
| EnhancedPolicy.CleanTitleDropsDomain | enhanced_crawler.py:954-962 | a title reading `<name> - <domain>` is recorded as `<name>` when `<name>` is meaningful and carries no further domain suffix |
| EnhancedPolicy.KeptSegments | enhanced_crawler.py:772-774 | kept segments are non-empty and not `index.html`, and none is kept exactly when every segment is empty or `index.html` |
| EnhancedPolicy.ReadableTitleEmpty | enhanced_crawler.py:772-775 | the readable title of a URL is empty exactly when its last two path pieces are all empty or `index.html` |
| EnhancedPolicy.ReadableOr | enhanced_crawler.py:772-775 | the readable title, or the fallback when it is empty, is never empty |
| EnhancedPolicy.BatchRecord | enhanced_crawler.py:762-820 | the value the batch loop stores is never empty; for a 200 response it is the stripped title when that is non-empty and not the not-found text, and in every other 200 case the readable title of the URL or the generic page text; a redirect status gives the redirect text, any other status `HTTP <status>`, and each exception class its own fixed text |
| EnhancedPolicy.BatchRecordOfFailure | enhanced_crawler.py:807-820 | for anything but a 200 response the stored value does not depend on the URL, and is the redirect, timeout, access-error or title-failure text, or `HTTP <status>` |
| EnhancedPolicy.FinalRecord | enhanced_crawler.py:827-840 | the value the finalisation loop stores is never empty; for a 200 response it is the extracted title when that is non-empty and not the not-found text, else the generic page-title text; any other status gives `HTTP <status>`; an exception gives the readable title of the URL or `Sayfa` |
| EnhancedPolicy.LeftoverRecord | enhanced_crawler.py:845-850 | the value given to URLs still without one is never empty |
| EnhancedLinks.ClassifyHref | enhanced_crawler.py:349-360 | an anchor is skipped exactly when it is empty or a mailto/tel/fragment/javascript reference; an `http…` href is followed verbatim; a failure means `urljoin` raised |
| EnhancedLinks.AnchorLinks | enhanced_crawler.py:349-369 | every anchor link kept is the cleaned form (scheme, host, path, query) of a parsed URL on an allowed host |
| CleanUrlFacts.CleanUrlRoundTrip | enhanced_crawler.py:363-368 | re-parsing a cleaned URL gives back the same parts without `;params` and fragment, so cleaning keeps the host and stays on an allowed host |
| EnhancedLinks.QuotedStrings | enhanced_crawler.py:377 | every string found between quotes contains no quote character |
| EnhancedLinks.QuotedStringsOfQuoted | enhanced_crawler.py:377 | a quoted quote-free string is found as exactly that string |
| EnhancedLinks.HandlerLinks | enhanced_crawler.py:371-386 | every link taken from an `onclick` handler parses to an allowed host |
| EnhancedLinks.ResolvedAllowed | enhanced_crawler.py:388-410 | every `data-href` or form-action link kept parses to an allowed host |
| EnhancedLinks.ExtractLinks | enhanced_crawler.py:341-415 | every extracted link parses to an allowed host, or is the cleaned form of a URL that does |
| EnhancedLinks.TemplateHasNoDigit | enhanced_crawler.py:435 | the `{param}` template of a path contains no digit |
| EnhancedLinks.NumberSubstitutionNeverFires | enhanced_crawler.py:435-436 | the `{num}` substitution leaves every `{param}` template unchanged |
| EnhancedLinks.TemplateForgetsWords | enhanced_crawler.py:435 | paths with the same skeleton of separators have the same template |
| EnhancedLinks.CategoryPathTemplate | enhanced_crawler.py:426-438 | `/category/<word>/` matches a pattern and its template is `/{param}/{param}/` |
| EnhancedLinks.BlogPathTemplate | enhanced_crawler.py:424-438 | `/blog/<digits>/` matches a pattern and its template is `/{param}/{param}/` |
| EnhancedLinks.TemplateExamples | enhanced_crawler.py:433-438 | `/category/news/` and `/blog/42/` get the same template `/{param}/{param}/` |
| EnhancedLinks.FirstSegment | enhanced_crawler.py:707-716 | a first path segment, when found, is non-empty and free of `?` and `#` |
| EnhancedLinks.FirstSegmentPaths | enhanced_crawler.py:707-716 | an href yields only directory paths `/seg` and `/seg/` |
| EnhancedLinks.AnchorPaths | enhanced_crawler.py:705-731 | all paths taken from a page's anchors are directory paths |
| EnhancedLinks.PagePaths | enhanced_crawler.py:699-731 | a home-page fetch yields only directory paths, and none unless it answered 200 |
| EnhancedLinks.DiscoveredPaths | enhanced_crawler.py:689-748 | every discovered path is a directory path that passes the noise filter (at least two characters, not all digits, not an asset directory) |
| Urls.JoinPath | enhanced_crawler.py:652 | joining a home page with an absolute catalogue path (no empty segment, query or dot segment) succeeds exactly when the home page parses |
| EnhancedCrawling.TakeSome | enhanced_crawler.py:753 | `list(s)[:n]` yields min(n, \|s\|) distinct members of `s` |
| EnhancedCrawling.CategoryPaths | enhanced_crawler.py:639-651 | one category prefix gives one absolute slug path per category (38) |
| EnhancedCrawling.CategoryCatalogueAt | enhanced_crawler.py:649-651 | entry `38·i + c` of the category catalogue is prefix `i` followed by category `c` and `/` |
| EnhancedCrawling.DatePaths | enhanced_crawler.py:669-674 | one month gives four absolute slug paths |
| EnhancedCrawling.MonthAt | enhanced_crawler.py:667-668 | the `j`-th month of the loops lies in 2020–2024 and months 1–12, in loop order |
| EnhancedCrawling.DateCatalogueAt | enhanced_crawler.py:667-674 | entry `4·j + k` of the date catalogue is date prefix `k` with the year and zero-padded month of month `j` |
| EnhancedCrawling.AdmissibleMeaning | enhanced_crawler.py:651-654 | a URL can be generated for one home page exactly when it is valid and joined from that page and one of the paths |
| EnhancedCrawling.GeneratedBounds | enhanced_crawler.py:649-657 | generating over paths only adds admissible URLs and, once all paths are done, has added every admissible one |
| EnhancedCrawling.DomainsAdmissibleMeaning | enhanced_crawler.py:645-659 | the URLs admissible over all domains are the union of those admissible for each domain |
| EnhancedCrawling.DomainsAdmissibleFrom | enhanced_crawler.py:645-659 | a URL is admissible over the domain list exactly when it is valid and joined from one of the home pages |
| EnhancedCrawling.DeepCrawlRecords | enhanced_crawler.py:750-850 | the three recording loops together leave `url_data` covering `visited`, with batch, refetch and leftover values where the source puts them |
| EnhancedCrawling.RecordsCover | enhanced_crawler.py:822-850 | after the deep crawl every visited URL has a value and no URL outside `visited` gained one |
| EnhancedCrawling.RecordsKept | enhanced_crawler.py:758-842 | values stored by the batch loop and by the finalisation loop survive to the end, and refetched URLs are new ones |
| EnhancedCrawling.RecordsValues | enhanced_crawler.py:758-850 | every value is the old one, the batch value, the refetch value or the leftover value of its URL |
| EnhancedCrawling.EnhancedCrawler.constructor | enhanced_crawler.py:15-51 | the start URL is normalised, the domain is its host, the base domain is derived from it, only the domain is allowed, and all collections are empty |
| EnhancedCrawling.EnhancedCrawler.DiscoverSubdomains | enhanced_crawler.py:108-147 | at most 10 hosts are added; each added host comes from a basic or content label whose home page answered 200/301/302/403 and is also put in `visited`; below the limit every such host ends up allowed; a failure means some probe raised an uncaught exception |
| EnhancedCrawling.EnhancedCrawler.DiscoverLabel | enhanced_crawler.py:127-145 | probing one more label keeps the discovery invariant and counts a new host exactly when one is found |
| EnhancedCrawling.EnhancedCrawler.ProbeLabel | enhanced_crawler.py:131-145 | a host is found exactly when its probe succeeds and it was not yet allowed; a successful probe leaves the host allowed |
| EnhancedCrawling.EnhancedCrawler.AnalyzeUrlPattern | enhanced_crawler.py:417-438 | an unparsable URL raises and leaves the patterns alone; otherwise the template of its path is appended when a pattern matches and the template is new |
| EnhancedCrawling.EnhancedCrawler.LearnPattern | enhanced_crawler.py:433-438 | the template is appended once when some of the seven regexes matches the path and it is not yet known |
| EnhancedCrawling.EnhancedCrawler.DomainsToGenerate | enhanced_crawler.py:565-570 | the list starts with the start URL, has no duplicates, and holds the home page of every discovered subdomain and nothing else |
| EnhancedCrawling.EnhancedCrawler.AddGenerated | enhanced_crawler.py:649-657 | one domain's loop adds only admissible URLs, stays within the cap, fails only when the home page does not parse, and below the cap adds every admissible URL |
| EnhancedCrawling.EnhancedCrawler.GenerateForDomains | enhanced_crawler.py:645-659 | the loop over domains adds only admissible URLs, adds nothing at the cap, never passes it, and below it adds all admissible URLs |
| EnhancedCrawling.EnhancedCrawler.GeneratePatternUrls | enhanced_crawler.py:561-592 | the phase as written always fails with the `common_paths` NameError |
| EnhancedCrawling.EnhancedCrawler.GenerateCatalogueUrls | enhanced_crawler.py:627-685 | only valid URLs joined from a home page and a catalogue path are added, the cap is respected, and below the cap every such URL is added |
| EnhancedCrawling.EnhancedCrawler.AddDeeper | enhanced_crawler.py:795-799 | only valid offered links are added, within the cap, and below the cap every valid offered link is added |
| EnhancedCrawling.EnhancedCrawler.FollowLinks | enhanced_crawler.py:782-801 | following a page's links adds valid URLs only, within the cap, and below the cap every valid link of the page is visited |
| EnhancedCrawling.EnhancedCrawler.CrawlBatch | enhanced_crawler.py:758-820 | the batch loop stops early only at the cap, grows `visited` by valid URLs within the cap, and records the batch value for each processed URL |
| EnhancedCrawling.EnhancedCrawler.FinalizeRemaining | enhanced_crawler.py:822-842 | up to 500 distinct visited URLs without a value are refetched and given the finalisation value, and `crawled_urls` grows by their number |
| EnhancedCrawling.EnhancedCrawler.FillLeftovers | enhanced_crawler.py:844-850 | every visited URL without a value gets the leftover value and nothing else changes |
| EnhancedCrawling.EnhancedCrawler.CrawlPhase | enhanced_crawler.py:753-820 | the batch is min(\|visited\|, 300) distinct visited URLs, each processed one recorded with its batch value |
| EnhancedCrawling.EnhancedCrawler.RecordPhase | enhanced_crawler.py:822-850 | finalisation then leftovers: refetched URLs get their value and every other visited URL without one gets the leftover value |
| EnhancedCrawling.EnhancedCrawler.DeepContentCrawl | enhanced_crawler.py:750-850 | batch of min(\|visited\|, 300) old visited URLs; `visited` grows only by valid URLs within the cap; `url_data` ends as `DeepCrawlRecorded` states, and its keys are exactly `visited` when they were visited URLs before; `crawled_urls` counts the refetches |
| Crawling.NormalizeUrl | crawler.py:32-36 | the result is a prefix of the URL with a scheme, ends in anything but `/`, and only `/` characters were dropped |
| Crawling.NormalizeUrlShape | crawler.py:32-36 | a URL with a scheme loses its trailing slashes; any other gets `https://` prepended and loses them |
| Crawling.NormalizeUrlIdempotent | crawler.py:32-36 | a normalised URL that still starts with `http://` or `https://` is a fixed point of normalisation (`"https://"` normalises to `"https:"`, which does not) |
| Crawling.AcceptedOnSite | crawler.py:319-342 | URLs the validity check accepts are on the crawled host, use http(s) and have no skipped extension |
| Crawling.AdmitsFacts | crawler.py:319-342 | acceptance against a larger `visited` implies acceptance against a smaller one, and an accepted URL parses to the crawled host |
| Crawling.ExtensionRejected | crawler.py:329-334 | a path ending in one of the 17 skipped extensions (in any case) is never valid |
| Crawling.ExtractTitle | crawler.py:188-208 | the title is the stripped `<title>` text if non-empty, else the stripped `<h1>` text if non-empty, else the not-found text; never empty and never padded |
| Crawling.AbortSticks | crawler.py:245-265 | once an exception ends the selector scan, later link targets change nothing |
| Crawling.LinksAccepted | crawler.py:226-317 | every link `parse_links` returns passed the validity check |
| Crawling.LinksAdmitted | crawler.py:226-317 | every link `parse_links` returns parses, is on site, and was not visited |
| Crawling.SkippedHrefIgnored | crawler.py:257-259 | an empty, fragment, mailto, tel or javascript href adds nothing |
| Crawling.AdmittedHrefFound | crawler.py:261-265 | an href that resolves to an accepted URL is returned, unless an exception already ended the scan |
| Crawling.SitemapAccepted | crawler.py:344-375 | every URL taken from a sitemap, nested ones included, passed the validity check |
| Crawling.SitemapAdmitted | crawler.py:344-375 | every URL taken from sitemaps is on site and was not visited |
| Crawling.ChildRead | crawler.py:361-365 | every child sitemap's URLs are included in the URLs of the index |
| Crawling.ChildrenRead | crawler.py:361-365 | every child listed in a sitemap index contributes its URLs to the parent document's |
| Crawling.FuelSuffices | crawler.py:361-365 | once the recursion budget covers the nesting depth, more budget gives the same URLs |
| Crawling.SelfIndexNotNested | crawler.py:361-365 | a sitemap index that lists itself has no finite nesting depth; only Python's recursion limit, whose `RecursionError` the `except Exception` at crawler.py:374 catches, stops the source |
| Crawling.RedirectOnSite | crawler.py:127-132 | a followed redirect target is always on the crawled host |
| Crawling.LevelRunConcat | crawler.py:104-143 | processing one level in two parts is the same as processing it in one |
| Crawling.LevelRunVisited | crawler.py:104-116 | URLs are only added to `visited`, each new one was in the level, robots-allowed and answered 200, and `crawled_urls` grows with `visited` |
| Crawling.LevelRunTitles | crawler.py:110-116 | each newly visited URL has the title of its page, and earlier titles are kept |
| Crawling.LevelRunIdle | crawler.py:104-105 | a level of already visited URLs changes nothing |
| Crawling.TitleRunVisited | crawler.py:75-78 | the sitemap pass adds only sitemap URLs, never passes the cap, and adds every one of them unless the cap is reached |
| Crawling.TitleRunCount | crawler.py:75-78 | `crawled_urls` grows exactly as `visited` does |
| Crawling.TitleRunTitles | crawler.py:79-84 | a sitemap URL whose fetch answered 200 gets the title of its page |
| Crawling.LevelRunFetches | crawler.py:104-112 | a URL of a level that is robots-allowed and answers 200 is visited once the level has run |
| Crawling.StartFetched | crawler.py:92-105 | a non-empty start set below the cap gets at least one level, which lists exactly the start set, and each of its robots-allowed URLs answering 200 ends visited |
| Crawling.NextLevelListed | crawler.py:121-142 | a link found at level d is listed, and so handled, at level d + 1 whenever the loop ran that level |
| Crawling.CrawlOnSite | crawler.py:92-145 | every URL the crawl visits, apart from the start URL and its seeds, is on the crawled host |
| Crawling.Crawler.constructor | crawler.py:14-30 | the start URL is normalised, and all collections and counters are empty |
| Crawling.Crawler.ParseLinks | crawler.py:226-317 | the links found are exactly `LinksFound` of the page |
| Crawling.Crawler.CollectExtra | crawler.py:268-312 | the script and `data-*` loops collect exactly the accepted candidates, skipping failures one by one |
| Crawling.Crawler.ParseSitemap | crawler.py:344-375 | `urls` grows by exactly the sitemap's URLs; nothing else changes |
| Crawling.Crawler.ParseDocument | crawler.py:350-365 | a fetched sitemap adds its accepted `<loc>` URLs and those of its child sitemaps |
| Crawling.Crawler.AddLocs | crawler.py:353-358 | the `<loc>` loop adds exactly the accepted locations up to the first exception |
| Crawling.Crawler.SitemapTitles | crawler.py:72-86 | each sitemap URL is handled once, as the title pass specifies |
| Crawling.Crawler.Visit | crawler.py:104-142 | a URL is fetched exactly when it is unvisited and robots-allowed; the counters change as one step of the level; what it adds to the next level is `Found`: the page's `parse_links` result below the last depth for a 200 answer, the accepted redirect target otherwise, nothing when not fetched; `total_urls` is updated after every fetch |
| Crawling.Crawler.RecordPage | crawler.py:110-125 | a 200 page is visited, counted, given its title, and its links are parsed unless this is the last depth |
| Crawling.Crawler.FollowRedirect | crawler.py:127-132 | a redirect adds its joined `Location` exactly when that is a valid URL (as written, only a redirect without `Location` reaches this branch; see the quirks) |
| Crawling.Crawler.Level | crawler.py:101-143 | one level handles every current URL once; its `next_level_urls` is exactly the union of what each URL adds in turn (`LevelNext`), all on site; a level of visited URLs changes nothing |
| Crawling.Crawler.Levels | crawler.py:99-145 | the levels run form a run of the loop (`LevelsFollow`): level 0 lists the start set, level d + 1 lists level d's `next_level_urls`, each begun with the loop condition true; the loop ends only on an empty frontier, at six levels or at the cap (`LevelsStopped`); every URL handled is a seed or on site |
| Crawling.Crawler.Crawl | crawler.py:54-147 | apart from the start URL and URLs already visited, only on-site URLs join `urls` and `visited`; sitemap URLs are visited up to the cap; every URL visited by the level loop was allowed, answered 200 and carries its page title; from a fresh crawler, `crawled_urls` equals \|visited\|; the level loop starts from `visited` when it holds more than one URL, otherwise from the start URL, and runs as `LevelsFollow`/`LevelsStopped` say; with at most one seed, a robots-allowed start URL answering 200 ends visited |
| Crawling.Crawler.SitemapPhase | crawler.py:71-89 | when sitemaps gave more than the start URL, their URLs are visited up to the cap with their titles |
| Crawling.Crawler.IngestSitemaps | crawler.py:59-69 | the five well-known sitemap locations only add on-site URLs |
| Sitemap.Priority | sitemap_generator.py:34-39 | the priority is `1.0` or `0.8` |
| Sitemap.PriorityRule | sitemap_generator.py:36-39 | the priority is `1.0` exactly when the URL, trailing slashes removed, has at most two `/` |
| Sitemap.HomePagePriority | sitemap_generator.py:35-37 | a bare origin, with or without trailing slashes, gets `1.0` |
| Sitemap.DeepPagePriority | sitemap_generator.py:36-39 | an origin followed by a non-trivial path gets `0.8` |
| Sitemap.EntryRule | sitemap_generator.py:18-39 | the entry has the stripped URL, today's date, `weekly`, and the priority rule |
| Sitemap.Entries | sitemap_generator.py:18-39 | one entry per URL, the k-th built from the k-th URL by `EntryFor` |
| Sitemap.Generate | sitemap_generator.py:8-53 | the document has one entry per URL in strictly ascending order, each built by `EntryFor`; the result is whether the file was saved |
| Ordering.Sorted | sitemap_generator.py:16 | the sorted list is strictly ascending and holds exactly the set's members |
| Ordering.AscendingUnique | sitemap_generator.py:16 | two strictly ascending lists with the same members are equal, so the sorted order is unique |
| RateLimiting.Recent | production_optimizations.py:28-30 | pruning keeps each time inside the 30-second window as often as it occurs and drops every other time (equal multisets of the kept times) |
| RateLimiting.RecentMembers | production_optimizations.py:28-30 | every kept time is a recorded time inside the window, and every recorded time inside the window is kept |
| RateLimiting.RecentSuffix | production_optimizations.py:28-30 | for times that never decrease, the pruned list is a suffix of the original list, so the kept times stay in their order |
| RateLimiting.Step | production_optimizations.py:28-42 | a request is accepted exactly when fewer than three recent times remain, and then its time is appended to the pruned list |
| RateLimiting.RecentTwice | production_optimizations.py:28-30 | pruning at a later time after an earlier one equals pruning at the later time |
| RateLimiting.RecentAppend | production_optimizations.py:28-30 | pruning distributes over concatenation |
| RateLimiting.WindowSurvives | production_optimizations.py:28-30 | times inside a window that contains now all survive pruning |
| RateLimiting.ReplayStored | production_optimizations.py:21-45 | with a clock that never goes back, the stored list is exactly the accepted times still in the window |
| RateLimiting.AtMostThreePerWindow | production_optimizations.py:17-45 | in any 30-second window at most three requests from one address are accepted |
| RateLimiting.RateLimiter.constructor | production_optimizations.py:17 | the limiter starts with no recorded times |
| RateLimiting.RateLimiter.Handle | production_optimizations.py:24-44 | the address's list becomes the pruned list, plus now when accepted; the request is forwarded exactly when accepted, otherwise answered 429 |
| Sessions.CheckRequest | app.py:63-71 | the request is refused with 400 exactly when the body is missing, has no `url`, or has a blank one; other refusals are the 500 start failure; an admitted URL is the stripped, non-empty, parseable `url` |
| Sessions.SessionStore.constructor | app.py:25 | the store starts empty |
| Sessions.SessionStore.CleanupExpired | app.py:28-41 | a session is removed exactly when it is completed and idle for more than 1200 seconds; survivors are unchanged |
| Sessions.KeptByCleanup | app.py:36-38 | a running session, or one accessed within 1200 seconds, is never expired |
| Sessions.SessionStore.StartCrawl | app.py:63-86 | a refused request changes nothing; an admitted one stores a new, not completed session for its URL with a fresh crawler and the current time |
| Sessions.SessionStore.Open | app.py:77-86 | the new entry under the session id holds the URL, is not completed, has no error, starts and was last accessed now, and has a fresh crawler built for the URL; other entries are unchanged |
| Sessions.SessionStore.Progress | app.py:156-189 | an unknown id gives the not-found reply; otherwise the access time is refreshed and the reply reports the visited URLs, completion, and 100 or 0 percent |
| Sessions.SessionStore.CsvExport | app.py:203-239 | unknown session or no data gives 404; otherwise a header row, then one row per visited URL in ascending order with its title or the not-found text |

## Left out

- HTTP transport: retries, timeouts, headers, `requests` sessions. Each fetch is an oracle function of the URL,
  one per call site.
- HTML and XML parsing (BeautifulSoup, ElementTree). A page is the `Page` record of the attributes the code
  reads, and a sitemap is an `Xml` tree.
- The regular expressions that scan `<script>` text in `parse_links`. Their matches are given as
  `Page.scriptUrls`.
- General `urljoin`. It is an oracle, concrete only for an http(s) home page plus an absolute slug path.
- `_can_crawl` and robots.txt. They are a predicate parameter.
- `urlparse`: Python 3.12's bracketed-host validation and NFKC netloc check are not modelled.
- `_extract_subdomains_from_content`: its result is the `fromContent` parameter of `DiscoverSubdomains`.
- Phases of `EnhancedCrawler.crawl` that are not part of this model: `_discover_url_patterns`,
  `_comprehensive_sitemap_discovery`, `_discover_blog_content`, `_check_robots_for_sitemaps`, the enhanced
  `_parse_sitemap`, `_discover_additional_patterns`, `_extract_all_links` and the unused
  `_extract_base_domain`. `crawl` itself is not a single method; its phases are modelled one by one.
- `GeneratePatternUrls`: the common-path and pagination block (lines 592-625) is not modelled beyond the
  NameError that stops it.
- Backup files (`_save_backup`), writing `sitemap.xml` (its success is the `saved` parameter of
  `Sitemap.Generate`), and the date (the `today` parameter).
- Threads, locks, the background clean-up loop, `time.sleep`, logging and `gc`.
- Flask routing, `jsonify`, `send_file`, CSV quoting and UTF-8 encoding, `uuid` (the session id is a
  parameter), `request.remote_addr` and `time.time()` (parameters).
- The crawl thread started by `/crawl`, and the `/download` and `/` routes. As written, that thread always ends
  in the `NameError` of `_generate_pattern_urls`, records it as the session's `error` and writes no sitemap.
  The model states neither outcome.
- `Sessions.SessionStore.Progress`: `error_details` and the rounding of the float percentage are not modelled.
  The percentage is only ever 0 or 100.
- `Sessions.CheckRequest`: a JSON body that is not an object is not modelled.
- Crawling.SitemapUrls: nested `parse_sitemap` calls are bounded by a fuel parameter. `FuelSuffices` shows that
  enough fuel gives the unbounded result for finitely nested sitemaps. `SelfIndexNotNested` shows that a
  self-listing index has no such bound. In the source such an index recurses until Python's recursion limit
  raises `RecursionError`, which `except Exception` (crawler.py:374) catches, so the crawl goes on. The fuel
  stands for that limit, but the model does not fix it to the interpreter's value.
- Lower-casing and title-casing use ASCII case mapping only. Non-ASCII letters are not case folded.
  Whitespace tests follow Python's full `str.isspace`.
- EnhancedPolicy.ReadableOr, EnhancedPolicy.BatchRecord, EnhancedPolicy.FinalRecord, EnhancedPolicy.LeftoverRecord:
  the readable title uses `TitleCase`, which treats every non-ASCII letter as a word break, where `str.title()`
  treats it as a letter. The readable title of `https://site.com.tr/kategori/eğitim` is therefore
  `Kategori EğItim` here, while enhanced_crawler.py:772-774 gives `Kategori Eğitim`. That value is what these
  records store for such slugs.
- Crawling.Crawler.constructor: its `requires UrlParse(NormalizeUrl(start)).Ok?` excludes a start URL on which
  `urlparse` raises `ValueError` at crawler.py:16, such as one with an unbalanced `[` in its host. The raising
  construction is not modelled.
- EnhancedLinks.TemplateForgetsWords: `\w` is modelled as ASCII letters, digits and `_` only. Python's `re`
  treats every Unicode letter and digit as a word character, so a path such as `/category/eğitim/` gets a
  different skeleton here.
- EnhancedLinks.DiscoveredPaths: the "not all digits" test of the noise filter (`str.isdigit()`) accepts
  ASCII digits only. A segment of Arabic-Indic digits such as `٢٠٢٣` counts as digits in Python but not here.
- EnhancedCrawling.EnhancedCrawler.AnalyzeUrlPattern: `\w` and `\d` in the seven regexes and in the template
  substitutions are ASCII-only. Paths holding non-ASCII letters or digits match and substitute differently
  from Python's `re`.
- EnhancedCrawling.EnhancedCrawler.LearnPattern: the same ASCII restriction on `\w` and `\d` as
  `AnalyzeUrlPattern`.
