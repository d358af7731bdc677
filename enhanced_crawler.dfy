/**
 * The crawl state of `EnhancedCrawler` and the phases that change it under
 * the `max_urls` cap: subdomain probing, URL-pattern learning, category and
 * date URL generation, and the deep content crawl with its title
 * finalisation.  Every request is an oracle parameter.
 */
module EnhancedCrawling {
  import opened Text
  import opened Wrappers
  import opened Urls
  import opened Web
  import opened EnhancedPolicy
  import opened EnhancedLinks

  /** `max_urls` */
  const MaxUrls: nat := 20000

  /** The most new hosts one subdomain discovery adds. */
  const SubdomainLimit: nat := 10

  /** The labels probed in every discovery, besides those found in page content. */
  const BasicLabels: set<string> := {"www", "blog", "api", "app", "help", "support"}

  /** A HEAD probe answered with a status that counts as a live host. */
  predicate IsProbeHit(o: FetchOutcome) {
    o.Response? && o.status in {200, 301, 302, 403}
  }

  /** The home page URL of a host. */
  function HomeUrl(host: string): (r: string)
    ensures HasHttpPrefix(r)
  {
    assert ("https://" + host)[..8] == "https://";
    "https://" + host
  }

  /** Up to `n` distinct elements of `s`, in an order the model does not fix (`list(s)[:n]`). */
  method TakeSome(s: set<string>, n: nat) returns (r: seq<string>)
    ensures |r| == if |s| < n then |s| else n
    ensures NoDuplicates(r)
    ensures forall k | 0 <= k < |r| :: r[k] in s
  {
    r := [];
    var rest := s;
    while |r| < n && rest != {}
      invariant rest <= s && |r| <= n
      invariant |r| + |rest| == |s|
      invariant NoDuplicates(r)
      invariant forall k | 0 <= k < |r| :: r[k] in s && r[k] !in rest
      decreases rest
    {
      var x :| x in rest;
      r := r + [x];
      rest := rest - {x};
    }
  }

  // The URL catalogues of `_generate_pattern_urls`

  /** The 38 topical category slugs. */
  const Categories: seq<string> := [
    "mentoring", "coaching", "leadership", "development", "hr", "talent",
    "engagement", "retention", "training", "learning", "skills", "performance",
    "culture", "diversity", "inclusion", "remote", "hybrid", "onboarding",
    "succession", "planning", "analytics", "reporting", "automation",
    "integration", "api", "security", "compliance", "enterprise",
    "small-business", "nonprofit", "education", "healthcare", "technology",
    "finance", "retail", "manufacturing", "consulting", "startup"]

  /** The nine category-path templates, each `<prefix>{cat}/`, by prefix. */
  const CategoryPrefixes: seq<string> := [
    "/category/", "/tag/", "/topic/", "/", "/solutions/", "/industries/",
    "/use-cases/", "/features/", "/resources/"]

  /** The four archive-path templates, each `<prefix>{year}/{month:02d}/`, by prefix. */
  const DatePrefixes: seq<string> := ["/blog/", "/news/", "/", "/archive/"]

  const FirstYear: nat := 2020
  const LastYear: nat := 2024

  /** Template `p` filled with every category, in catalogue order. */
  function CategoryPaths(p: nat): (r: seq<string>)
    requires p < |CategoryPrefixes|
    ensures |r| == |Categories| && AllSlugPaths(r)
  {
    CategoryPathsAreSlugs(p);
    seq(|Categories|, c requires 0 <= c < |Categories| => CategoryPrefixes[p] + Categories[c] + "/")
  }

  /** The four archive paths of one month. */
  function DatePaths(year: nat, month: nat): (r: seq<string>)
    ensures |r| == |DatePrefixes| && AllSlugPaths(r)
  {
    DatePathsAreSlugs(year, month);
    seq(|DatePrefixes|, k requires 0 <= k < |DatePrefixes| =>
      DatePrefixes[k] + (NatToString(year) + "/" + Pad2(month)) + "/")
  }

  predicate AllSlugPaths(paths: seq<string>) {
    forall k | 0 <= k < |paths| :: IsSlugPath(paths[k])
  }

  /**
   * Characters of one or more path segments: nonempty, slug characters,
   * neither starting nor ending with '/', and no empty segment.
   */
  predicate IsSlugTail(w: string) {
    |w| > 0 && w[0] != '/' && w[|w| - 1] != '/' && NoDoubleSlash(w) &&
    forall i | 0 <= i < |w| :: IsSlugChar(w[i])
  }

  lemma SlugConcat(prefix: string, w: string)
    requires IsSlugPath(prefix) && prefix[|prefix| - 1] == '/' && IsSlugTail(w)
    ensures IsSlugPath(prefix + w + "/")
  {
    var s := prefix + w + "/";
    assert forall i | 0 <= i < |prefix| :: s[i] == prefix[i];
    assert forall i | |prefix| <= i < |prefix| + |w| :: s[i] == w[i - |prefix|];
    assert s[|s| - 1] == '/';
    forall i | 1 <= i < |s| && s[i] == '/'
      ensures s[i - 1] != '/'
    {
      if i == |s| - 1 {
        assert s[i - 1] == w[|w| - 1];
      }
    }
  }

  // The category slugs, a few indices per lemma to keep each proof small.

  lemma CategoriesAreSlugs0(c: nat)
    requires 0 <= c < 4
    ensures IsSlugTail(Categories[c])
  {
    if c == 0 {
    } else if c == 1 {
    } else if c == 2 {
    }
  }

  lemma CategoriesAreSlugs4(c: nat)
    requires 4 <= c < 8
    ensures IsSlugTail(Categories[c])
  {
    if c == 4 {
    } else if c == 5 {
    } else if c == 6 {
    }
  }

  lemma CategoriesAreSlugs8(c: nat)
    requires 8 <= c < 12
    ensures IsSlugTail(Categories[c])
  {
    if c == 8 {
    } else if c == 9 {
    } else if c == 10 {
    }
  }

  lemma CategoriesAreSlugs12(c: nat)
    requires 12 <= c < 17
    ensures IsSlugTail(Categories[c])
  {
    if c == 12 {
    } else if c == 13 {
    } else if c == 14 {
    } else if c == 15 {
    }
  }

  lemma CategoriesAreSlugs17(c: nat)
    requires 17 <= c < 23
    ensures IsSlugTail(Categories[c])
  {
    if c == 17 {
    } else if c == 18 {
    } else if c == 19 {
    } else if c == 20 {
    } else if c == 21 {
    }
  }

  lemma CategoriesAreSlugs23(c: nat)
    requires 23 <= c < 30
    ensures IsSlugTail(Categories[c])
  {
    if c == 23 {
    } else if c == 24 {
    } else if c == 25 {
    } else if c == 26 {
    } else if c == 27 {
    } else if c == 28 {
    }
  }

  lemma CategoriesAreSlugs30(c: nat)
    requires 30 <= c < 38
    ensures IsSlugTail(Categories[c])
  {
    if c == 30 {
    } else if c == 31 {
    } else if c == 32 {
    } else if c == 33 {
    } else if c == 34 {
    } else if c == 35 {
    } else if c == 36 {
    }
  }

  /** Every category is a path segment of slug characters. */
  lemma CategoriesAreSlugs()
    ensures forall c | 0 <= c < |Categories| :: IsSlugTail(Categories[c])
  {
    forall c | 0 <= c < |Categories|
      ensures IsSlugTail(Categories[c])
    {
      if c < 4 {
        CategoriesAreSlugs0(c);
      } else if c < 8 {
        CategoriesAreSlugs4(c);
      } else if c < 12 {
        CategoriesAreSlugs8(c);
      } else if c < 17 {
        CategoriesAreSlugs12(c);
      } else if c < 23 {
        CategoriesAreSlugs17(c);
      } else if c < 30 {
        CategoriesAreSlugs23(c);
      } else {
        CategoriesAreSlugs30(c);
      }
    }
  }

  lemma CategoryPrefixesAreSlugs()
    ensures forall p | 0 <= p < |CategoryPrefixes| ::
      IsSlugPath(CategoryPrefixes[p]) && CategoryPrefixes[p][|CategoryPrefixes[p]| - 1] == '/'
  {
  }

  lemma CategoryPathsAreSlugs(p: nat)
    requires p < |CategoryPrefixes|
    ensures forall c | 0 <= c < |Categories| :: IsSlugPath(CategoryPrefixes[p] + Categories[c] + "/")
  {
    CategoriesAreSlugs();
    CategoryPrefixesAreSlugs();
    forall c | 0 <= c < |Categories|
      ensures IsSlugPath(CategoryPrefixes[p] + Categories[c] + "/")
    {
      SlugConcat(CategoryPrefixes[p], Categories[c]);
    }
  }

  lemma DatePathsAreSlugs(year: nat, month: nat)
    ensures forall k | 0 <= k < |DatePrefixes| ::
      IsSlugPath(DatePrefixes[k] + (NatToString(year) + "/" + Pad2(month)) + "/")
  {
    var w := NatToString(year) + "/" + Pad2(month);
    assert w[0] == NatToString(year)[0];
    assert forall i | 0 <= i < |NatToString(year)| :: w[i] == NatToString(year)[i];
    assert forall i | |NatToString(year)| < i < |w| :: w[i] == Pad2(month)[i - |NatToString(year)| - 1];
    assert w[|w| - 1] == Pad2(month)[|Pad2(month)| - 1];
    assert IsSlugTail(w);
    assert forall k | 0 <= k < |DatePrefixes| ::
      IsSlugPath(DatePrefixes[k]) && DatePrefixes[k][|DatePrefixes[k]| - 1] == '/';
    forall k | 0 <= k < |DatePrefixes|
      ensures IsSlugPath(DatePrefixes[k] + w + "/")
    {
      SlugConcat(DatePrefixes[k], w);
    }
  }

  /** `urljoin(base, paths[k])` is `u` for some `k`. */
  ghost predicate FromPaths(u: string, base: string, paths: seq<string>)
    requires HasHttpPrefix(base) && AllSlugPaths(paths)
  {
    exists k | 0 <= k < |paths| :: JoinPath(base, paths[k]) == Ok(u)
  }

  /** `urljoin(base, path)` for each of `paths`, in order. */
  ghost function Joins(base: string, paths: seq<string>): (r: seq<Result<string>>)
    requires HasHttpPrefix(base) && AllSlugPaths(paths)
    ensures |r| == |paths| && forall k | 0 <= k < |paths| :: r[k] == JoinPath(base, paths[k])
  {
    seq(|paths|, k requires 0 <= k < |paths| => JoinPath(base, paths[k]))
  }

  /** The successful joins among the first `n` that `ok` accepts. */
  ghost function AdmittedUpTo(joins: seq<Result<string>>, n: nat, ok: string -> bool): set<string>
    requires n <= |joins|
  {
    if n == 0 then {}
    else
      var last := joins[n - 1];
      AdmittedUpTo(joins, n - 1, ok) + (if last.Ok? && ok(last.value) then {last.value} else {})
  }

  /** The validity test of the generation loops, as a function value. */
  function ValidIn(allowed: set<string>): (ok: string -> bool)
    ensures forall u :: ok(u) == IsValidUrl(u, allowed)
  {
    u => IsValidUrl(u, allowed)
  }

  /** The URLs a generation loop over `paths` may add: the joins of `base` and each path that `ok` accepts. */
  ghost function Admissible(base: string, paths: seq<string>, ok: string -> bool): set<string>
    requires HasHttpPrefix(base) && AllSlugPaths(paths)
  {
    AdmittedUpTo(Joins(base, paths), |paths|, ok)
  }

  /** The first `n` joins admit exactly those that succeed with a URL `ok` accepts. */
  lemma {:induction false} AdmittedUpToMeaning(joins: seq<Result<string>>, n: nat, ok: string -> bool, u: string)
    requires n <= |joins|
    ensures u in AdmittedUpTo(joins, n, ok) <==> ok(u) && exists k | 0 <= k < n :: joins[k] == Ok(u)
  {
    if n > 0 {
      AdmittedUpToMeaning(joins, n - 1, ok, u);
      if exists k | 0 <= k < n :: joins[k] == Ok(u) {
        var k :| 0 <= k < n && joins[k] == Ok(u);
        assert k < n - 1 || joins[n - 1] == Ok(u);
      }
    }
  }

  /** Exactly the URLs `ok` accepts that are joined from `base` and one of `paths` are admissible. */
  lemma AdmissibleMeaning(base: string, paths: seq<string>, ok: string -> bool, u: string)
    requires HasHttpPrefix(base) && AllSlugPaths(paths)
    ensures u in Admissible(base, paths, ok) <==> ok(u) && FromPaths(u, base, paths)
  {
    var joins := Joins(base, paths);
    AdmittedUpToMeaning(joins, |paths|, ok, u);
    if FromPaths(u, base, paths) {
      var k :| 0 <= k < |paths| && JoinPath(base, paths[k]) == Ok(u);
      assert joins[k] == Ok(u);
    }
  }

  /** The joins admitted among the first `n` stay admitted among the first `m >= n`. */
  lemma {:induction false} AdmittedGrows(joins: seq<Result<string>>, n: nat, m: nat, ok: string -> bool)
    requires n <= m <= |joins|
    ensures AdmittedUpTo(joins, n, ok) <= AdmittedUpTo(joins, m, ok)
    decreases m
  {
    if n < m {
      AdmittedGrows(joins, n, m - 1, ok);
    }
  }

  /**
   * `visited` after the first `n` steps of the innermost generation loop,
   * from `v`, when the cap does not stop it: each join `ok` accepts is added.
   */
  ghost function Generated(v: set<string>, base: string, paths: seq<string>, n: nat, ok: string -> bool): set<string>
    requires HasHttpPrefix(base) && AllSlugPaths(paths) && n <= |paths|
  {
    if n == 0 then v
    else
      var before := Generated(v, base, paths, n - 1, ok);
      var last := JoinPath(base, paths[n - 1]);
      if last.Ok? && ok(last.value) && last.value !in before then before + {last.value} else before
  }

  /** The loop adds exactly the admitted joins, whatever was visited before. */
  lemma {:induction false} GeneratedAdds(v: set<string>, base: string, paths: seq<string>, n: nat, ok: string -> bool)
    requires HasHttpPrefix(base) && AllSlugPaths(paths) && n <= |paths|
    ensures Generated(v, base, paths, n, ok) == v + AdmittedUpTo(Joins(base, paths), n, ok)
  {
    if n > 0 {
      GeneratedAdds(v, base, paths, n - 1, ok);
      assert Joins(base, paths)[n - 1] == JoinPath(base, paths[n - 1]);
    }
  }

  /**
   * After `k` steps the generation loop has added only admissible URLs, and
   * after all of them every admissible URL.
   */
  lemma GeneratedBounds(v: set<string>, base: string, paths: seq<string>, k: nat, ok: string -> bool)
    requires HasHttpPrefix(base) && AllSlugPaths(paths) && k <= |paths|
    ensures v <= Generated(v, base, paths, k, ok) <= v + Admissible(base, paths, ok)
    ensures k == |paths| ==> Admissible(base, paths, ok) <= Generated(v, base, paths, k, ok)
  {
    GeneratedAdds(v, base, paths, k, ok);
    AdmittedGrows(Joins(base, paths), k, |paths|, ok);
  }

  /** The blocks one after the other. */
  function Flatten(blocks: seq<seq<string>>): (r: seq<string>)
    ensures (forall j | 0 <= j < |blocks| :: AllSlugPaths(blocks[j])) ==> AllSlugPaths(r)
  {
    if |blocks| == 0 then []
    else
      var head := blocks[0];
      var tail := Flatten(blocks[1..]);
      assert forall k | 0 <= k < |head| + |tail| ::
        (head + tail)[k] == if k < |head| then head[k] else tail[k - |head|];
      head + tail
  }

  /** With blocks of width `w`, entry `c` of block `i` sits at `i * w + c`. */
  lemma {:induction false} FlattenAt(blocks: seq<seq<string>>, w: nat, i: nat, c: nat)
    requires forall j | 0 <= j < |blocks| :: |blocks[j]| == w
    requires i < |blocks| && c < w
    ensures i * w + c < |Flatten(blocks)| && Flatten(blocks)[i * w + c] == blocks[i][c]
    decreases i
  {
    var head := blocks[0];
    var tail := Flatten(blocks[1..]);
    if i == 0 {
      assert (head + tail)[c] == head[c];
    } else {
      FlattenAt(blocks[1..], w, i - 1, c);
      assert blocks[1..][i - 1] == blocks[i];
      var m := (i - 1) * w + c;
      assert i * w + c == |head| + m;
      assert (head + tail)[|head| + m] == tail[m];
    }
  }

  /** Every index of the flattened blocks is some entry of some block. */
  lemma {:induction false} FlattenCovers(blocks: seq<seq<string>>, w: nat, k: nat)
    requires forall j | 0 <= j < |blocks| :: |blocks[j]| == w
    requires k < |Flatten(blocks)|
    ensures exists i, c | 0 <= i < |blocks| && 0 <= c < w :: k == i * w + c && Flatten(blocks)[k] == blocks[i][c]
    decreases |blocks|
  {
    var head := blocks[0];
    var tail := Flatten(blocks[1..]);
    assert |head| == w;
    if k < w {
      assert (head + tail)[k] == head[k];
      assert k == 0 * w + k;
    } else {
      FlattenCovers(blocks[1..], w, k - w);
      var i, c :| 0 <= i < |blocks[1..]| && 0 <= c < w && k - w == i * w + c && tail[k - w] == blocks[1..][i][c];
      assert (head + tail)[k] == tail[k - w];
      assert k == (i + 1) * w + c;
    }
  }

  /** The category paths of each template, in the order of the template loop. */
  function CategoryBlocks(): (r: seq<seq<string>>)
    ensures |r| == |CategoryPrefixes|
  {
    seq(|CategoryPrefixes|, p requires 0 <= p < |CategoryPrefixes| => CategoryPaths(p))
  }

  /**
   * Every category path in the order the nested template/category loops
   * visit them: category `c` of template `i` comes `i * 38 + c`-th.
   */
  function CategoryCatalogue(): (r: seq<string>)
    ensures AllSlugPaths(r)
  {
    Flatten(CategoryBlocks())
  }

  /** The category catalogue lists template `i` filled with category `c` at `i * 38 + c`, and nothing else. */
  lemma CategoryCatalogueAt(i: nat, c: nat)
    requires i < |CategoryPrefixes| && c < |Categories|
    ensures i * 38 + c < |CategoryCatalogue()|
    ensures CategoryCatalogue()[i * 38 + c] == CategoryPrefixes[i] + Categories[c] + "/"
  {
    assert |Categories| == 38;
    FlattenAt(CategoryBlocks(), 38, i, c);
    assert CategoryBlocks()[i] == CategoryPaths(i);
    assert CategoryPaths(i)[c] == CategoryPrefixes[i] + Categories[c] + "/";
  }

  /** The archive paths of each month, January 2020 first, in the order of the year/month loops. */
  function DateBlocks(): (r: seq<seq<string>>)
    ensures |r| == 60
  {
    seq(60, j requires 0 <= j < 60 => DatePaths(MonthAt(j).0, MonthAt(j).1))
  }

  /** Every archive path, January 2020 to December 2024, month by month. */
  function DateCatalogue(): (r: seq<string>)
    ensures AllSlugPaths(r)
  {
    Flatten(DateBlocks())
  }

  /** The archive catalogue lists template `k` of month `j` at `j * 4 + k`. */
  lemma DateCatalogueAt(j: nat, k: nat)
    requires j < 60 && k < |DatePrefixes|
    ensures j * 4 + k < |DateCatalogue()|
    ensures DateCatalogue()[j * 4 + k] ==
      DatePrefixes[k] + (NatToString(MonthAt(j).0) + "/" + Pad2(MonthAt(j).1)) + "/"
  {
    var (year, month) := MonthAt(j);
    FlattenAt(DateBlocks(), 4, j, k);
    assert DateBlocks()[j] == DatePaths(year, month);
    assert DatePaths(year, month)[k] == DatePrefixes[k] + (NatToString(year) + "/" + Pad2(month)) + "/";
  }

  /** Set union regrouped, stated once so that callers need no extensionality. */
  lemma UnionAssoc<T>(a: set<T>, b: set<T>, c: set<T>)
    ensures a + (b + c) == (a + b) + c
  {}

  /** Adding a new element grows a set by one. */
  lemma CardAdd<T>(a: set<T>, x: T)
    requires x !in a
    ensures |a + {x}| == |a| + 1
  {}

  /**
   * `visited` grew from `v0` to `v` the way every crawl phase grows it: by
   * valid URLs only, not at all once at the cap, and never past the cap
   * from below it.
   */
  predicate GrewWithin(v0: set<string>, v: set<string>, allowed: set<string>) {
    v0 <= v &&
    (forall u | u in v && u !in v0 :: IsValidUrl(u, allowed)) &&
    (|v0| >= MaxUrls ==> v == v0) &&
    (|v0| < MaxUrls ==> |v| <= MaxUrls)
  }

  /** One valid new URL added below the cap keeps the growth rule. */
  lemma GrewAdd(v0: set<string>, v: set<string>, u: string, allowed: set<string>)
    requires GrewWithin(v0, v, allowed)
    requires u !in v && IsValidUrl(u, allowed) && |v| < MaxUrls
    ensures GrewWithin(v0, v + {u}, allowed)
  {
    CardAdd(v, u);
  }

  /**
   * After the first `k` of `links` were offered to a loop that adds a link
   * when it is new, valid and `v` is below the cap: `v` grew from `v0` by
   * links only, and below the cap every valid offered link is in.
   */
  predicate LinksAdded(v0: set<string>, v: set<string>, links: seq<string>, k: nat,
                       allowed: set<string>)
    requires k <= |links|
  {
    GrewWithin(v0, v, allowed) &&
    (forall u | u in v && u !in v0 :: u in links) &&
    (|v| < MaxUrls ==> forall j | 0 <= j < k && IsValidUrl(links[j], allowed) :: links[j] in v)
  }

  /** Offering one more link keeps `LinksAdded`. */
  lemma LinksAddedStep(v0: set<string>, v: set<string>, v': set<string>, links: seq<string>,
                       k: nat, allowed: set<string>)
    requires k < |links| && LinksAdded(v0, v, links, k, allowed)
    requires v' == if links[k] !in v && IsValidUrl(links[k], allowed) && |v| < MaxUrls
                   then v + {links[k]} else v
    ensures LinksAdded(v0, v', links, k + 1, allowed)
  {
    if v' != v {
      GrewAdd(v0, v, links[k], allowed);
      CardAdd(v, links[k]);
    }
  }

  /**
   * The links of `links` outside `rest` were handled by the link loop of
   * `_deep_content_crawl`: `v` grew from `v0` by the growth rule, and below
   * the cap every valid handled link is in.
   */
  predicate Followed(v0: set<string>, v: set<string>, links: set<string>, rest: set<string>,
                     allowed: set<string>) {
    GrewWithin(v0, v, allowed) &&
    (|v| < MaxUrls ==> forall l | l in links && l !in rest && IsValidUrl(l, allowed) :: l in v)
  }

  /** Handling one more link below the cap keeps `Followed`. */
  lemma FollowedStep(v0: set<string>, v: set<string>, v1: set<string>, v2: set<string>,
                     links: set<string>, rest: set<string>, link: string, allowed: set<string>)
    requires Followed(v0, v, links, rest, allowed) && link in rest && |v| < MaxUrls
    requires v1 == if link !in v && IsValidUrl(link, allowed) then v + {link} else v
    requires GrewWithin(v1, v2, allowed)
    ensures Followed(v0, v2, links, rest - {link}, allowed)
  {
    if v1 != v {
      GrewAdd(v0, v, link, allowed);
      CardAdd(v, link);
    }
    GrewTrans(v0, v1, v2, allowed);
  }

  /**
   * `d` is `d0` with a value recorded for each of the first `i` URLs of
   * `urls`, the value `rec` gives for it; nothing else changed.
   */
  ghost predicate Recorded(d0: map<string, string>, d: map<string, string>, urls: seq<string>,
                           i: nat, rec: string -> string)
    requires i <= |urls|
  {
    (forall u | u in d :: u in d0 || u in urls[..i]) &&
    (forall u | u in d0 :: u in d) &&
    (forall k | 0 <= k < i :: urls[k] in d && d[urls[k]] == rec(urls[k])) &&
    (forall u | u in d0 && u !in urls[..i] :: d[u] == d0[u])
  }

  /** Recording the next URL keeps `Recorded`. */
  lemma RecordedStep(d0: map<string, string>, d: map<string, string>, d': map<string, string>,
                     urls: seq<string>, i: nat, rec: string -> string)
    requires i < |urls| && Recorded(d0, d, urls, i, rec)
    requires d' == d[urls[i] := rec(urls[i])]
    ensures Recorded(d0, d', urls, i + 1, rec)
  {
    assert urls[..i + 1] == urls[..i] + [urls[i]];
  }

  /**
   * `d` is `d0` with the leftover value recorded for each URL of `v` outside
   * `rest` that had none.
   */
  predicate Filled(d0: map<string, string>, d: map<string, string>, v: set<string>,
                   rest: set<string>) {
    (forall u | u in d :: u in d0 || (u in v && u !in rest)) &&
    (forall u | u in v && u !in rest :: u in d) &&
    (forall u | u in d0 :: u in d && d[u] == d0[u]) &&
    (forall u | u in d && u !in d0 :: d[u] == LeftoverRecord(u))
  }

  /** Handling one more URL keeps `Filled`. */
  lemma FilledStep(d0: map<string, string>, d: map<string, string>, d': map<string, string>,
                   v: set<string>, rest: set<string>, u: string)
    requires Filled(d0, d, v, rest) && u in rest && rest <= v
    requires d' == if u in d then d else d[u := LeftoverRecord(u)]
    ensures Filled(d0, d', v, rest - {u})
  {
  }

  /**
   * What `_deep_content_crawl` leaves in `url_data` (`d`, from `d0`) for the
   * visited URLs `v`: every visited URL has a value and no other URL gained
   * one; each of the first `processed` URLs of the batch holds the value its
   * batch fetch determines, each refetched URL of `todo` (none of which had a
   * value before) the value its refetch determines; every value is the old
   * one, a batch value, a refetch value or the leftover value of its URL.
   */
  ghost predicate DeepCrawlRecorded(d0: map<string, string>, d: map<string, string>, v: set<string>,
                                    batch: seq<string>, processed: nat, todo: seq<string>,
                                    fetch: Fetcher, refetch: Fetcher, domain: string)
    requires processed <= |batch|
  {
    Covers(d0, d, v) && BatchKept(d, batch, processed, fetch, domain) &&
    TodoKept(d0, d, batch, processed, todo, refetch, domain) && ValuesFrom(d0, d, fetch, refetch, domain)
  }

  /** Every URL of `v` has a value, and every key is old or in `v`. */
  ghost predicate Covers(d0: map<string, string>, d: map<string, string>, v: set<string>) {
    (forall u | u in v :: u in d) && (forall u | u in d :: u in d0 || u in v)
  }

  /** The first `processed` URLs of the batch keep the value the batch loop gave them. */
  ghost predicate BatchKept(d: map<string, string>, batch: seq<string>, processed: nat,
                            fetch: Fetcher, domain: string)
    requires processed <= |batch|
  {
    forall k | 0 <= k < processed ::
      batch[k] in d && d[batch[k]] == BatchRecord(fetch(batch[k]), batch[k], domain)
  }

  /** The refetched URLs are new ones, and keep the value the finalisation loop gave them. */
  ghost predicate TodoKept(d0: map<string, string>, d: map<string, string>, batch: seq<string>,
                           processed: nat, todo: seq<string>, refetch: Fetcher, domain: string)
    requires processed <= |batch|
  {
    forall k | 0 <= k < |todo| ::
      todo[k] !in d0 && todo[k] !in batch[..processed] &&
      todo[k] in d && d[todo[k]] == FinalRecord(refetch(todo[k]), todo[k], domain)
  }

  /** Each value is the old one or one of the values the three loops give. */
  ghost predicate ValuesFrom(d0: map<string, string>, d: map<string, string>, fetch: Fetcher,
                             refetch: Fetcher, domain: string)
  {
    forall u | u in d ::
      (u in d0 && d[u] == d0[u]) || d[u] == BatchRecord(fetch(u), u, domain) ||
      d[u] == FinalRecord(refetch(u), u, domain) || d[u] == LeftoverRecord(u)
  }

  /**
   * The three recording loops of `_deep_content_crawl` together: every URL
   * of `v` ends up with a value, and each value is the old one or the one
   * the loop that recorded it gives.
   */
  lemma DeepCrawlRecords(d0: map<string, string>, d1: map<string, string>, d2: map<string, string>,
                         d3: map<string, string>, v: set<string>, batch: seq<string>,
                         processed: nat, todo: seq<string>,
                         fetch: Fetcher, refetch: Fetcher, domain: string)
    requires processed <= |batch| && forall k | 0 <= k < |batch| :: batch[k] in v
    requires Recorded(d0, d1, batch, processed, BatchRecorder(fetch, domain))
    requires forall k | 0 <= k < |todo| :: todo[k] in v && todo[k] !in d1
    requires Recorded(d1, d2, todo, |todo|, FinalRecorder(refetch, domain))
    requires Filled(d2, d3, v, {})
    ensures DeepCrawlRecorded(d0, d3, v, batch, processed, todo, fetch, refetch, domain)
  {
    RecordsCover(d0, d1, d2, d3, v, batch, processed, todo, fetch, refetch, domain);
    RecordsKept(d0, d1, d2, d3, v, batch, processed, todo, fetch, refetch, domain);
    RecordsValues(d0, d1, d2, d3, v, batch, processed, todo, fetch, refetch, domain);
  }

  lemma RecordsCover(d0: map<string, string>, d1: map<string, string>, d2: map<string, string>,
                     d3: map<string, string>, v: set<string>, batch: seq<string>,
                     processed: nat, todo: seq<string>,
                     fetch: Fetcher, refetch: Fetcher, domain: string)
    requires processed <= |batch| && forall k | 0 <= k < |batch| :: batch[k] in v
    requires Recorded(d0, d1, batch, processed, BatchRecorder(fetch, domain))
    requires forall k | 0 <= k < |todo| :: todo[k] in v && todo[k] !in d1
    requires Recorded(d1, d2, todo, |todo|, FinalRecorder(refetch, domain))
    requires Filled(d2, d3, v, {})
    ensures Covers(d0, d3, v)
  {
    RecordedCover(d0, d1, d2, d3, v, batch, processed, todo,
                  BatchRecorder(fetch, domain), FinalRecorder(refetch, domain));
  }

  /** `RecordsCover` for any two recorders: only the keys matter. */
  lemma RecordedCover(d0: map<string, string>, d1: map<string, string>, d2: map<string, string>,
                      d3: map<string, string>, v: set<string>, batch: seq<string>,
                      processed: nat, todo: seq<string>,
                      first: string -> string, second: string -> string)
    requires processed <= |batch| && forall k | 0 <= k < |batch| :: batch[k] in v
    requires Recorded(d0, d1, batch, processed, first)
    requires forall k | 0 <= k < |todo| :: todo[k] in v && todo[k] !in d1
    requires Recorded(d1, d2, todo, |todo|, second)
    requires Filled(d2, d3, v, {})
    ensures Covers(d0, d3, v)
  {
    forall u | u in d3 && u !in d0
      ensures u in v
    {
      if u in d2 && u !in d1 {
        assert u in todo[..|todo|];
        var k :| 0 <= k < |todo| && todo[..|todo|][k] == u;
      } else if u in d2 {
        assert u in batch[..processed];
        var k :| 0 <= k < processed && batch[..processed][k] == u;
      }
    }
  }

  lemma RecordsKept(d0: map<string, string>, d1: map<string, string>, d2: map<string, string>,
                    d3: map<string, string>, v: set<string>, batch: seq<string>,
                    processed: nat, todo: seq<string>,
                    fetch: Fetcher, refetch: Fetcher, domain: string)
    requires processed <= |batch|
    requires Recorded(d0, d1, batch, processed, BatchRecorder(fetch, domain))
    requires forall k | 0 <= k < |todo| :: todo[k] !in d1
    requires Recorded(d1, d2, todo, |todo|, FinalRecorder(refetch, domain))
    requires Filled(d2, d3, v, {})
    ensures BatchKept(d3, batch, processed, fetch, domain)
    ensures TodoKept(d0, d3, batch, processed, todo, refetch, domain)
  {
    forall k | 0 <= k < |todo|
      ensures todo[k] !in d0 && todo[k] !in batch[..processed]
    {
      assert todo[k] !in d1;
    }
  }

  lemma RecordsValues(d0: map<string, string>, d1: map<string, string>, d2: map<string, string>,
                      d3: map<string, string>, v: set<string>, batch: seq<string>,
                      processed: nat, todo: seq<string>,
                      fetch: Fetcher, refetch: Fetcher, domain: string)
    requires processed <= |batch|
    requires Recorded(d0, d1, batch, processed, BatchRecorder(fetch, domain))
    requires Recorded(d1, d2, todo, |todo|, FinalRecorder(refetch, domain))
    requires Filled(d2, d3, v, {})
    ensures ValuesFrom(d0, d3, fetch, refetch, domain)
  {
    forall u | u in d3
      ensures (u in d0 && d3[u] == d0[u]) || d3[u] == BatchRecord(fetch(u), u, domain) ||
              d3[u] == FinalRecord(refetch(u), u, domain) || d3[u] == LeftoverRecord(u)
    {
      if u in d2 {
        if u in todo[..|todo|] {
          var k :| 0 <= k < |todo| && todo[..|todo|][k] == u;
        } else if u in batch[..processed] {
          var k :| 0 <= k < processed && batch[..processed][k] == u;
          assert u in d1;
        }
      }
    }
  }

  /** The value the batch loop records for each URL, as a function. */
  function BatchRecorder(fetch: Fetcher, domain: string): string -> string {
    u => BatchRecord(fetch(u), u, domain)
  }

  /** The value the finalisation loop records for each URL, as a function. */
  function FinalRecorder(refetch: Fetcher, domain: string): string -> string {
    u => FinalRecord(refetch(u), u, domain)
  }

  /** Two growth steps make one. */
  lemma GrewTrans(v0: set<string>, v1: set<string>, v2: set<string>, allowed: set<string>)
    requires GrewWithin(v0, v1, allowed) && GrewWithin(v1, v2, allowed)
    ensures GrewWithin(v0, v2, allowed)
  {
  }

  /** The home pages of a set of hosts. */
  function HomeUrls(hosts: set<string>): set<string> {
    set h | h in hosts :: HomeUrl(h)
  }

  lemma HomeUrlsAdd(hosts: set<string>, h: string)
    ensures HomeUrls(hosts + {h}) == HomeUrls(hosts) + {HomeUrl(h)}
  {
  }

  predicate AllHttp(domains: seq<string>) {
    forall d | 0 <= d < |domains| :: HasHttpPrefix(domains[d])
  }

  /** The union of a sequence of sets. */
  ghost function UnionOf(blocks: seq<set<string>>): set<string>
    decreases |blocks|
  {
    if |blocks| == 0 then {} else UnionOf(blocks[..|blocks| - 1]) + blocks[|blocks| - 1]
  }

  /** A member of the union is a member of one of the sets. */
  lemma {:induction false} UnionOfMeaning(blocks: seq<set<string>>, u: string)
    ensures u in UnionOf(blocks) <==> exists i | 0 <= i < |blocks| :: u in blocks[i]
    decreases |blocks|
  {
    if |blocks| > 0 {
      var n := |blocks| - 1;
      var init := blocks[..n];
      UnionOfMeaning(init, u);
      if u in UnionOf(init) {
        var i :| 0 <= i < n && u in init[i];
        assert u in blocks[i];
      } else if u in blocks[n] {
        assert 0 <= n < |blocks| && u in blocks[n];
      } else {
        forall i | 0 <= i < |blocks|
          ensures u !in blocks[i]
        {
          if i < n {
            assert init[i] == blocks[i];
          }
        }
      }
    }
  }

  /** The union of the first sets is part of the union of all of them. */
  lemma {:induction false} UnionOfPrefix(blocks: seq<set<string>>, n: nat)
    requires n <= |blocks|
    ensures UnionOf(blocks[..n]) <= UnionOf(blocks)
    decreases |blocks| - n
  {
    if n < |blocks| {
      var init := blocks[..|blocks| - 1];
      UnionOfPrefix(init, n);
      assert init[..n] == blocks[..n];
    } else {
      assert blocks[..n] == blocks;
    }
  }

  /** One more set in the prefix adds that set to the union. */
  lemma UnionOfStep(blocks: seq<set<string>>, d: nat)
    requires d < |blocks|
    ensures UnionOf(blocks[..d + 1]) == UnionOf(blocks[..d]) + blocks[d]
  {
    assert blocks[..d + 1][..d] == blocks[..d];
  }

  /** The URLs a generation block over `paths` may add for each domain. */
  ghost function DomainBlocks(domains: seq<string>, paths: seq<string>, ok: string -> bool): (r: seq<set<string>>)
    requires AllHttp(domains) && AllSlugPaths(paths)
    ensures |r| == |domains|
    ensures forall d | 0 <= d < |domains| :: r[d] == Admissible(domains[d], paths, ok)
  {
    seq(|domains|, d requires 0 <= d < |domains| => Admissible(domains[d], paths, ok))
  }

  /** The URLs a generation block over `paths` may add, over every domain. */
  ghost function DomainsAdmissible(domains: seq<string>, paths: seq<string>, ok: string -> bool): set<string>
    requires AllHttp(domains) && AllSlugPaths(paths)
  {
    UnionOf(DomainBlocks(domains, paths, ok))
  }

  /**
   * Exactly the URLs admissible for one of the domains; with
   * `AdmissibleMeaning`, the valid joins of some domain and some path.
   */
  lemma DomainsAdmissibleMeaning(domains: seq<string>, paths: seq<string>, ok: string -> bool, u: string)
    requires AllHttp(domains) && AllSlugPaths(paths)
    ensures u in DomainsAdmissible(domains, paths, ok) <==>
      exists d | 0 <= d < |domains| :: u in Admissible(domains[d], paths, ok)
  {
    UnionOfMeaning(DomainBlocks(domains, paths, ok), u);
  }

  /**
   * Whatever order lists the domains, the URLs admissible for them are the
   * joins of one of the domains and one of `paths` that `ok` accepts.
   */
  lemma DomainsAdmissibleFrom(domains: seq<string>, bases: set<string>, paths: seq<string>,
                              ok: string -> bool, u: string)
    requires AllHttp(domains) && AllSlugPaths(paths)
    requires forall b | b in bases :: HasHttpPrefix(b)
    requires forall d | 0 <= d < |domains| :: domains[d] in bases
    requires forall b | b in bases :: b in domains
    ensures u in DomainsAdmissible(domains, paths, ok) <==>
      ok(u) && exists b | b in bases :: FromPaths(u, b, paths)
  {
    DomainsAdmissibleMeaning(domains, paths, ok, u);
    if u in DomainsAdmissible(domains, paths, ok) {
      var d :| 0 <= d < |domains| && u in Admissible(domains[d], paths, ok);
      AdmissibleMeaning(domains[d], paths, ok, u);
    }
    if ok(u) && exists b | b in bases :: FromPaths(u, b, paths) {
      var b :| b in bases && FromPaths(u, b, paths);
      var d :| 0 <= d < |domains| && domains[d] == b;
      AdmissibleMeaning(domains[d], paths, ok, u);
    }
  }

  /** Month `j` of the sixty the date block walks, as `(year, month)`, from January 2020. */
  function MonthAt(j: nat): (r: (nat, nat))
    ensures FirstYear <= r.0 && 1 <= r.1 <= 12
    ensures j < 60 ==> r.0 <= LastYear
    ensures j == (r.0 - FirstYear) * 12 + r.1 - 1
  {
    (FirstYear + j / 12, j % 12 + 1)
  }

  /** The path of a URL marks a post worth fetching at once. */
  predicate IsHighPriority(lowered: string) {
    Contains(lowered, "/blog/") || Contains(lowered, "/article/") || Contains(lowered, "/post/") ||
    Contains(lowered, "/news/") || Contains(lowered, "/story/")
  }

  const PatternNameError: string := "NameError: name 'common_paths' is not defined"

  /** The eleven section paths `_generate_pattern_urls` always considers. */
  const BasicPaths: set<string> := {
    "/blog", "/news", "/resources", "/about", "/contact", "/support",
    "/help", "/docs", "/pricing", "/products", "/solutions"}

  class EnhancedCrawler {
    /** `start_url`, after normalisation. */
    const startUrl: string
    /** `domain`: the authority of the start URL. */
    const domain: string
    /** `base_domain`: the domain subdomains are probed under. */
    const baseDomain: string
    /** `total_urls`: zero in `__init__`, and no phase changes it. */
    const totalUrls: nat

    var visited: set<string>
    var crawledUrls: nat
    /** `url_data`: the title recorded for each URL. */
    var urlData: map<string, string>
    var discoveredSubdomains: set<string>
    var allowedSubdomains: set<string>
    /** `url_patterns`: learned templates, in discovery order. */
    var urlPatterns: seq<string>

    ghost predicate Valid()
      reads this
    {
      HasHttpPrefix(startUrl) && domain in allowedSubdomains && discoveredSubdomains <= allowedSubdomains &&
      NoDuplicates(urlPatterns)
    }

    /** `__init__`: only the start host is allowed and nothing is visited yet. */
    constructor (start: string)
      requires UrlParse(NormalizeUrl(start)).Ok?
      ensures startUrl == NormalizeUrl(start)
      ensures domain == UrlParse(startUrl).value.netloc && baseDomain == BaseDomain(domain)
      ensures totalUrls == 0
      ensures visited == {} && crawledUrls == 0 && urlData == map[]
      ensures discoveredSubdomains == {} && allowedSubdomains == {domain} && urlPatterns == []
      ensures Valid()
    {
      var url := NormalizeUrl(start);
      var host := UrlParse(url).value.netloc;
      startUrl := url;
      domain := host;
      baseDomain := BaseDomain(host);
      totalUrls := 0;
      visited := {};
      crawledUrls := 0;
      urlData := map[];
      discoveredSubdomains := {};
      allowedSubdomains := {host};
      urlPatterns := [];
    }

    /** The probe of a label's host counts as live. */
    predicate Hit(probe: Fetcher, name: string) {
      IsProbeHit(probe(HomeUrl(Candidate(name))))
    }

    /** The host probed for a label. */
    function Candidate(name: string): string {
      name + "." + baseDomain
    }

    /**
     * `_discover_subdomains`: probes `https://<label>.<base domain>` for the
     * basic labels and those found in page content, in an order the model
     * does not fix, until ten new hosts were found.  A live host not yet
     * allowed becomes allowed and discovered, and its home page visited.
     * Timeouts and request errors skip the label; any other exception ends
     * the phase.
     */
    method DiscoverSubdomains(fromContent: set<string>, probe: Fetcher)
      returns (outcome: Outcome, added: set<string>)
      requires Valid()
      modifies this`allowedSubdomains, this`discoveredSubdomains, this`visited
      ensures Valid()
      ensures |added| <= SubdomainLimit
      ensures Grown(old(allowedSubdomains), old(discoveredSubdomains), old(visited), added)
      ensures forall h | h in added ::
        exists name :: name in BasicLabels + fromContent && h == Candidate(name) &&
                       IsProbeHit(probe(HomeUrl(h)))
      ensures outcome.Pass? && |added| < SubdomainLimit ==>
        forall name {:trigger Hit(probe, name)} | name in BasicLabels + fromContent && Hit(probe, name) ::
          Candidate(name) in allowedSubdomains
      ensures outcome.Fail? ==>
        exists name :: name in BasicLabels + fromContent && probe(HomeUrl(Candidate(name))).OtherError?
    {
      ghost var allowed0, discovered0, visited0 := allowedSubdomains, discoveredSubdomains, visited;
      ghost var culprit: string := "";
      var labels := BasicLabels + fromContent;
      var rest := labels;
      ghost var labelOf: map<string, string> := map[];
      added := {};
      var count := 0;
      outcome := Pass;
      while rest != {} && count < SubdomainLimit && outcome.Pass?
        invariant count <= SubdomainLimit && |added| == count
        invariant Discovery(probe, labels, rest, added, labelOf, outcome.Pass?, culprit,
                            allowed0, discovered0, visited0)
        decreases rest
      {
        var name :| name in rest;
        var found;
        outcome, found, added, labelOf, culprit :=
          DiscoverLabel(name, probe, labels, rest, added, labelOf, allowed0, discovered0, visited0);
        rest := rest - {name};
        if found {
          count := count + 1;
        }
      }
      forall h | h in added
        ensures exists name :: name in labels && h == Candidate(name) && IsProbeHit(probe(HomeUrl(h)))
      {
        assert labelOf[h] in labels && h == Candidate(labelOf[h]);
      }
    }

    /**
     * What `_discover_subdomains` has achieved once every label outside
     * `rest` was probed: the hosts in `added` were found live, each for the
     * label `labelOf` names; while no probe raised, every live label probed
     * has its host allowed; after one raised, `culprit` is that label.
     */
    ghost predicate Discovery(probe: Fetcher, labels: set<string>, rest: set<string>,
                              added: set<string>, labelOf: map<string, string>, pass: bool,
                              culprit: string, allowed0: set<string>, discovered0: set<string>,
                              visited0: set<string>)
      reads this
    {
      rest <= labels && Valid() && Grown(allowed0, discovered0, visited0, added) &&
      (forall h | h in added ::
         h in labelOf && labelOf[h] in labels && h == Candidate(labelOf[h]) && IsProbeHit(probe(HomeUrl(h)))) &&
      (pass ==>
         forall name {:trigger Hit(probe, name)} | name in labels && name !in rest && Hit(probe, name) ::
           Candidate(name) in allowedSubdomains) &&
      (!pass ==> culprit in labels && probe(HomeUrl(Candidate(culprit))).OtherError?)
    }

    /**
     * One pass of the discovery loop: `name` is probed; a probe that raises
     * ends the phase, and a live host not yet allowed is added.
     */
    method DiscoverLabel(name: string, probe: Fetcher, ghost labels: set<string>,
                         ghost rest: set<string>, added: set<string>,
                         ghost labelOf: map<string, string>, ghost allowed0: set<string>,
                         ghost discovered0: set<string>, ghost visited0: set<string>)
      returns (outcome: Outcome, found: bool, added': set<string>,
               ghost labelOf': map<string, string>, ghost culprit: string)
      requires name in rest
      requires Discovery(probe, labels, rest, added, labelOf, true, "", allowed0, discovered0, visited0)
      modifies this`allowedSubdomains, this`discoveredSubdomains, this`visited
      ensures Discovery(probe, labels, rest - {name}, added', labelOf', outcome.Pass?, culprit,
                        allowed0, discovered0, visited0)
      ensures |added'| == if found then |added| + 1 else |added|
    {
      var response;
      response, found := ProbeLabel(name, probe, allowed0, discovered0, visited0, added);
      added', labelOf', culprit := added, labelOf, "";
      if response.OtherError? {
        culprit := name;
        outcome := Fail("probe raised");
      } else {
        outcome := Pass;
        if found {
          var host := Candidate(name);
          CardAdd(added, host);
          added' := added + {host};
          labelOf' := labelOf[host := name];
        }
      }
    }

    /**
     * The host sets have grown from `allowed0`, `discovered0` and `visited0`
     * by the new hosts `added` (and their home pages), none of which was
     * allowed before.
     */
    ghost predicate Grown(allowed0: set<string>, discovered0: set<string>, visited0: set<string>,
                          added: set<string>)
      reads this
    {
      added !! allowed0 &&
      allowedSubdomains == allowed0 + added &&
      discoveredSubdomains == discovered0 + added &&
      visited == visited0 + HomeUrls(added)
    }

    /**
     * One label of `_discover_subdomains`: its host is probed, and a live host
     * not yet allowed becomes allowed and discovered, its home page visited.
     * The hosts added so far, `added`, grow by that host.
     */
    method ProbeLabel(name: string, probe: Fetcher, ghost allowed0: set<string>,
                      ghost discovered0: set<string>, ghost visited0: set<string>,
                      ghost added: set<string>)
      returns (response: FetchOutcome, found: bool)
      requires Valid() && Grown(allowed0, discovered0, visited0, added)
      modifies this`allowedSubdomains, this`discoveredSubdomains, this`visited
      ensures Valid()
      ensures response == probe(HomeUrl(Candidate(name)))
      ensures found <==> IsProbeHit(response) && Candidate(name) !in old(allowedSubdomains)
      ensures found ==> Candidate(name) !in added
      ensures Hit(probe, name) ==> Candidate(name) in allowedSubdomains
      ensures old(allowedSubdomains) <= allowedSubdomains
      ensures Grown(allowed0, discovered0, visited0, if found then added + {Candidate(name)} else added)
    {
      var host := Candidate(name);
      response := probe(HomeUrl(host));
      found := IsProbeHit(response) && host !in allowedSubdomains;
      if found {
        UnionAssoc(allowed0, added, {host});
        UnionAssoc(discovered0, added, {host});
        HomeUrlsAdd(added, host);
        UnionAssoc(visited0, HomeUrls(added), {HomeUrl(host)});
        allowedSubdomains := allowedSubdomains + {host};
        discoveredSubdomains := discoveredSubdomains + {host};
        visited := visited + {HomeUrl(host)};
      }
    }

    /**
     * `_analyze_url_pattern`: when the path of `url` matches one of the seven
     * pattern regexes, its template is appended unless already present.  The
     * `{num}` step never changes the template, so the template is exactly
     * `Template(path)`.  A URL that does not parse raises.
     */
    method AnalyzeUrlPattern(url: string) returns (outcome: Outcome)
      requires Valid()
      modifies this`urlPatterns
      ensures Valid()
      ensures outcome.Fail? <==> UrlParse(url).Err?
      ensures UrlParse(url).Err? ==> urlPatterns == old(urlPatterns)
      ensures UrlParse(url).Ok? ==> Learned(old(urlPatterns), urlPatterns, UrlParse(url).value.path)
    {
      match UrlParse(url)
      case Err(e) =>
        return Fail(e);
      case Ok(parts) =>
        LearnPattern(parts.path);
        return Pass;
    }

    /**
     * `patterns` is `before` with the template of `path` appended when some
     * pattern regex is found in `path` and the template is new.
     */
    ghost predicate Learned(before: seq<string>, patterns: seq<string>, path: string) {
      patterns == if HasShape(path) && Template(path) !in before then before + [Template(path)] else before
    }

    /** The loop of `_analyze_url_pattern` over the seven regexes, for the path of a URL. */
    method LearnPattern(path: string)
      requires Valid()
      modifies this`urlPatterns
      ensures Valid()
      ensures Learned(old(urlPatterns), urlPatterns, path)
    {
      NumberSubstitutionNeverFires(path);
      ghost var matched := false;
      var i := 0;
      while i < PatternCount
        invariant 0 <= i <= PatternCount
        invariant NoDuplicates(urlPatterns)
        invariant matched ==> HasShape(path)
        invariant !matched ==> forall j | 0 <= j < i :: !Searches(j, path)
        invariant urlPatterns == if matched && Template(path) !in old(urlPatterns)
                                 then old(urlPatterns) + [Template(path)] else old(urlPatterns)
      {
        if Searches(i, path) {
          matched := true;
          var template := PatternTemplate(path);
          if template !in urlPatterns {
            urlPatterns := urlPatterns + [template];
          }
        }
        i := i + 1;
      }
    }

    /**
     * `domains_to_generate`: the start URL, then the home page of every
     * discovered subdomain not already listed, in an order the model does
     * not fix.
     */
    method DomainsToGenerate() returns (domains: seq<string>)
      requires Valid()
      ensures |domains| >= 1 && domains[0] == startUrl
      ensures NoDuplicates(domains)
      ensures AllHttp(domains)
      ensures forall k | 1 <= k < |domains| :: domains[k] in HomeUrls(discoveredSubdomains)
      ensures forall h | h in discoveredSubdomains :: HomeUrl(h) in domains
    {
      var homes := HomeUrls(discoveredSubdomains);
      domains := [startUrl];
      var rest := discoveredSubdomains;
      while rest != {}
        invariant rest <= discoveredSubdomains
        invariant |domains| >= 1 && domains[0] == startUrl
        invariant NoDuplicates(domains)
        invariant AllHttp(domains)
        invariant forall k | 1 <= k < |domains| :: domains[k] in homes
        invariant forall g | g in discoveredSubdomains - rest :: HomeUrl(g) in domains
        decreases rest
      {
        var h :| h in rest;
        rest := rest - {h};
        var u := HomeUrl(h);
        if u !in domains {
          domains := domains + [u];
        }
      }
    }

    /**
     * The innermost generation loop: `urljoin(base, path)` for each path in
     * turn, added when `ok` accepts it and it is new, stopping once the cap
     * is reached.  A base that does not parse makes the first join raise.
     */
    method AddGenerated(base: string, paths: seq<string>, ok: string -> bool) returns (outcome: Outcome)
      requires HasHttpPrefix(base) && AllSlugPaths(paths)
      requires |visited| < MaxUrls
      modifies this`visited
      ensures old(visited) <= visited <= old(visited) + Admissible(base, paths, ok)
      ensures |visited| <= MaxUrls
      ensures outcome.Fail? <==> |paths| > 0 && UrlParse(base).Err?
      ensures outcome.Fail? ==> visited == old(visited)
      ensures outcome.Pass? && |visited| < MaxUrls ==> Admissible(base, paths, ok) <= visited
    {
      var k := 0;
      while k < |paths|
        invariant 0 <= k <= |paths|
        invariant visited == Generated(old(visited), base, paths, k, ok)
        invariant |visited| < MaxUrls
        invariant k > 0 ==> UrlParse(base).Ok?
      {
        var joined := JoinPath(base, paths[k]);
        if joined.Err? {
          return Fail(joined.error);
        }
        var u := joined.value;
        var isNew := ok(u) && u !in visited;
        label Step:
        if isNew {
          visited := visited + {u};
          assert |visited| == |old@Step(visited)| + 1;
        }
        k := k + 1;
        if isNew && |visited| >= MaxUrls {
          GeneratedBounds(old(visited), base, paths, k, ok);
          return Pass;
        }
      }
      GeneratedBounds(old(visited), base, paths, k, ok);
      return Pass;
    }

    /**
     * The domain loop shared by the category and date blocks of
     * `_generate_pattern_urls`: while `visited` is below the cap, the paths
     * are joined to each domain in turn.  It adds nothing at or above the
     * cap, never pushes `visited` past it, adds only joins of a domain and a
     * path that `ok` accepts, and adds all of them unless the cap stopped it.
     */
    method GenerateForDomains(domains: seq<string>, paths: seq<string>, ok: string -> bool) returns (outcome: Outcome)
      requires AllHttp(domains) && AllSlugPaths(paths)
      modifies this`visited
      ensures old(visited) <= visited <= old(visited) + DomainsAdmissible(domains, paths, ok)
      ensures |old(visited)| >= MaxUrls ==> visited == old(visited)
      ensures |old(visited)| < MaxUrls ==> |visited| <= MaxUrls
      ensures outcome.Fail? ==> |paths| > 0 && exists d | 0 <= d < |domains| :: UrlParse(domains[d]).Err?
      ensures outcome.Pass? && |visited| < MaxUrls ==> DomainsAdmissible(domains, paths, ok) <= visited
    {
      ghost var blocks := DomainBlocks(domains, paths, ok);
      outcome := Pass;
      var d := 0;
      while d < |domains|
        invariant 0 <= d <= |domains| && outcome.Pass?
        invariant old(visited) <= visited <= old(visited) + UnionOf(blocks[..d])
        invariant |old(visited)| >= MaxUrls ==> visited == old(visited)
        invariant |old(visited)| < MaxUrls ==> |visited| <= MaxUrls
        invariant |visited| < MaxUrls ==> UnionOf(blocks[..d]) <= visited
      {
        if |visited| >= MaxUrls {
          UnionOfPrefix(blocks, d);
          return;
        }
        outcome := AddGenerated(domains[d], paths, ok);
        if outcome.Fail? {
          UnionOfPrefix(blocks, d);
          return;
        }
        UnionOfStep(blocks, d);
        d := d + 1;
      }
      assert blocks[..d] == blocks;
    }

    /** The home pages generation runs over: the start URL and each discovered host's. */
    function Bases(): (r: set<string>)
      reads this
      requires Valid()
      ensures forall b | b in r :: HasHttpPrefix(b)
    {
      {startUrl} + HomeUrls(discoveredSubdomains)
    }

    /** `u` is a valid URL joined from one of the home pages and one of `paths`. */
    ghost predicate Generable(u: string, paths: seq<string>)
      reads this
      requires Valid() && AllSlugPaths(paths)
    {
      IsValidUrl(u, allowedSubdomains) && exists b | b in Bases() :: FromPaths(u, b, paths)
    }

    /**
     * `_generate_pattern_urls` as written: after listing the domains and
     * merging the basic paths with those found in page content, the first
     * domain's loop header names `common_paths`, which is defined nowhere,
     * so the phase raises before it changes anything.
     */
    method GeneratePatternUrls(discovered: set<string>) returns (outcome: Outcome)
      requires Valid()
      ensures outcome == Fail(PatternNameError)
    {
      var domains := DomainsToGenerate();
      var allPaths := BasicPaths + discovered;
      assert |domains| > 0;
      outcome := Fail(PatternNameError);
    }

    /**
     * The category block and the date block of `_generate_pattern_urls`,
     * with `paths` the category or the archive catalogue: below the cap,
     * each domain in turn gets every catalogue path joined to it.  Whatever
     * order lists the domains, the phase adds only valid joins of a home
     * page and a catalogue path, adds nothing at or above the cap, never
     * pushes `visited` past it, and adds every such join unless the cap
     * stopped it.
     */
    method GenerateCatalogueUrls(domains: seq<string>, paths: seq<string>) returns (outcome: Outcome)
      requires Valid() && AllHttp(domains) && AllSlugPaths(paths)
      requires forall d | 0 <= d < |domains| :: domains[d] in Bases()
      requires forall b | b in Bases() :: b in domains
      modifies this`visited
      ensures old(visited) <= visited
      ensures forall u | u in visited - old(visited) :: Generable(u, paths)
      ensures |old(visited)| >= MaxUrls ==> visited == old(visited)
      ensures |old(visited)| < MaxUrls ==> |visited| <= MaxUrls
      ensures outcome.Fail? ==> |paths| > 0 && exists b | b in Bases() :: UrlParse(b).Err?
      ensures outcome.Pass? && |visited| < MaxUrls ==> forall u | Generable(u, paths) :: u in visited
    {
      if |visited| >= MaxUrls {
        return Pass;
      }
      var ok := ValidIn(allowedSubdomains);
      outcome := GenerateForDomains(domains, paths, ok);
      forall u
        ensures u in DomainsAdmissible(domains, paths, ok) <==> Generable(u, paths)
      {
        DomainsAdmissibleFrom(domains, Bases(), paths, ok, u);
      }
    }

    /**
     * The deep link loop for a high-priority page (`deeper_links[:20]`):
     * each link not yet visited and valid is added while `visited` is below
     * the cap.
     */
    method AddDeeper(links: seq<string>)
      modifies this`visited
      ensures LinksAdded(old(visited), visited, links, |links|, allowedSubdomains)
    {
      var k := 0;
      while k < |links|
        invariant 0 <= k <= |links|
        invariant LinksAdded(old(visited), visited, links, k, allowedSubdomains)
      {
        var link := links[k];
        ghost var before := visited;
        if link !in visited && IsValidUrl(link, allowedSubdomains) && |visited| < MaxUrls {
          visited := visited + {link};
        }
        LinksAddedStep(old(visited), before, visited, links, k, allowedSubdomains);
        k := k + 1;
      }
    }

    /**
     * The link loop of `_deep_content_crawl` for one fetched page, in an
     * order the model does not fix: it stops at the cap; a new valid link is
     * added, and a high-priority one is fetched and up to twenty of the links
     * on it are offered to `AddDeeper`.  A failed quick fetch is skipped.
     */
    method FollowLinks(links: set<string>, quick: Fetcher, resolve: Resolver)
      modifies this`visited
      ensures GrewWithin(old(visited), visited, allowedSubdomains)
      ensures |visited| < MaxUrls ==>
        forall l | l in links && IsValidUrl(l, allowedSubdomains) :: l in visited
    {
      var rest := links;
      while rest != {}
        invariant rest <= links
        invariant Followed(old(visited), visited, links, rest, allowedSubdomains)
        decreases rest
      {
        if |visited| >= MaxUrls {
          break;
        }
        var link :| link in rest;
        ghost var before := visited;
        var isNew := link !in visited && IsValidUrl(link, allowedSubdomains);
        if isNew {
          visited := visited + {link};
        }
        ghost var between := visited;
        if isNew && IsHighPriority(Lower(link)) {
          var o := quick(link);
          if o.Response? && o.status == 200 {
            var deeper := ExtractLinks(o.page, link, domain, allowedSubdomains, resolve);
            var some := TakeSome(deeper, 20);
            AddDeeper(some);
          }
        }
        FollowedStep(old(visited), before, between, visited, links, rest, link, allowedSubdomains);
        rest := rest - {link};
      }
    }

    /**
     * The batch loop of `_deep_content_crawl`: the URLs of `batch` are
     * fetched in turn until `visited` reaches the cap; each records the value
     * its outcome determines, and the links of a page answered with 200 are
     * followed.  `processed` is the number of URLs handled.
     */
    method CrawlBatch(batch: seq<string>, fetch: Fetcher, quick: Fetcher, resolve: Resolver)
      returns (processed: nat)
      modifies this`visited, this`urlData
      ensures processed <= |batch|
      ensures processed < |batch| ==> |visited| >= MaxUrls
      ensures GrewWithin(old(visited), visited, allowedSubdomains)
      ensures Recorded(old(urlData), urlData, batch, processed, BatchRecorder(fetch, domain))
    {
      processed := 0;
      while processed < |batch|
        invariant processed <= |batch|
        invariant GrewWithin(old(visited), visited, allowedSubdomains)
        invariant Recorded(old(urlData), urlData, batch, processed, BatchRecorder(fetch, domain))
      {
        if |visited| >= MaxUrls {
          break;
        }
        var url := batch[processed];
        var o := fetch(url);
        ghost var before := urlData;
        urlData := urlData[url := BatchRecord(o, url, domain)];
        RecordedStep(old(urlData), before, urlData, batch, processed, BatchRecorder(fetch, domain));
        if o.Response? && o.status == 200 {
          var links := ExtractLinks(o.page, url, domain, allowedSubdomains, resolve);
          ghost var v1 := visited;
          FollowLinks(links, quick, resolve);
          GrewTrans(old(visited), v1, visited, allowedSubdomains);
        }
        processed := processed + 1;
      }
    }

    /**
     * The quick finalisation of `_deep_content_crawl`: up to 500 visited
     * URLs without a recorded value are refetched, in an order the model
     * does not fix; each records the value its outcome determines and counts
     * as crawled.
     */
    method FinalizeRemaining(refetch: Fetcher) returns (todo: seq<string>)
      modifies this`urlData, this`crawledUrls
      ensures NoDuplicates(todo)
      ensures |todo| == if |visited - old(urlData).Keys| < 500 then |visited - old(urlData).Keys| else 500
      ensures forall k | 0 <= k < |todo| :: todo[k] in visited && todo[k] !in old(urlData)
      ensures Recorded(old(urlData), urlData, todo, |todo|, FinalRecorder(refetch, domain))
      ensures crawledUrls == old(crawledUrls) + |todo|
    {
      todo := TakeSome(visited - urlData.Keys, 500);
      var record := FinalRecorder(refetch, domain);
      var i := 0;
      while i < |todo|
        invariant i <= |todo|
        invariant Recorded(old(urlData), urlData, todo, i, record)
        invariant crawledUrls == old(crawledUrls) + i
      {
        var url := todo[i];
        ghost var before := urlData;
        urlData := urlData[url := record(url)];
        RecordedStep(old(urlData), before, urlData, todo, i, record);
        crawledUrls := crawledUrls + 1;
        i := i + 1;
      }
    }

    /**
     * The last loop of `_deep_content_crawl`: every visited URL still
     * without a value records its readable title, or "Sayfa".
     */
    method FillLeftovers()
      modifies this`urlData
      ensures Filled(old(urlData), urlData, visited, {})
    {
      var rest := visited;
      while rest != {}
        invariant rest <= visited
        invariant Filled(old(urlData), urlData, visited, rest)
        decreases rest
      {
        var url :| url in rest;
        ghost var before := urlData;
        if url !in urlData {
          urlData := urlData[url := LeftoverRecord(url)];
        }
        FilledStep(old(urlData), before, urlData, visited, rest, url);
        rest := rest - {url};
      }
    }

    /** The first phase of `_deep_content_crawl`: up to 300 visited URLs are crawled. */
    method CrawlPhase(fetch: Fetcher, quick: Fetcher, resolve: Resolver)
      returns (batch: seq<string>, processed: nat)
      modifies this`visited, this`urlData
      ensures |batch| == if |old(visited)| < 300 then |old(visited)| else 300
      ensures NoDuplicates(batch) && forall k | 0 <= k < |batch| :: batch[k] in old(visited)
      ensures processed <= |batch| && (processed < |batch| ==> |visited| >= MaxUrls)
      ensures GrewWithin(old(visited), visited, allowedSubdomains)
      ensures Recorded(old(urlData), urlData, batch, processed, BatchRecorder(fetch, domain))
    {
      batch := TakeSome(visited, 300);
      processed := CrawlBatch(batch, fetch, quick, resolve);
    }

    /**
     * The second and third phases of `_deep_content_crawl`: URLs still
     * without a value are refetched (`todo`), giving `mid`, then every
     * visited URL still without a value gets its leftover value.
     */
    method RecordPhase(refetch: Fetcher) returns (todo: seq<string>, ghost mid: map<string, string>)
      modifies this`urlData, this`crawledUrls
      ensures forall k | 0 <= k < |todo| :: todo[k] in visited && todo[k] !in old(urlData)
      ensures Recorded(old(urlData), mid, todo, |todo|, FinalRecorder(refetch, domain))
      ensures Filled(mid, urlData, visited, {})
      ensures crawledUrls == old(crawledUrls) + |todo|
    {
      todo := FinalizeRemaining(refetch);
      mid := urlData;
      FillLeftovers();
    }

    /**
     * `_deep_content_crawl`: up to 300 visited URLs are crawled (`batch`,
     * of which the first `processed` were handled before the cap stopped
     * the loop), then up to 500 URLs still without a value are refetched
     * (`todo`), then every visited URL still without a value gets its
     * leftover value.
     */
    method DeepContentCrawl(fetch: Fetcher, quick: Fetcher, refetch: Fetcher, resolve: Resolver)
      returns (batch: seq<string>, processed: nat, todo: seq<string>)
      modifies this`visited, this`urlData, this`crawledUrls
      ensures |batch| == if |old(visited)| < 300 then |old(visited)| else 300
      ensures NoDuplicates(batch) && forall k | 0 <= k < |batch| :: batch[k] in old(visited)
      ensures processed <= |batch| && (processed < |batch| ==> |visited| >= MaxUrls)
      ensures GrewWithin(old(visited), visited, allowedSubdomains)
      ensures DeepCrawlRecorded(old(urlData), urlData, visited, batch, processed, todo, fetch, refetch, domain)
      ensures crawledUrls == old(crawledUrls) + |todo|
      ensures old(urlData).Keys <= old(visited) ==> urlData.Keys == visited
    {
      ghost var d0 := urlData;
      batch, processed := CrawlPhase(fetch, quick, resolve);
      ghost var d1 := urlData;
      ghost var mid;
      todo, mid := RecordPhase(refetch);
      DeepCrawlRecords(d0, d1, mid, urlData, visited, batch, processed, todo, fetch, refetch, domain);
    }
  }
}
