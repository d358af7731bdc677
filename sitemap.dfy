/**
 * `SitemapGenerator.generate`: one `<url>` element per crawled URL, in
 * ascending order, under a `urlset` in the namespace of the Sitemap
 * protocol 0.9.  The current date is a parameter, and so is the outcome of
 * writing `sitemap.xml`.
 */
module Sitemap {
  import opened Text
  import opened Ordering

  const SitemapNamespace: string := "http://www.sitemaps.org/schemas/sitemap/0.9"

  /** The children of one `<url>` element, as text. */
  datatype Entry = Entry(loc: string, lastmod: string, changefreq: string, priority: string)

  /** The `urlset` root with its `xmlns` attribute and its `<url>` children in document order. */
  datatype UrlSet = UrlSet(xmlns: string, entries: seq<Entry>)

  /**
   * The `<priority>` text: "1.0" when, with trailing slashes removed, the
   * last `/`-piece is empty or at most two slashes remain; "0.8" otherwise.
   */
  function Priority(url: string): (r: string)
    ensures r == "1.0" || r == "0.8"
  {
    var trimmed := RStripChar(url, '/');
    var pieces := Split(trimmed, '/');
    if pieces[|pieces| - 1] == "" || CountChar(trimmed, '/') <= 2 then "1.0" else "0.8"
  }

  /** The last piece of `s.split(c)` is empty exactly when `s` is empty or ends with `c`. */
  lemma {:induction false} LastPieceEmpty(s: string, c: char)
    ensures var pieces := Split(s, c);
            |pieces[|pieces| - 1]| == 0 <==> |s| == 0 || s[|s| - 1] == c
    decreases |s|
  {
    var i := IndexOf(s, c);
    if i >= 0 {
      var rest := s[i + 1..];
      LastPieceEmpty(rest, c);
      if |rest| > 0 {
        assert rest[|rest| - 1] == s[|s| - 1];
      }
      LastPieceStep(s, c, i);
    } else {
      SplitUnfold(s, c);
      if |s| > 0 {
        assert s[|s| - 1] != c;
      }
    }
  }

  /** One step of `LastPieceEmpty`: past the first `c`, the last piece is the rest's last piece. */
  lemma LastPieceStep(s: string, c: char, i: int)
    requires 0 <= i < |s| && i == IndexOf(s, c)
    requires var tail := Split(s[i + 1..], c);
             |tail[|tail| - 1]| == 0 <==> i + 1 == |s| || s[|s| - 1] == c
    ensures var pieces := Split(s, c);
            |pieces[|pieces| - 1]| == 0 <==> s[|s| - 1] == c
  {
    var tail := Split(s[i + 1..], c);
    var pieces := Split(s, c);
    SplitUnfold(s, c);
    assert |pieces| == 1 + |tail|;
    assert pieces[|pieces| - 1] == tail[|tail| - 1];
  }

  /**
   * The empty-piece test never decides anything: a URL gets "1.0" exactly
   * when at most two slashes remain once trailing slashes are removed.
   */
  lemma PriorityRule(url: string)
    ensures Priority(url) == "1.0" <==> CountChar(RStripChar(url, '/'), '/') <= 2
  {
    LastPieceEmpty(RStripChar(url, '/'), '/');
  }

  /** Appending only copies of `c` does not change what `rstrip(c)` leaves. */
  lemma {:induction false} RStripTrailing(a: string, tail: string, c: char)
    requires forall i | 0 <= i < |tail| :: tail[i] == c
    ensures RStripChar(a + tail, c) == RStripChar(a, c)
    decreases |tail|
  {
    if |tail| == 0 {
      assert a + tail == a;
    } else {
      var shorter := tail[..|tail| - 1];
      assert (a + tail)[..|a + tail| - 1] == a + shorter;
      RStripTrailing(a, shorter, c);
    }
  }

  /** `rstrip(c)` of a concatenation only trims the right part when that part keeps something. */
  lemma {:induction false} RStripKeeps(a: string, b: string, c: char)
    requires RStripChar(b, c) != []
    ensures RStripChar(a + b, c) == a + RStripChar(b, c)
    decreases |b|
  {
    if b[|b| - 1] == c {
      var shorter := b[..|b| - 1];
      assert (a + b)[..|a + b| - 1] == a + shorter;
      RStripKeeps(a, shorter, c);
    }
  }

  /** Removing characters from the end never adds a `c`. */
  lemma CountPrefix(s: string, k: nat, c: char)
    requires k <= |s|
    ensures CountChar(s[..k], c) <= CountChar(s, c)
  {
    CountAppend(s[..k], s[k..], c);
    assert s[..k] + s[k..] == s;
  }

  /** The two slashes of `://` are the only ones between a slash-free scheme and host. */
  lemma OriginSlashes(scheme: string, host: string)
    requires NoChar(scheme, '/') && NoChar(host, '/')
    ensures CountChar(scheme + "://" + host, '/') == 2
  {
    CountAppend(scheme, "://", '/');
    CountAppend(scheme + "://", host, '/');
    CountNone(scheme, '/');
    CountNone(host, '/');
  }

  /** A home page `scheme://host`, with or without trailing slashes, gets priority "1.0". */
  lemma HomePagePriority(scheme: string, host: string, slashes: string)
    requires NoChar(scheme, '/') && NoChar(host, '/')
    requires forall i | 0 <= i < |slashes| :: slashes[i] == '/'
    ensures Priority(scheme + "://" + host + slashes) == "1.0"
  {
    var origin := scheme + "://" + host;
    RStripTrailing(origin, slashes, '/');
    OriginSlashes(scheme, host);
    CountPrefix(origin, |RStripChar(origin, '/')|, '/');
    PriorityRule(origin + slashes);
  }

  /** A URL whose path keeps a character other than `/` gets priority "0.8". */
  lemma DeepPagePriority(scheme: string, host: string, path: string)
    requires NoChar(scheme, '/') && NoChar(host, '/')
    requires RStripChar(path, '/') != []
    ensures Priority(scheme + "://" + host + "/" + path) == "0.8"
  {
    var origin := scheme + "://" + host;
    var kept := RStripChar(path, '/');
    RStripKeeps(origin + "/", path, '/');
    OriginSlashes(scheme, host);
    CountAppend(origin, "/", '/');
    CountAppend(origin + "/", kept, '/');
    PriorityRule(origin + "/" + path);
  }

  /** The `<url>` element written for `url` on the date `today`. */
  function EntryFor(url: string, today: string): Entry {
    Entry(Strip(url), today, "weekly", Priority(url))
  }

  /** What the `<url>` element for `url` says: the stripped URL, the date, `weekly`, and the priority rule. */
  lemma EntryRule(url: string, today: string)
    ensures var e := EntryFor(url, today);
            e.loc == Strip(url) && e.lastmod == today && e.changefreq == "weekly" &&
            (e.priority == "1.0" <==> CountChar(RStripChar(url, '/'), '/') <= 2) &&
            (e.priority == "1.0" || e.priority == "0.8")
  {
    PriorityRule(url);
  }

  /** The `<url>` elements for `urls`, one per URL, in order. */
  function Entries(urls: seq<string>, today: string): (r: seq<Entry>)
    ensures |r| == |urls|
    ensures forall k | 0 <= k < |urls| :: r[k] == EntryFor(urls[k], today)
  {
    if |urls| == 0 then [] else Entries(urls[..|urls| - 1], today) + [EntryFor(urls[|urls| - 1], today)]
  }

  /**
   * `generate`: the sorted URLs each get their `<url>` element, in order.
   * `saved` is whether writing the file succeeded; the result is `True`
   * exactly then.  The ghost `listing` is the order of the elements: every
   * URL once, ascending.
   */
  method Generate(urls: set<string>, today: string, saved: bool)
    returns (doc: UrlSet, success: bool, ghost listing: seq<string>)
    ensures success == saved
    ensures doc.xmlns == SitemapNamespace
    ensures StrictlyAscending(listing) && |listing| == |urls|
    ensures forall x :: x in listing <==> x in urls
    ensures |doc.entries| == |listing|
    ensures forall i | 0 <= i < |listing| :: doc.entries[i] == EntryFor(listing[i], today)
  {
    var sortedUrls := Sorted(urls);
    var entries: seq<Entry> := [];
    for i := 0 to |sortedUrls|
      invariant entries == Entries(sortedUrls[..i], today)
    {
      entries := entries + [EntryFor(sortedUrls[i], today)];
      assert sortedUrls[..i + 1][..i] == sortedUrls[..i];
    }
    assert sortedUrls[..|sortedUrls|] == sortedUrls;
    doc := UrlSet(SitemapNamespace, entries);
    success := saved;
    listing := sortedUrls;
  }
}
