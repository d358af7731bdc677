/**
 * The clean URL that link extraction builds from a parsed link parses back
 * to the same scheme, authority, path and query, with no parameters and no
 * fragment.
 */
module CleanUrlFacts {
  import opened Text
  import opened Wrappers
  import opened Urls
  import opened UrlFacts
  import opened EnhancedPolicy

  predicate NoUnsafe(s: string) {
    forall k | 0 <= k < |s| :: !IsUnsafe(s[k])
  }

  predicate NoDelim(s: string) {
    forall k | 0 <= k < |s| :: !IsNetlocDelim(s[k])
  }

  /** No ';' after the last '/': `_splitparams` finds no parameters. */
  predicate NoTrailingParams(path: string) {
    forall k | LastIndexOf(path, '/') < k < |path| :: path[k] != ';'
  }

  /** What a successful `urlparse` with a scheme and an authority guarantees. */
  predicate Reparsable(p: Parts) {
    |p.scheme| > 0 && IsAsciiLetter(p.scheme[0]) && AllSchemeChars(p.scheme) &&
    Lower(p.scheme) == p.scheme &&
    NoDelim(p.netloc) && !Unbalanced(p.netloc) && NoUnsafe(p.netloc) &&
    (p.path == "" || p.path[0] == '/') &&
    NoChar(p.path, '?') && NoChar(p.path, '#') && NoUnsafe(p.path) &&
    (UsesParams(p.scheme) ==> NoTrailingParams(p.path)) &&
    NoChar(p.query, '#') && NoUnsafe(p.query)
  }

  lemma NoUnsafeSlice(s: string, i: nat, j: nat)
    requires NoUnsafe(s) && i <= j <= |s|
    ensures NoUnsafe(s[i..j])
  {
    forall k | 0 <= k < j - i
      ensures !IsUnsafe(s[i..j][k])
    {
      assert s[i..j][k] == s[i + k];
    }
  }

  lemma NoUnsafeAppend(a: string, b: string)
    requires NoUnsafe(a) && NoUnsafe(b)
    ensures NoUnsafe(a + b)
  {
    forall k | 0 <= k < |a + b|
      ensures !IsUnsafe((a + b)[k])
    {
      if k >= |a| {
        assert (a + b)[k] == b[k - |a|];
      }
    }
  }

  lemma {:induction false} KeepSafeClean(s: string, i: nat)
    requires i <= |s|
    ensures NoUnsafe(KeepSafe(s, i))
    decreases |s| - i
  {
    if i < |s| {
      KeepSafeClean(s, i + 1);
      NoUnsafeAppend(if IsUnsafe(s[i]) then [] else [s[i]], KeepSafe(s, i + 1));
    }
  }

  lemma RemoveUnsafeClean(s: string)
    ensures NoUnsafe(RemoveUnsafe(s))
  {
    KeepSafeClean(s, 0);
  }

  lemma {:induction false} KeepSafeIdentity(s: string, i: nat)
    requires NoUnsafe(s) && i <= |s|
    ensures KeepSafe(s, i) == s[i..]
    decreases |s| - i
  {
    if i < |s| {
      KeepSafeIdentity(s, i + 1);
      assert s[i..] == [s[i]] + s[i + 1..];
    }
  }

  lemma RemoveUnsafeIdentity(s: string)
    requires NoUnsafe(s)
    ensures RemoveUnsafe(s) == s
  {
    KeepSafeIdentity(s, 0);
    assert s[0..] == s;
  }

  /** A scheme that `urlsplit` recognised has the shape of a lower-case scheme. */
  lemma SchemeFacts(s: string)
    requires NoUnsafe(s) && SplitScheme(s).0 != ""
    ensures var (scheme, rest) := SplitScheme(s);
            IsAsciiLetter(scheme[0]) && AllSchemeChars(scheme) && Lower(scheme) == scheme &&
            |rest| <= |s| && rest == s[|s| - |rest|..]
  {
    var i := IndexOf(s, ':');
    var scheme := Lower(s[..i]);
    assert scheme[0] == LowerChar(s[0]);
    assert forall k | 0 <= k < |scheme| :: scheme[k] == LowerChar(s[..i][k]);
    assert Lower(scheme) == scheme;
  }

  /** After the authority comes nothing, or a '/', '?' or '#'. */
  lemma AuthorityFacts(rest: string)
    requires NoUnsafe(rest) && SplitNetloc(rest).0 != ""
    ensures var (netloc, rest2) := SplitNetloc(rest);
            NoDelim(netloc) && NoUnsafe(netloc) && NoUnsafe(rest2) &&
            (rest2 == "" || IsNetlocDelim(rest2[0]))
  {
    var t := rest[2..];
    var n := NetlocEnd(t);
    NoUnsafeSlice(rest, 2, |rest|);
    assert rest[2..|rest|] == t;
    NoUnsafeSlice(t, 0, n);
    NoUnsafeSlice(t, n, |t|);
    assert t[0..n] == t[..n] && t[n..|t|] == t[n..];
  }

  /** The path that `_splitparams` leaves has no ';' after its last '/'. */
  lemma ParamsFacts(path0: string)
    requires ';' in path0
    ensures NoTrailingParams(SplitParams(path0).0)
  {
    var slash := LastIndexOf(path0, '/');
    var path := SplitParams(path0).0;
    if slash >= 0 {
      var j := IndexOf(path0[slash..], ';');
      assert forall k | slash < k < |path0| :: path0[k] == path0[slash..][k - slash];
      if j >= 0 {
        assert path[slash] == '/';
        assert forall k | slash < k < |path| :: path[k] == path0[k];
      }
    } else {
      assert forall k | 0 <= k < |path| :: path[k] == path0[k];
    }
  }

  /** What follows the authority splits into a path, query and fragment of the right shape. */
  lemma TailFacts(scheme: string, netloc: string, rest2: string)
    requires NoUnsafe(rest2) && (rest2 == "" || IsNetlocDelim(rest2[0]))
    ensures var p := ParseTail(scheme, netloc, rest2);
            (p.path == "" || p.path[0] == '/') &&
            NoChar(p.path, '?') && NoChar(p.path, '#') && NoUnsafe(p.path) &&
            (UsesParams(scheme) ==> NoTrailingParams(p.path)) &&
            NoChar(p.query, '#') && NoUnsafe(p.query)
  {
    QueryFacts(rest2);
    var rest3 := SplitAt(rest2, '#').0;
    var path0 := SplitAt(rest3, '?').0;
    var path := ParseTail(scheme, netloc, rest2).path;
    assert path == path0[..|path|];
    NoUnsafeSlice(path0, 0, |path|);
    assert path0[0..|path|] == path;
    NoCharPrefix(path0, |path|, '?');
    NoCharPrefix(path0, |path|, '#');
    if UsesParams(scheme) && ';' in path0 {
      ParamsFacts(path0);
    } else {
      assert path == path0;
    }
  }

  /** Cutting at '#' and then at '?' leaves a path and a query free of '#' and unsafe characters. */
  lemma QueryFacts(rest2: string)
    requires NoUnsafe(rest2) && (rest2 == "" || IsNetlocDelim(rest2[0]))
    ensures var rest3 := SplitAt(rest2, '#').0;
            var (path0, query) := SplitAt(rest3, '?');
            (rest3 == "" || rest3[0] == rest2[0]) &&
            NoUnsafe(path0) && NoChar(path0, '#') && NoUnsafe(query) && NoChar(query, '#')
  {
    var rest3 := SplitAt(rest2, '#').0;
    NoUnsafeSlice(rest2, 0, |rest3|);
    assert rest2[0..|rest3|] == rest3;
    var (path0, query) := SplitAt(rest3, '?');
    NoUnsafeSlice(rest3, 0, |path0|);
    assert rest3[0..|path0|] == path0;
    NoUnsafeSlice(rest3, |rest3| - |query|, |rest3|);
    assert rest3[|rest3| - |query|..|rest3|] == query;
    NoCharSuffix(rest3, |rest3| - |query|, '#');
    NoCharPrefix(rest3, |path0|, '#');
    assert rest3[..|path0|] == path0;
  }

  /** Every parse with a scheme and an authority satisfies `Reparsable`. */
  lemma ParsedIsReparsable(url: string)
    requires UrlParse(url).Ok?
    requires UrlParse(url).value.scheme != "" && UrlParse(url).value.netloc != ""
    ensures Reparsable(UrlParse(url).value)
  {
    var s := RemoveUnsafe(LStripC0(url));
    SchemeParts(url);
    AfterSchemeReparsable(SplitScheme(s).0, SplitScheme(s).1);
  }

  /** A parse with a scheme is the parse of what follows a well-formed, lower-case scheme. */
  lemma SchemeParts(url: string)
    requires UrlParse(url).Ok? && UrlParse(url).value.scheme != ""
    ensures var (scheme, rest) := SplitScheme(RemoveUnsafe(LStripC0(url)));
            UrlParse(url) == ParseAfterScheme(scheme, rest) && NoUnsafe(rest) &&
            |scheme| > 0 && IsAsciiLetter(scheme[0]) && AllSchemeChars(scheme) && Lower(scheme) == scheme
  {
    var s := RemoveUnsafe(LStripC0(url));
    ParseViaScheme(url);
    RemoveUnsafeClean(LStripC0(url));
    SchemeRest(s);
  }

  lemma ParseViaScheme(url: string)
    ensures var (scheme, rest) := SplitScheme(RemoveUnsafe(LStripC0(url)));
            UrlParse(url) == ParseAfterScheme(scheme, rest)
  {
  }

  lemma SchemeRest(s: string)
    requires NoUnsafe(s) && SplitScheme(s).0 != ""
    ensures var (scheme, rest) := SplitScheme(s);
            NoUnsafe(rest) && |scheme| > 0 && IsAsciiLetter(scheme[0]) && AllSchemeChars(scheme) && Lower(scheme) == scheme
  {
    var rest := SplitScheme(s).1;
    SchemeFacts(s);
    NoUnsafeSlice(s, |s| - |rest|, |s|);
    assert s[|s| - |rest|..|s|] == rest;
  }

  lemma AfterSchemeReparsable(scheme: string, rest: string)
    requires NoUnsafe(rest) && |scheme| > 0 && IsAsciiLetter(scheme[0])
    requires AllSchemeChars(scheme) && Lower(scheme) == scheme
    requires ParseAfterScheme(scheme, rest).Ok? && ParseAfterScheme(scheme, rest).value.netloc != ""
    ensures Reparsable(ParseAfterScheme(scheme, rest).value)
  {
    var (netloc, rest2) := SplitNetloc(rest);
    AuthorityFacts(rest);
    TailFacts(scheme, netloc, rest2);
  }

  /** Nothing to strip: a clean URL starts with a letter and has no tab, CR or LF. */
  lemma CleanIsClean(p: Parts)
    requires Reparsable(p)
    ensures RemoveUnsafe(LStripC0(CleanUrl(p))) == CleanUrl(p)
  {
    var q := if p.query != "" then "?" + p.query else "";
    assert NoUnsafe(p.scheme);
    assert NoUnsafe("://") && NoUnsafe(q);
    NoUnsafeAppend(p.scheme, "://");
    NoUnsafeAppend(p.scheme + "://", p.netloc);
    NoUnsafeAppend(p.scheme + "://" + p.netloc, p.path);
    NoUnsafeAppend(p.scheme + "://" + p.netloc + p.path, q);
    assert CleanUrl(p) == p.scheme + "://" + p.netloc + p.path + q;
    assert CleanUrl(p)[0] == p.scheme[0];
    RemoveUnsafeIdentity(CleanUrl(p));
  }

  lemma CleanScheme(p: Parts, tail: string)
    requires Reparsable(p)
    ensures SplitScheme(p.scheme + ":" + ("//" + p.netloc + tail)) ==
            (p.scheme, "//" + p.netloc + tail)
  {
    var rest := "//" + p.netloc + tail;
    var s := p.scheme + ":" + rest;
    assert s == p.scheme + (":" + rest);
    assert NoChar(p.scheme, ':');
    IndexOfAppend(p.scheme, ":" + rest, ':');
    var i := IndexOf(s, ':');
    assert i == |p.scheme|;
    assert s[..i] == p.scheme;
    assert s[0] == p.scheme[0];
    assert s[i + 1..] == rest;
    assert SplitScheme(s) == (Lower(p.scheme), rest);
  }

  lemma CleanAuthority(p: Parts, tail: string)
    requires Reparsable(p)
    requires tail == "" || tail[0] == '/' || tail[0] == '?'
    ensures SplitNetloc("//" + p.netloc + tail) == (p.netloc, tail)
  {
    var rest := "//" + p.netloc + tail;
    assert rest[2..] == p.netloc + tail;
    NetlocEndAppend(p.netloc, tail);
    assert NetlocEnd(p.netloc) == |p.netloc|;
    assert NetlocEnd(tail) == 0;
    assert (p.netloc + tail)[..|p.netloc|] == p.netloc;
    assert (p.netloc + tail)[|p.netloc|..] == tail;
  }

  lemma TailSplits(path: string, query: string, q: string)
    requires NoChar(path, '?') && NoChar(path, '#') && NoChar(query, '#')
    requires q == (if query != "" then "?" + query else "")
    ensures SplitAt(path + q, '#') == (path + q, "")
    ensures SplitAt(path + q, '?') == (path, query)
  {
    var tail := path + q;
    IndexOfAppend(path, q, '#');
    if query != "" {
      IndexOfAppend(path, q, '?');
      assert tail[..|path|] == path && tail[|path| + 1..] == query;
    } else {
      assert tail == path;
    }
  }

  lemma NoParamsFound(path: string)
    requires NoTrailingParams(path)
    ensures SplitParams(path) == (path, "")
  {
    var slash := LastIndexOf(path, '/');
    if slash >= 0 {
      assert forall k | 0 <= k < |path[slash..]| :: path[slash..][k] == path[slash + k];
    }
  }

  lemma CleanTail(p: Parts, q: string)
    requires Reparsable(p)
    requires q == (if p.query != "" then "?" + p.query else "")
    ensures ParseTail(p.scheme, p.netloc, p.path + q) == p.(params := "", fragment := "")
  {
    TailSplits(p.path, p.query, q);
    if UsesParams(p.scheme) {
      NoParamsFound(p.path);
    }
  }

  lemma CleanUrlShape(p: Parts, q: string)
    requires q == (if p.query != "" then "?" + p.query else "")
    ensures CleanUrl(p) == p.scheme + ":" + ("//" + p.netloc + (p.path + q))
  {
  }

  /**
   * The clean URL built from a parse with a scheme and an authority parses
   * back to the same scheme, authority, path and query, and has neither
   * parameters nor a fragment.
   */
  lemma CleanUrlRoundTrip(url: string)
    requires UrlParse(url).Ok?
    requires UrlParse(url).value.scheme != "" && UrlParse(url).value.netloc != ""
    ensures var p := UrlParse(url).value;
            UrlParse(CleanUrl(p)) == Ok(p.(params := "", fragment := ""))
  {
    var p := UrlParse(url).value;
    ParsedIsReparsable(url);
    var q := if p.query != "" then "?" + p.query else "";
    var tail := p.path + q;
    CleanIsClean(p);
    CleanUrlShape(p, q);
    CleanScheme(p, tail);
    CleanAuthority(p, tail);
    CleanTail(p, q);
  }
}
