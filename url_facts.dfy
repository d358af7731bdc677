/**
 * Facts about `Urls.UrlParse`: appending a query string to a URL that has
 * none leaves its scheme, authority, path and parameters as they were.
 */
module UrlFacts {
  import opened Text
  import opened Wrappers
  import opened Urls

  lemma LStripC0Suffix(s: string)
    ensures |LStripC0(s)| <= |s| && LStripC0(s) == s[|s| - |LStripC0(s)|..]
  {
    var n := C0End(s, 0);
    assert |s| - |s[n..]| == n;
  }

  /** Stripping stops at the first character that is not a control or space. */
  lemma LStripC0Append(a: string, b: string)
    requires |b| > 0 && !IsC0OrSpace(b[0])
    ensures LStripC0(a + b) == LStripC0(a) + b
  {
    var w := a + b;
    var n := C0End(a, 0);
    var m := C0End(w, 0);
    assert m < |a| ==> w[m] == a[m];
    assert n < |w| ==> w[n] == if n < |a| then a[n] else b[0];
    assert w[n..] == a[n..] + b;
  }

  /** Filtering `a + b` from inside `b` is filtering `b`. */
  lemma {:induction false} KeepSafeTail(a: string, b: string, j: nat)
    requires j <= |b|
    ensures KeepSafe(a + b, |a| + j) == KeepSafe(b, j)
    decreases |b| - j
  {
    if j < |b| {
      var w := a + b;
      assert w[|a| + j] == b[j];
      KeepSafeTail(a, b, j + 1);
      assert KeepSafe(w, |a| + j + 1) == KeepSafe(b, j + 1);
    }
  }

  /** Filtering `a + b` from inside `a` is filtering the rest of `a`, then `b`. */
  lemma {:induction false} KeepSafeAppend(a: string, b: string, i: nat)
    requires i <= |a|
    ensures KeepSafe(a + b, i) == KeepSafe(a, i) + KeepSafe(b, 0)
    decreases |a| - i
  {
    if i == |a| {
      KeepSafeTail(a, b, 0);
    } else {
      var w := a + b;
      assert w[i] == a[i];
      var head: string := if IsUnsafe(a[i]) then [] else [a[i]];
      KeepSafeAppend(a, b, i + 1);
      assert KeepSafe(w, i) == head + KeepSafe(w, i + 1);
      ConcatAssoc(head, KeepSafe(a, i + 1), KeepSafe(b, 0));
    }
  }

  /** Removing tab, CR and LF distributes over concatenation. */
  lemma RemoveUnsafeAppend(a: string, b: string)
    ensures RemoveUnsafe(a + b) == RemoveUnsafe(a) + RemoveUnsafe(b)
  {
    KeepSafeAppend(a, b, 0);
  }

  /** Filtering keeps only characters of `s`, so a character absent from `s` stays absent. */
  lemma {:induction false} KeepSafeNoChar(s: string, c: char, i: nat)
    requires i <= |s| && forall k | i <= k < |s| :: s[k] != c
    ensures NoChar(KeepSafe(s, i), c)
    decreases |s| - i
  {
    if i < |s| {
      KeepSafeNoChar(s, c, i + 1);
      var head: string := if IsUnsafe(s[i]) then [] else [s[i]];
      var rest := KeepSafe(s, i + 1);
      forall k | 0 <= k < |head + rest|
        ensures (head + rest)[k] != c
      {
        if k >= |head| {
          assert (head + rest)[k] == rest[k - |head|];
        }
      }
    }
  }

  lemma RemoveUnsafeNoChar(s: string, c: char)
    requires NoChar(s, c)
    ensures NoChar(RemoveUnsafe(s), c)
  {
    KeepSafeNoChar(s, c, 0);
  }

  /** A query mark cannot be part of a scheme. */
  lemma SplitSchemeAppend(s: string, q: string)
    requires NoChar(s, '?')
    ensures SplitScheme(s + "?" + q) == (SplitScheme(s).0, SplitScheme(s).1 + "?" + q)
  {
    IndexOfAppend(s, "?" + q, ':');
    assert s + "?" + q == s + ("?" + q);
    if IndexOf(s, ':') >= 0 {
      SchemeFoundAppend(s, q);
    } else {
      SchemeMissingAppend(s, q);
    }
  }

  lemma SchemeFoundAppend(s: string, q: string)
    requires IndexOf(s, ':') >= 0 && IndexOf(s + "?" + q, ':') == IndexOf(s, ':')
    ensures SplitScheme(s + "?" + q) == (SplitScheme(s).0, SplitScheme(s).1 + "?" + q)
  {
    var w := s + "?" + q;
    var i := IndexOf(s, ':');
    assert w[..i] == s[..i];
    assert w[i + 1..] == s[i + 1..] + "?" + q;
    if i > 0 {
      assert w[0] == s[0];
    }
  }

  lemma SchemeMissingAppend(s: string, q: string)
    requires IndexOf(s, ':') < 0
    requires IndexOf(s + "?" + q, ':') < 0 || IndexOf(s + "?" + q, ':') > |s|
    ensures SplitScheme(s + "?" + q) == ("", s + "?" + q)
    ensures SplitScheme(s) == ("", s)
  {
    var w := s + "?" + q;
    var i' := IndexOf(w, ':');
    if i' >= 0 {
      assert w[..i'][|s|] == '?';
      assert !IsSchemeChar(w[..i'][|s|]);
    }
  }

  /** The authority ends at the first delimiter, wherever it lies. */
  lemma NetlocEndAppend(a: string, b: string)
    ensures NetlocEnd(a + b) ==
            if NetlocEnd(a) < |a| then NetlocEnd(a) else |a| + NetlocEnd(b)
  {
    var w := a + b;
    var n := if NetlocEnd(a) < |a| then NetlocEnd(a) else |a| + NetlocEnd(b);
    var m := NetlocEnd(w);
    assert m < |w| ==> w[m] == if m < |a| then a[m] else b[m - |a|];
    assert n < |w| ==> w[n] == if n < |a| then a[n] else b[n - |a|];
  }

  lemma SplitNetlocAppend(r: string, q: string)
    ensures SplitNetloc(r + "?" + q) == (SplitNetloc(r).0, SplitNetloc(r).1 + "?" + q)
  {
    var w := r + "?" + q;
    if |r| >= 2 {
      assert w[..2] == r[..2];
      if StartsWith(r, "//") {
        var t := r[2..];
        assert w[2..] == t + ("?" + q);
        NetlocEndAppend(t, "?" + q);
        var n := NetlocEnd(t);
        assert w[2..][..n] == t[..n];
        assert w[2..][n..] == t[n..] + "?" + q;
      }
    } else {
      assert w[|r|] == '?';
      assert !StartsWith(w, "//");
    }
  }

  /** Splitting off the fragment and query of `r + "?" + q` leaves `r` as path. */
  lemma PathBeforeQuery(r: string, q: string)
    requires NoChar(r, '?') && NoChar(r, '#')
    ensures SplitAt(SplitAt(r + "?" + q, '#').0, '?').0 == r
    ensures SplitAt(r, '#') == (r, "") && SplitAt(r, '?') == (r, "")
  {
    HashCut(r, q);
    var r3 := SplitAt(r + "?" + q, '#').0;
    QueryCut(r, r3[|r| + 1..]);
  }

  /** Cutting `r?q` at '#' keeps `r?` in front. */
  lemma HashCut(r: string, q: string)
    requires NoChar(r, '?') && NoChar(r, '#')
    ensures var r3 := SplitAt(r + "?" + q, '#').0;
            |r3| > |r| && r3 == (r + "?") + r3[|r| + 1..]
  {
    var w := r + "?" + q;
    assert w == r + ("?" + q);
    IndexOfAppend(r, "?" + q, '#');
    var r3 := SplitAt(w, '#').0;
    assert |r3| > |r| && r3[..|r| + 1] == r + "?";
  }

  /** Cutting `r?t` at '?' leaves `r` when `r` has no '?'. */
  lemma QueryCut(r: string, t: string)
    requires NoChar(r, '?')
    ensures SplitAt((r + "?") + t, '?').0 == r
  {
    IndexOfAppend(r + "?", t, '?');
    IndexOfAppend(r, "?", '?');
    assert ((r + "?") + t)[..|r|] == r;
  }

  /** The parts of `urlparse(u)` other than query and fragment. */
  function Resource(p: Parts): (string, string, string, string) {
    (p.scheme, p.netloc, p.path, p.params)
  }

  lemma TailAppend(scheme: string, netloc: string, r: string, q: string)
    requires NoChar(r, '?') && NoChar(r, '#')
    ensures Resource(ParseTail(scheme, netloc, r + "?" + q)) ==
            Resource(ParseTail(scheme, netloc, r))
  {
    PathBeforeQuery(r, q);
  }

  lemma AfterSchemeAppend(scheme: string, rest: string, q: string)
    requires NoChar(rest, '?') && NoChar(rest, '#')
    ensures ParseAfterScheme(scheme, rest + "?" + q).Ok? == ParseAfterScheme(scheme, rest).Ok?
    ensures ParseAfterScheme(scheme, rest).Ok? ==>
            Resource(ParseAfterScheme(scheme, rest + "?" + q).value) ==
            Resource(ParseAfterScheme(scheme, rest).value)
  {
    SplitNetlocAppend(rest, q);
    var (netloc, rest2) := SplitNetloc(rest);
    if rest2 != rest {
      var t := rest[2..];
      NoCharSuffix(rest, 2, '?');
      NoCharSuffix(rest, 2, '#');
      NoCharSuffix(t, NetlocEnd(t), '?');
      NoCharSuffix(t, NetlocEnd(t), '#');
    }
    TailAppend(scheme, netloc, rest2, q);
  }

  lemma CleanAppend(s: string, q: string)
    requires NoChar(s, '?') && NoChar(s, '#')
    ensures ParseClean(s + "?" + q).Ok? == ParseClean(s).Ok?
    ensures ParseClean(s).Ok? ==>
            Resource(ParseClean(s + "?" + q).value) == Resource(ParseClean(s).value)
  {
    SplitSchemeAppend(s, q);
    var (scheme, rest) := SplitScheme(s);
    if rest != s {
      NoCharSuffix(s, IndexOf(s, ':') + 1, '?');
      NoCharSuffix(s, IndexOf(s, ':') + 1, '#');
    }
    AfterSchemeAppend(scheme, rest, q);
  }

  /**
   * Appending "?q" to a URL without '?' or '#' changes neither whether it
   * parses nor its scheme, authority, path and parameters.
   */
  lemma ParseAppendQuery(u: string, q: string)
    requires NoChar(u, '?') && NoChar(u, '#')
    ensures UrlParse(u + "?" + q).Ok? == UrlParse(u).Ok?
    ensures UrlParse(u).Ok? ==>
            Resource(UrlParse(u + "?" + q).value) == Resource(UrlParse(u).value)
  {
    // The cleaned string is the cleaned `u` followed by "?" and the cleaned `q`.
    assert u + "?" + q == u + ("?" + q);
    LStripC0Append(u, "?" + q);
    var l := LStripC0(u);
    RemoveUnsafeAppend(l, "?" + q);
    RemoveUnsafeAppend("?", q);
    assert RemoveUnsafe("?") == "?";
    var s := RemoveUnsafe(l);
    assert RemoveUnsafe(LStripC0(u + "?" + q)) == s + "?" + RemoveUnsafe(q);
    // Neither has the cleaned `u`.
    LStripC0Suffix(u);
    NoCharSuffix(u, |u| - |l|, '?');
    NoCharSuffix(u, |u| - |l|, '#');
    RemoveUnsafeNoChar(l, '?');
    RemoveUnsafeNoChar(l, '#');
    CleanAppend(s, RemoveUnsafe(q));
  }
}
