/**
 * The parts of Python's `urllib.parse` that the crawlers call: `urlparse`
 * (through `urlsplit`), `geturl`/`urlunparse`, and `urljoin` for an http(s)
 * base and a catalogue path.  Behaviour follows Python 3.12: leading C0
 * control characters and spaces are stripped, tab/CR/LF are removed, and an
 * authority with an unmatched bracket raises `ValueError`.
 */
module Urls {
  import opened Text
  import opened Wrappers

  /** A `ParseResult`: scheme, netloc, path, params, query, fragment. */
  datatype Parts = Parts(scheme: string, netloc: string, path: string,
                         params: string, query: string, fragment: string)

  /** `_WHATWG_C0_CONTROL_OR_SPACE` */
  predicate IsC0OrSpace(c: char) { c <= ' ' }

  /** `_UNSAFE_URL_BYTES_TO_REMOVE` */
  predicate IsUnsafe(c: char) { c == '\t' || c == '\r' || c == '\n' }

  /** `scheme_chars` */
  predicate IsSchemeChar(c: char) {
    IsAsciiLetter(c) || IsAsciiDigit(c) || c == '+' || c == '-' || c == '.'
  }

  predicate AllSchemeChars(s: string) {
    forall i | 0 <= i < |s| :: IsSchemeChar(s[i])
  }

  /** The characters that end an authority: '/', '?' and '#'. */
  predicate IsNetlocDelim(c: char) { c == '/' || c == '?' || c == '#' }

  /** `url.lstrip(_WHATWG_C0_CONTROL_OR_SPACE)` */
  function LStripC0(s: string): string {
    s[C0End(s, 0)..]
  }

  /** Index of the first character at or after `from` that is not a control or space, or `|s|`. */
  function C0End(s: string, from: nat): (n: nat)
    requires from <= |s|
    ensures from <= n <= |s|
    ensures forall k | from <= k < n :: IsC0OrSpace(s[k])
    ensures n < |s| ==> !IsC0OrSpace(s[n])
    decreases |s| - from
  {
    if from < |s| && IsC0OrSpace(s[from]) then C0End(s, from + 1) else from
  }

  /** Removal of every tab, CR and LF. */
  function RemoveUnsafe(s: string): string {
    KeepSafe(s, 0)
  }

  /** The characters of `s` from `from` on, without tab, CR and LF. */
  function KeepSafe(s: string, from: nat): string
    requires from <= |s|
    decreases |s| - from
  {
    if from == |s| then []
    else (if IsUnsafe(s[from]) then [] else [s[from]]) + KeepSafe(s, from + 1)
  }

  /** The scheme step of `urlsplit`: `(scheme, rest)`. */
  function SplitScheme(s: string): (string, string)
  {
    var i := IndexOf(s, ':');
    if i > 0 && IsAsciiLetter(s[0]) && AllSchemeChars(s[..i])
    then (Lower(s[..i]), s[i + 1..])
    else ("", s)
  }

  /** Index of the first authority delimiter, or `|s|` (`_splitnetloc`). */
  function NetlocEnd(s: string): (n: nat)
    ensures n <= |s|
    ensures forall k | 0 <= k < n :: !IsNetlocDelim(s[k])
    ensures n < |s| ==> IsNetlocDelim(s[n])
  {
    DelimFrom(s, 0)
  }

  /** Index of the first authority delimiter at or after `from`, or `|s|`. */
  function DelimFrom(s: string, from: nat): (n: nat)
    requires from <= |s|
    ensures from <= n <= |s|
    ensures forall k | from <= k < n :: !IsNetlocDelim(s[k])
    ensures n < |s| ==> IsNetlocDelim(s[n])
    decreases |s| - from
  {
    if from == |s| || IsNetlocDelim(s[from]) then from else DelimFrom(s, from + 1)
  }

  /** The authority step of `urlsplit`: `(netloc, rest)`. */
  function SplitNetloc(s: string): (string, string)
  {
    if StartsWith(s, "//") then
      var t := s[2..];
      var n := NetlocEnd(t);
      (t[..n], t[n..])
    else ("", s)
  }

  /** `('[' in netloc) != (']' in netloc)`: the `Invalid IPv6 URL` error. */
  predicate Unbalanced(netloc: string) {
    ('[' in netloc) != (']' in netloc)
  }

  /** `s.split(c, 1)` when `c in s`, and `(s, "")` otherwise. */
  function SplitAt(s: string, c: char): (r: (string, string))
    ensures NoChar(r.0, c)
    ensures |r.0| <= |s| && r.0 == s[..|r.0|]
    ensures |r.1| <= |s| && r.1 == s[|s| - |r.1|..]
  {
    var i := IndexOf(s, c);
    if i < 0 then (s, "") else (s[..i], s[i + 1..])
  }

  /** `uses_params` */
  predicate UsesParams(scheme: string) {
    scheme in {"", "ftp", "hdl", "prospero", "http", "imap", "https", "shttp",
               "rtsp", "rtsps", "rtspu", "sip", "sips", "mms", "sftp", "tel"}
  }

  /** `uses_netloc` */
  predicate UsesNetloc(scheme: string) {
    scheme in {"", "ftp", "http", "gopher", "nntp", "telnet", "imap", "wais", "file",
               "mms", "https", "shttp", "snews", "prospero", "rtsp", "rtsps", "rtspu",
               "rsync", "svn", "svn+ssh", "sftp", "nfs", "git", "git+ssh", "ws", "wss",
               "itms-services"}
  }

  /** `_splitparams`: parameters start at the first ';' of the last segment. */
  function SplitParams(path: string): (r: (string, string))
    ensures |r.0| <= |path| && r.0 == path[..|r.0|]
  {
    var slash := LastIndexOf(path, '/');
    var i := if slash >= 0 then
               (var j := IndexOf(path[slash..], ';'); if j < 0 then -1 else slash + j)
             else IndexOf(path, ';');
    if i < 0 then (path, "") else (path[..i], path[i + 1..])
  }

  /** `urlparse(url)`; `Err` is the `ValueError` raised for an unmatched bracket. */
  function UrlParse(url: string): Result<Parts>
  {
    ParseClean(RemoveUnsafe(LStripC0(url)))
  }

  /** `urlparse` of a string already stripped and without tab, CR or LF. */
  function ParseClean(s: string): Result<Parts>
  {
    var (scheme, rest) := SplitScheme(s);
    ParseAfterScheme(scheme, rest)
  }

  /** `urlparse` from the authority on, once the scheme has been split off. */
  function ParseAfterScheme(scheme: string, rest: string): Result<Parts>
  {
    var (netloc, rest2) := SplitNetloc(rest);
    if Unbalanced(netloc) then Err("Invalid IPv6 URL")
    else Ok(ParseTail(scheme, netloc, rest2))
  }

  /** `urlparse` of what follows the authority: path, params, query, fragment. */
  function ParseTail(scheme: string, netloc: string, rest2: string): Parts
  {
    var (rest3, fragment) := SplitAt(rest2, '#');
    var (path0, query) := SplitAt(rest3, '?');
    var (path, params) :=
      if UsesParams(scheme) && ';' in path0 then SplitParams(path0) else (path0, "");
    Parts(scheme, netloc, path, params, query, fragment)
  }

  /** `urlunsplit` */
  function UrlUnsplit(scheme: string, netloc: string, url: string, query: string,
                      fragment: string): string
  {
    var u1 :=
      if netloc != "" then "//" + netloc + (if url != "" && url[0] != '/' then "/" + url else url)
      else if StartsWith(url, "//") then "//" + url
      else if scheme != "" && UsesNetloc(scheme) && (url == "" || url[0] == '/') then "//" + url
      else url;
    var u2 := if scheme != "" then scheme + ":" + u1 else u1;
    var u3 := if query != "" then u2 + "?" + query else u2;
    if fragment != "" then u3 + "#" + fragment else u3
  }

  /** `ParseResult.geturl()`, i.e. `urlunparse` of the parts. */
  function GetUrl(p: Parts): string
  {
    UrlUnsplit(p.scheme, p.netloc, if p.params != "" then p.path + ";" + p.params else p.path,
               p.query, p.fragment)
  }

  predicate IsSlugChar(c: char) {
    IsAsciiLower(c) || IsAsciiDigit(c) || c == '-' || c == '/'
  }

  /** No empty segment inside: `urljoin` would drop one. */
  predicate NoDoubleSlash(p: string) {
    forall i | 1 <= i < |p| :: p[i] == '/' ==> p[i - 1] != '/'
  }

  /**
   * A catalogue path such as "/category/hr/": absolute, no empty segment,
   * no query, fragment, parameters or dot segments.
   */
  predicate IsSlugPath(p: string) {
    |p| >= 1 && p[0] == '/' && NoDoubleSlash(p) &&
    forall i | 0 <= i < |p| :: IsSlugChar(p[i])
  }

  predicate HasHttpPrefix(s: string) {
    StartsWith(s, "http://") || StartsWith(s, "https://")
  }

  /**
   * `urljoin(base, path)` for an http(s) base and a catalogue path: the
   * base's scheme and authority followed by the path; `Err` when parsing the
   * base raises.
   */
  function JoinPath(base: string, path: string): (r: Result<string>)
    requires HasHttpPrefix(base) && IsSlugPath(path)
    ensures r.Ok? <==> UrlParse(base).Ok?
  {
    match UrlParse(base)
    case Err(e) => Err(e)
    case Ok(b) => Ok(b.scheme + "://" + b.netloc + path)
  }
}
