/**
 * String operations of Python's `str` that the crawler relies on, stated on
 * `seq<char>`.  Case mapping and digit classification are ASCII-only; the
 * whitespace class is Python's `str.isspace`.
 */
module Text {

  predicate StartsWith(s: string, p: string) {
    |p| <= |s| && s[..|p|] == p
  }

  predicate EndsWith(s: string, p: string) {
    |p| <= |s| && s[|s| - |p|..] == p
  }

  /** Python's `p in s` for strings. */
  predicate Contains(s: string, p: string)
    decreases |s|
  {
    StartsWith(s, p) || (|s| > 0 && Contains(s[1..], p))
  }

  /** Python's `str.isspace()` for one character. */
  predicate IsSpace(c: char) {
    c == ' ' || ('\t' <= c <= '\r') || ('\U{1C}' <= c <= '\U{1F}') ||
    c == '\U{85}' || c == '\U{A0}' || c == '\U{1680}' ||
    ('\U{2000}' <= c <= '\U{200A}') || c == '\U{2028}' || c == '\U{2029}' ||
    c == '\U{202F}' || c == '\U{205F}' || c == '\U{3000}'
  }

  predicate IsAsciiUpper(c: char) { 'A' <= c <= 'Z' }
  predicate IsAsciiLower(c: char) { 'a' <= c <= 'z' }
  predicate IsAsciiLetter(c: char) { IsAsciiUpper(c) || IsAsciiLower(c) }
  predicate IsAsciiDigit(c: char) { '0' <= c <= '9' }

  function LowerChar(c: char): char {
    if IsAsciiUpper(c) then (c as int + 32) as char else c
  }

  function UpperChar(c: char): char {
    if IsAsciiLower(c) then (c as int - 32) as char else c
  }

  /** `s.lower()`, ASCII letters only. */
  function Lower(s: string): (r: string)
    ensures |r| == |s|
  {
    seq(|s|, i requires 0 <= i < |s| => LowerChar(s[i]))
  }

  /**
   * `s.title()` on ASCII: a letter is upper-cased when it does not follow a
   * letter and lower-cased when it does; every other character, a non-ASCII
   * letter included, is kept and ends a word.
   */
  function TitleCase(s: string): (r: string)
    ensures |r| == |s|
  {
    seq(|s|, i requires 0 <= i < |s| =>
      if !IsAsciiLetter(s[i]) then s[i]
      else if i > 0 && IsAsciiLetter(s[i - 1]) then LowerChar(s[i])
      else UpperChar(s[i]))
  }

  /** `s.replace(a, b)` for single characters. */
  function ReplaceChar(s: string, a: char, b: char): (r: string)
    ensures |r| == |s|
  {
    seq(|s|, i requires 0 <= i < |s| => if s[i] == a then b else s[i])
  }

  /** `s.isdigit()`, ASCII digits only. */
  predicate IsDigits(s: string) {
    |s| > 0 && forall i | 0 <= i < |s| :: IsAsciiDigit(s[i])
  }

  /** `s.find(c)`: the first index of `c`, or -1. */
  function IndexOf(s: string, c: char): (i: int)
    ensures -1 <= i < |s|
    ensures i == -1 ==> forall k | 0 <= k < |s| :: s[k] != c
    ensures 0 <= i ==> s[i] == c && forall k | 0 <= k < i :: s[k] != c
  {
    FindFrom(s, c, 0)
  }

  /** `s.find(c, start)`: the first index at or after `start` holding `c`, or -1. */
  function FindFrom(s: string, c: char, start: nat): (i: int)
    requires start <= |s|
    ensures i == -1 || start <= i < |s|
    ensures i == -1 ==> forall k | start <= k < |s| :: s[k] != c
    ensures 0 <= i ==> s[i] == c && forall k | start <= k < i :: s[k] != c
    decreases |s| - start
  {
    if start == |s| then -1
    else if s[start] == c then start
    else FindFrom(s, c, start + 1)
  }

  /** `s.rfind(c)`: the last index of `c`, or -1. */
  function LastIndexOf(s: string, c: char): (i: int)
    ensures -1 <= i < |s|
    ensures i == -1 ==> forall k | 0 <= k < |s| :: s[k] != c
    ensures 0 <= i ==> s[i] == c && forall k | i < k < |s| :: s[k] != c
    decreases |s|
  {
    if |s| == 0 then -1
    else if s[|s| - 1] == c then |s| - 1
    else LastIndexOf(s[..|s| - 1], c)
  }

  /** `s.count(c)` for a single character. */
  function CountChar(s: string, c: char): nat
  {
    if |s| == 0 then 0 else (if s[0] == c then 1 else 0) + CountChar(s[1..], c)
  }

  /** `s.lstrip()` */
  function LStrip(s: string): (r: string)
    ensures |r| <= |s|
    ensures r == [] || !IsSpace(r[0])
  {
    s[SpaceEnd(s, 0)..]
  }

  /** The first index at or after `from` that is not whitespace, or `|s|`. */
  function SpaceEnd(s: string, from: nat): (n: nat)
    requires from <= |s|
    ensures from <= n <= |s| && (n == |s| || !IsSpace(s[n]))
    decreases |s| - from
  {
    if from < |s| && IsSpace(s[from]) then SpaceEnd(s, from + 1) else from
  }

  /** `s.rstrip()` */
  function RStrip(s: string): (r: string)
    ensures |r| <= |s| && r == s[..|r|]
    ensures r == [] || !IsSpace(r[|r| - 1])
  {
    s[..SpaceStart(s, |s|)]
  }

  /** The end of `s[..to]` once trailing whitespace is removed. */
  function SpaceStart(s: string, to: nat): (n: nat)
    requires to <= |s|
    ensures n <= to && (n == 0 || !IsSpace(s[n - 1]))
  {
    if to > 0 && IsSpace(s[to - 1]) then SpaceStart(s, to - 1) else to
  }

  /** `s.strip()`: surrounding whitespace removed. */
  function Strip(s: string): (r: string)
    ensures r == [] || (!IsSpace(r[0]) && !IsSpace(r[|r| - 1]))
    ensures |r| <= |s|
  {
    RStrip(LStrip(s))
  }

  /** `s.lstrip(c)` for one character. */
  function LStripChar(s: string, c: char): (r: string)
    ensures |r| <= |s|
    ensures r == [] || r[0] != c
    ensures forall i | 0 <= i < |s| - |r| :: s[i] == c
  {
    s[CharEnd(s, c, 0)..]
  }

  /** The first index at or after `from` that does not hold `c`, or `|s|`. */
  function CharEnd(s: string, c: char, from: nat): (n: nat)
    requires from <= |s|
    ensures from <= n <= |s| && (n == |s| || s[n] != c)
    ensures forall i | from <= i < n :: s[i] == c
    decreases |s| - from
  {
    if from < |s| && s[from] == c then CharEnd(s, c, from + 1) else from
  }

  /** `s.rstrip(c)` for one character. */
  function RStripChar(s: string, c: char): (r: string)
    ensures |r| <= |s| && r == s[..|r|]
    ensures r == [] || r[|r| - 1] != c
    ensures forall i | |r| <= i < |s| :: s[i] == c
  {
    s[..CharStart(s, c, |s|)]
  }

  /** The end of `s[..to]` once trailing copies of `c` are removed. */
  function CharStart(s: string, c: char, to: nat): (n: nat)
    requires to <= |s|
    ensures n <= to && (n == 0 || s[n - 1] != c)
    ensures forall i | n <= i < to :: s[i] == c
  {
    if to > 0 && s[to - 1] == c then CharStart(s, c, to - 1) else to
  }

  /** `s.strip(c)` for one character. */
  function StripChar(s: string, c: char): string {
    RStripChar(LStripChar(s, c), c)
  }

  /** `s.split(c)` for a one-character separator. */
  function Split(s: string, c: char): (parts: seq<string>)
    ensures |parts| >= 1
  {
    SplitFrom(s, c, 0)
  }

  /** `s[start:].split(c)`, walking `s` by index. */
  function SplitFrom(s: string, c: char, start: nat): (parts: seq<string>)
    requires start <= |s|
    ensures |parts| >= 1
    decreases |s| - start
  {
    var i := FindFrom(s, c, start);
    if i < 0 then [s[start..]] else [s[start..i]] + SplitFrom(s, c, i + 1)
  }

  /** Finding from `a + b` in `s` is finding from `b` in `s[a..]`, shifted by `a`. */
  lemma FindShift(s: string, c: char, a: nat, b: nat)
    requires a + b <= |s|
    ensures var i := FindFrom(s, c, a + b);
            var j := FindFrom(s[a..], c, b);
            (i < 0 && j < 0) || (j >= 0 && i == a + j)
  {
    var i := FindFrom(s, c, a + b);
    var j := FindFrom(s[a..], c, b);
    if j >= 0 {
      assert s[a + j] == c;
    }
  }

  /** Splitting from `a + b` in `s` is splitting from `b` in `s[a..]`. */
  lemma {:induction false} SplitShift(s: string, c: char, a: nat, b: nat)
    requires a + b <= |s|
    ensures SplitFrom(s, c, a + b) == SplitFrom(s[a..], c, b)
    decreases |s| - (a + b)
  {
    var i := FindFrom(s, c, a + b);
    var j := FindFrom(s[a..], c, b);
    FindShift(s, c, a, b);
    if i < 0 {
      assert s[a + b..] == s[a..][b..];
    } else {
      SplitShift(s, c, a, j + 1);
      assert s[a + b..i] == s[a..][b..j];
    }
  }

  /** No piece of `s.split(c)` contains `c`. */
  lemma {:induction false} SplitPieces(s: string, c: char)
    ensures forall k | 0 <= k < |Split(s, c)| :: NoChar(Split(s, c)[k], c)
    decreases |s|
  {
    var i := IndexOf(s, c);
    SplitUnfold(s, c);
    if i >= 0 {
      SplitPieces(s[i + 1..], c);
      var parts := Split(s, c);
      var tail := Split(s[i + 1..], c);
      assert parts == [s[..i]] + tail;
      forall k | 0 <= k < |parts| ensures NoChar(parts[k], c) {
        if k > 0 { assert parts[k] == tail[k - 1]; }
      }
    }
  }

  /** `sep.join(parts)` */
  function Join(parts: seq<string>, sep: string): string
  {
    if |parts| == 0 then ""
    else if |parts| == 1 then parts[0]
    else parts[0] + sep + Join(parts[1..], sep)
  }

  /** Length of the leading run of non-whitespace characters. */
  function WordLength(s: string): (n: nat)
    ensures n <= |s|
    ensures forall i | 0 <= i < n :: !IsSpace(s[i])
    ensures n < |s| ==> IsSpace(s[n])
  {
    if |s| == 0 || IsSpace(s[0]) then 0 else 1 + WordLength(s[1..])
  }

  /** `s.split()` with no separator: the maximal runs of non-whitespace. */
  function Words(s: string): seq<string>
    decreases |s|
  {
    if |s| == 0 then []
    else if IsSpace(s[0]) then Words(s[1..])
    else
      var n := WordLength(s);
      [s[..n]] + Words(s[n..])
  }

  /** `' '.join(s.split())`: whitespace runs collapsed to one space, ends trimmed. */
  function Collapse(s: string): string {
    Join(Words(s), " ")
  }

  function DigitChar(d: nat): char
    requires d < 10
  {
    ('0' as int + d) as char
  }

  /** `str(n)` for a natural number. */
  function NatToString(n: nat): (r: string)
    ensures |r| > 0
    ensures forall i | 0 <= i < |r| :: IsAsciiDigit(r[i])
  {
    if n < 10 then [DigitChar(n)] else NatToString(n / 10) + [DigitChar(n % 10)]
  }

  /** `f"{n:02d}"` */
  function Pad2(n: nat): (r: string)
    ensures |r| >= 2
    ensures forall i | 0 <= i < |r| :: IsAsciiDigit(r[i])
  {
    if n < 10 then "0" + NatToString(n) else NatToString(n)
  }

  /** Python's `a < b` on strings: code-point lexicographic order. */
  predicate LexLess(a: string, b: string) {
    LexFrom(a, b, 0)
  }

  /** `a[k:] < b[k:]`, comparing position by position from `k`. */
  predicate LexFrom(a: string, b: string, k: nat)
    requires k <= |a| && k <= |b|
    decreases |a| - k
  {
    if k == |a| then k < |b|
    else if k == |b| then false
    else if a[k] != b[k] then a[k] < b[k]
    else LexFrom(a, b, k + 1)
  }

  /** `c not in s` */
  predicate NoChar(s: string, c: char) {
    forall k | 0 <= k < |s| :: s[k] != c
  }

  /** Splitting a concatenation at the length of its first part gives the parts back. */
  lemma ConcatParts(p: string, x: string)
    ensures (p + x)[..|p|] == p && (p + x)[|p|..] == x
  {
  }

  lemma ConcatAssoc(a: string, b: string, c: string)
    ensures a + b + c == a + (b + c)
  {
  }

  lemma NoCharSuffix(s: string, k: nat, c: char)
    requires NoChar(s, c) && k <= |s|
    ensures NoChar(s[k..], c)
  {
    forall j | 0 <= j < |s[k..]|
      ensures s[k..][j] != c
    {
      assert s[k..][j] == s[k + j];
    }
  }

  lemma NoCharPrefix(s: string, k: nat, c: char)
    requires NoChar(s, c) && k <= |s|
    ensures NoChar(s[..k], c)
  {
    forall j | 0 <= j < k
      ensures s[..k][j] != c
    {
      assert s[..k][j] == s[j];
    }
  }

  /** `find` on a concatenation looks in the left part first. */
  lemma IndexOfAppend(a: string, b: string, c: char)
    ensures IndexOf(a + b, c) ==
            if IndexOf(a, c) >= 0 then IndexOf(a, c)
            else if IndexOf(b, c) < 0 then -1
            else |a| + IndexOf(b, c)
  {
    var i := IndexOf(a, c);
    var j := IndexOf(b, c);
    var r := IndexOf(a + b, c);
    if i >= 0 {
      assert (a + b)[i] == c;
    } else if j >= 0 {
      assert (a + b)[|a| + j] == c;
      assert forall k | |a| <= k < |a| + j :: (a + b)[k] == b[k - |a|];
    } else {
      assert forall k | |a| <= k < |a| + |b| :: (a + b)[k] == b[k - |a|];
    }
  }

  /** `c.join(s.split(c)) == s` */
  lemma {:induction false} JoinSplit(s: string, c: char)
    ensures Join(Split(s, c), [c]) == s
    decreases |s|
  {
    var i := IndexOf(s, c);
    SplitUnfold(s, c);
    if i >= 0 {
      var rest := Split(s[i + 1..], c);
      JoinSplit(s[i + 1..], c);
      assert ([s[..i]] + rest)[1..] == rest;
      assert s == s[..i] + [c] + s[i + 1..];
    }
  }

  /** Every tail of `s.split(c)`, joined back, is a suffix of `s`. */
  lemma {:induction false} JoinSplitTail(s: string, c: char, j: nat)
    requires j < |Split(s, c)|
    ensures EndsWith(s, Join(Split(s, c)[j..], [c]))
    decreases |s|
  {
    if j == 0 {
      WholeTail(s, c);
    } else {
      SplitTailStep(s, c, j);
      JoinSplitTail(s[IndexOf(s, c) + 1..], c, j - 1);
      TailFromRest(s, c, j);
    }
  }

  lemma WholeTail(s: string, c: char)
    ensures EndsWith(s, Join(Split(s, c)[0..], [c]))
  {
    JoinSplit(s, c);
    assert Split(s, c)[0..] == Split(s, c);
    assert s[|s| - |s|..] == s;
  }

  /** The inductive step of `JoinSplitTail`: a suffix of what follows the first `c` is a suffix of `s`. */
  lemma TailFromRest(s: string, c: char, j: nat)
    requires 1 <= j < |Split(s, c)| && IndexOf(s, c) >= 0
    requires var t := s[IndexOf(s, c) + 1..];
             j - 1 < |Split(t, c)| && EndsWith(t, Join(Split(t, c)[j - 1..], [c]))
    ensures EndsWith(s, Join(Split(s, c)[j..], [c]))
  {
    var t := s[IndexOf(s, c) + 1..];
    SplitTailStep(s, c, j);
    assert t == s[|s| - |t|..];
    SuffixTrans(s, t, Join(Split(t, c)[j - 1..], [c]));
    SameTail(s, Split(s, c)[j..], Split(t, c)[j - 1..], [c]);
  }

  /** Past its first part, `s.split(c)` is the split of what follows the first `c`. */
  lemma SplitTailStep(s: string, c: char, j: nat)
    requires 1 <= j < |Split(s, c)|
    ensures IndexOf(s, c) >= 0
    ensures var t := s[IndexOf(s, c) + 1..];
            j - 1 < |Split(t, c)| && Split(s, c)[j..] == Split(t, c)[j - 1..]
  {
    SplitUnfold(s, c);
    var i := IndexOf(s, c);
    TailOfCons(s[..i], Split(s[i + 1..], c), j);
  }

  /** `s.split(c)` is the part before the first `c`, then the split of what follows it. */
  lemma SplitUnfold(s: string, c: char)
    ensures IndexOf(s, c) < 0 ==> Split(s, c) == [s]
    ensures IndexOf(s, c) >= 0 ==> Split(s, c) == [s[..IndexOf(s, c)]] + Split(s[IndexOf(s, c) + 1..], c)
  {
    var i := IndexOf(s, c);
    if i < 0 {
      assert s[0..] == s;
    } else {
      SplitShift(s, c, i + 1, 0);
      assert s[0..i] == s[..i];
    }
  }

  lemma TailOfCons<T>(x: T, rest: seq<T>, j: nat)
    requires 1 <= j <= |rest| + 1
    ensures ([x] + rest)[j..] == rest[j - 1..]
  {
  }

  lemma SameTail(s: string, a: seq<string>, b: seq<string>, sep: string)
    requires a == b && EndsWith(s, Join(b, sep))
    ensures EndsWith(s, Join(a, sep))
  {
  }

  lemma SuffixTrans(s: string, t: string, u: string)
    requires |t| <= |s| && t == s[|s| - |t|..] && EndsWith(t, u)
    ensures EndsWith(s, u)
  {
    assert s[|s| - |u|..] == t[|t| - |u|..];
  }

  /** `c.join(parts).split(c) == parts` when no part contains `c`. */
  lemma {:induction false} SplitJoin(parts: seq<string>, c: char)
    requires |parts| >= 1
    requires forall k | 0 <= k < |parts| :: NoChar(parts[k], c)
    ensures Split(Join(parts, [c]), c) == parts
    decreases |parts|
  {
    if |parts| > 1 {
      var rest := Join(parts[1..], [c]);
      SplitJoin(parts[1..], c);
      var s := parts[0] + ([c] + rest);
      assert Join(parts, [c]) == s;
      IndexOfAppend(parts[0], [c] + rest, c);
      SplitUnfold(s, c);
      assert s[..|parts[0]|] == parts[0];
      assert s[|parts[0]| + 1..] == rest;
      assert [parts[0]] + parts[1..] == parts;
    }
  }

  /** `len(s.split(c)) == s.count(c) + 1` */
  lemma {:induction false} SplitCount(s: string, c: char)
    ensures |Split(s, c)| == CountChar(s, c) + 1
    decreases |s|
  {
    var i := IndexOf(s, c);
    SplitUnfold(s, c);
    if i < 0 {
      CountNone(s, c);
    } else {
      SplitCount(s[i + 1..], c);
      CountAppend(s[..i], s[i..], c);
      assert s == s[..i] + s[i..];
      CountNone(s[..i], c);
      assert s[i..][1..] == s[i + 1..];
    }
  }

  lemma {:induction false} CountNone(s: string, c: char)
    requires NoChar(s, c)
    ensures CountChar(s, c) == 0
    decreases |s|
  {
    if |s| > 0 {
      NoCharSuffix(s, 1, c);
      CountNone(s[1..], c);
    }
  }

  lemma {:induction false} CountAppend(a: string, b: string, c: char)
    ensures CountChar(a + b, c) == CountChar(a, c) + CountChar(b, c)
    decreases |a|
  {
    if |a| == 0 {
      assert a + b == b;
    } else {
      assert (a + b)[1..] == a[1..] + b;
      CountAppend(a[1..], b, c);
    }
  }

  /** The first piece of `s.split(c)` is a prefix of `s`. */
  lemma SplitFirst(s: string, c: char)
    ensures |Split(s, c)[0]| <= |s| && Split(s, c)[0] == s[..|Split(s, c)[0]|]
  {
  }

  /** No element occurs twice. */
  predicate NoDuplicates(s: seq<string>) {
    forall i, j | 0 <= i < j < |s| :: s[i] != s[j]
  }

  lemma NoDuplicatesSnoc(s: seq<string>, x: string)
    requires NoDuplicates(s) && x !in s
    ensures NoDuplicates(s + [x])
  {
    forall i, j | 0 <= i < j < |s + [x]|
      ensures (s + [x])[i] != (s + [x])[j]
    {
      if j == |s| {
        assert (s + [x])[i] == s[i];
      } else {
        assert (s + [x])[i] == s[i] && (s + [x])[j] == s[j];
      }
    }
  }
}
