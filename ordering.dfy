/**
 * Python's `sorted` on a set of strings: the code-point lexicographic
 * order of `Text.LexLess` is a strict total order, and the ascending
 * listing of a set holds each element exactly once.
 */
module Ordering {
  import opened Text

  lemma LexIrreflexive(a: string)
    ensures !LexLess(a, a)
  {
    IrreflexiveFrom(a, 0);
  }

  lemma {:induction false} IrreflexiveFrom(a: string, k: nat)
    requires k <= |a|
    ensures !LexFrom(a, a, k)
    decreases |a| - k
  {
    if k < |a| {
      IrreflexiveFrom(a, k + 1);
    }
  }

  lemma LexTransitive(a: string, b: string, c: string)
    requires LexLess(a, b) && LexLess(b, c)
    ensures LexLess(a, c)
  {
    TransitiveFrom(a, b, c, 0);
  }

  lemma {:induction false} TransitiveFrom(a: string, b: string, c: string, k: nat)
    requires k <= |a| && k <= |b| && k <= |c|
    requires LexFrom(a, b, k) && LexFrom(b, c, k)
    ensures LexFrom(a, c, k)
    decreases |a| - k
  {
    if k < |a| && a[k] == b[k] && b[k] == c[k] {
      TransitiveFrom(a, b, c, k + 1);
    }
  }

  /** Any two different strings are ordered one way round. */
  lemma LexTotal(a: string, b: string)
    ensures a == b || LexLess(a, b) || LexLess(b, a)
  {
    TotalFrom(a, b, 0);
  }

  lemma {:induction false} TotalFrom(a: string, b: string, k: nat)
    requires k <= |a| && k <= |b| && a[..k] == b[..k]
    ensures a == b || LexFrom(a, b, k) || LexFrom(b, a, k)
    decreases |a| - k
  {
    if k < |a| && k < |b| && a[k] == b[k] {
      assert a[..k + 1] == a[..k] + [a[k]] && b[..k + 1] == b[..k] + [b[k]];
      TotalFrom(a, b, k + 1);
    } else if k == |a| && k == |b| {
      assert a == a[..k] && b == b[..k];
    }
  }

  lemma LexAsymmetric(a: string, b: string)
    requires LexLess(a, b)
    ensures !LexLess(b, a)
  {
    if LexLess(b, a) {
      LexTransitive(a, b, a);
      LexIrreflexive(a);
    }
  }

  /** Every element comes before every later one. */
  predicate StrictlyAscending(s: seq<string>) {
    forall i, j | 0 <= i < j < |s| :: LexLess(s[i], s[j])
  }

  /** An ascending listing never repeats an element. */
  lemma AscendingDistinct(s: seq<string>)
    requires StrictlyAscending(s)
    ensures NoDuplicates(s)
  {
    forall i, j | 0 <= i < j < |s|
      ensures s[i] != s[j]
    {
      LexIrreflexive(s[i]);
    }
  }

  /** A listing with no members is empty. */
  lemma NoMembers(s: seq<string>)
    ensures (forall x :: x !in s) ==> |s| == 0
  {
    if |s| > 0 {
      assert s[0] in s;
    }
  }

  /** Two ascending listings of the same elements are the same listing. */
  lemma {:induction false} AscendingUnique(s: seq<string>, t: seq<string>)
    requires StrictlyAscending(s) && StrictlyAscending(t)
    requires forall x :: x in s <==> x in t
    ensures s == t
    decreases |s|
  {
    if |s| == 0 || |t| == 0 {
      NoMembers(s);
      NoMembers(t);
    } else {
      assert s[0] in t && t[0] in s;
      var j :| 0 <= j < |t| && t[j] == s[0];
      var i :| 0 <= i < |s| && s[i] == t[0];
      if i > 0 && j > 0 {
        LexAsymmetric(t[0], s[0]);
      }
      forall x
        ensures x in s[1..] <==> x in t[1..]
      {
        if x in s[1..] {
          var i :| 1 <= i < |s| && s[i] == x;
          assert LexLess(s[0], x);
          LexIrreflexive(x);
          assert x in t && x != t[0];
        }
        if x in t[1..] {
          var j :| 1 <= j < |t| && t[j] == x;
          assert LexLess(t[0], x);
          LexIrreflexive(x);
          assert x in s && x != s[0];
        }
      }
      AscendingUnique(s[1..], t[1..]);
      assert s == [s[0]] + s[1..] && t == [t[0]] + t[1..];
    }
  }

  /** The least element of a nonempty set. */
  method Least(s: set<string>) returns (m: string)
    requires s != {}
    ensures m in s
    ensures forall x | x in s && x != m :: LexLess(m, x)
  {
    m :| m in s;
    var rest := s - {m};
    while rest != {}
      invariant m in s && rest <= s
      invariant forall x | x in s - rest && x != m :: LexLess(m, x)
      decreases rest
    {
      var y :| y in rest;
      LexTotal(y, m);
      if LexLess(y, m) {
        forall x | x in s - rest && x != m
          ensures LexLess(y, x)
        {
          LexTransitive(y, m, x);
        }
        m := y;
      }
      rest := rest - {y};
    }
  }

  /** `sorted(s)`: the elements of `s` in ascending order. */
  method Sorted(s: set<string>) returns (r: seq<string>)
    ensures StrictlyAscending(r)
    ensures forall x :: x in r <==> x in s
    ensures |r| == |s|
  {
    r := [];
    var rest := s;
    while rest != {}
      invariant rest <= s
      invariant StrictlyAscending(r)
      invariant forall x :: x in r <==> x in s && x !in rest
      invariant forall i, y | 0 <= i < |r| && y in rest :: LexLess(r[i], y)
      invariant |r| + |rest| == |s|
      decreases rest
    {
      var m := Least(rest);
      r := r + [m];
      rest := rest - {m};
    }
  }
}
