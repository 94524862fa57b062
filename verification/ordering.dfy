/** Python's ordering of `str` values and the `sorted(set(xs))` idiom the
    scripts use to fix the order of a vocabulary. */
module Ordering {

  /** Python's `a < b` on strings: code points compared left to right, and a
      proper prefix sorts before the longer string. */
  predicate Below(a: string, b: string)
    decreases |a|
  {
    if |a| == 0 then |b| > 0
    else if |b| == 0 then false
    else a[0] < b[0] || (a[0] == b[0] && Below(a[1..], b[1..]))
  }

  lemma BelowIrreflexive(a: string)
    ensures !Below(a, a)
    decreases |a|
  {
    if |a| > 0 {
      BelowIrreflexive(a[1..]);
    }
  }

  lemma BelowAsymmetric(a: string, b: string)
    requires Below(a, b)
    ensures !Below(b, a)
    decreases |a|
  {
    if |a| > 0 && |b| > 0 && a[0] == b[0] {
      BelowAsymmetric(a[1..], b[1..]);
    }
  }

  lemma BelowTransitive(a: string, b: string, c: string)
    requires Below(a, b) && Below(b, c)
    ensures Below(a, c)
    decreases |a|
  {
    if |a| > 0 && a[0] == b[0] && b[0] == c[0] {
      BelowTransitive(a[1..], b[1..], c[1..]);
    }
  }

  lemma BelowTotal(a: string, b: string)
    ensures a == b || Below(a, b) || Below(b, a)
    decreases |a|
  {
    if |a| > 0 && |b| > 0 && a[0] == b[0] {
      BelowTotal(a[1..], b[1..]);
      assert a == [a[0]] + a[1..];
      assert b == [b[0]] + b[1..];
    }
  }

  /** Strictly increasing under `Below`; in particular free of duplicates. */
  predicate StrictlySorted(s: seq<string>) {
    forall i, j :: 0 <= i < j < |s| ==> Below(s[i], s[j])
  }

  lemma SortedDistinct(s: seq<string>)
    requires StrictlySorted(s)
    ensures forall i, j :: 0 <= i < |s| && 0 <= j < |s| && i != j ==> s[i] != s[j]
  {
    forall i, j | 0 <= i < |s| && 0 <= j < |s| && i != j
      ensures s[i] != s[j]
    {
      if i < j {
        BelowIrreflexive(s[i]);
      } else {
        BelowIrreflexive(s[j]);
      }
    }
  }

  /** The head of a sorted sequence lies below everything after it. */
  lemma HeadIsLeast(s: seq<string>)
    requires StrictlySorted(s) && |s| > 0
    ensures forall t :: t in s[1..] ==> Below(s[0], t)
  {
    forall t | t in s[1..]
      ensures Below(s[0], t)
    {
      var k :| 0 <= k < |s[1..]| && s[1..][k] == t;
      assert s[k + 1] == t;
    }
  }

  /** Whatever lies below the head of a sorted sequence lies below all of it. */
  lemma BelowHeadBelowAll(x: string, s: seq<string>)
    requires StrictlySorted(s) && |s| > 0 && Below(x, s[0])
    ensures forall t :: t in s ==> Below(x, t)
  {
    forall t | t in s
      ensures Below(x, t)
    {
      if t != s[0] {
        HeadIsLeast(s);
        assert t in s[1..] by {
          var k :| 0 <= k < |s| && s[k] == t;
          assert s[1..][k - 1] == t;
        }
        BelowTransitive(x, s[0], t);
      }
    }
  }

  /** Places `x` into a sorted sequence unless it is already there. */
  function Insert(x: string, s: seq<string>): (r: seq<string>)
    requires StrictlySorted(s)
    ensures StrictlySorted(r)
    ensures forall t :: t in r <==> t == x || t in s
    decreases |s|
  {
    if |s| == 0 then [x]
    else if x == s[0] then s
    else if Below(x, s[0]) then
      BelowHeadBelowAll(x, s);
      [x] + s
    else
      BelowTotal(x, s[0]);
      HeadIsLeast(s);
      [s[0]] + Insert(x, s[1..])
  }

  /** `sorted(set(xs))`: the distinct elements of `xs` in ascending order. */
  function SortedSet(xs: seq<string>): (r: seq<string>)
    ensures StrictlySorted(r)
    ensures forall t :: t in r <==> t in xs
    decreases |xs|
  {
    if |xs| == 0 then []
    else
      assert xs == xs[..|xs| - 1] + [xs[|xs| - 1]];
      Insert(xs[|xs| - 1], SortedSet(xs[..|xs| - 1]))
  }

  lemma NoElementsEmpty(s: seq<string>)
    requires forall t :: t !in s
    ensures s == []
  {
    HeadOfNonEmpty(s);
  }

  lemma HeadOfNonEmpty(s: seq<string>)
    ensures |s| > 0 ==> s[0] in s
  {
  }

  /** A sorted duplicate-free sequence is determined by its elements: the
      vocabulary order does not depend on the order tokens were seen in. */
  lemma {:induction false} SortedUnique(a: seq<string>, b: seq<string>)
    requires StrictlySorted(a) && StrictlySorted(b)
    requires forall t :: t in a <==> t in b
    ensures a == b
    decreases |a|
  {
    if |a| == 0 {
      NoElementsEmpty(b);
    } else {
      assert a[0] in b;
      assert b[0] in a;
      HeadIsLeast(a);
      HeadIsLeast(b);
      BelowTotal(a[0], b[0]);
      if Below(a[0], b[0]) {
        assert a[0] in b[1..] by {
          BelowIrreflexive(a[0]);
          var k :| 0 <= k < |b| && b[k] == a[0];
          assert b[1..][k - 1] == a[0];
        }
        BelowAsymmetric(a[0], b[0]);
        assert false;
      }
      SortedDistinct(a);
      SortedDistinct(b);
      forall t
        ensures t in a[1..] <==> t in b[1..]
      {
        if t in a[1..] {
          var k :| 0 <= k < |a[1..]| && a[1..][k] == t;
          assert t != a[0];
          assert t in b;
          var m :| 0 <= m < |b| && b[m] == t;
          assert b[1..][m - 1] == t;
        }
        if t in b[1..] {
          var k :| 0 <= k < |b[1..]| && b[1..][k] == t;
          assert t != b[0];
          assert t in a;
          var m :| 0 <= m < |a| && a[m] == t;
          assert a[1..][m - 1] == t;
        }
      }
      SortedUnique(a[1..], b[1..]);
      assert a == [a[0]] + a[1..];
      assert b == [b[0]] + b[1..];
    }
  }
}
