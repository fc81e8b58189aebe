/**
 * The ascending order on strings that JavaScript's default `Array.prototype.sort`
 * applies (no comparator): strings are compared character by character, and a
 * proper prefix comes first. Sorting is specified by its output only.
 */
module StringOrder {

  /** `a` sorts no later than `b`. */
  predicate AtMost(a: string, b: string)
  {
    |a| == 0 || (|b| > 0 && (a[0] < b[0] || (a[0] == b[0] && AtMost(a[1..], b[1..]))))
  }

  /** `a` sorts strictly before `b`. */
  predicate Before(a: string, b: string)
  {
    AtMost(a, b) && a != b
  }

  /** Every element is strictly before every later one: ascending and duplicate-free. */
  predicate StrictlyAscending(s: seq<string>)
  {
    forall i, j :: 0 <= i < j < |s| ==> Before(s[i], s[j])
  }

  /** `a` and `b` agree on their first `k` characters and differ at position `k`, where `a` has the smaller one. */
  ghost predicate FirstDifferenceBelow(a: string, b: string, k: nat)
  {
    k < |a| && k < |b| && a[..k] == b[..k] && a[k] < b[k]
  }

  /** The textbook reading of the order: a prefix, or smaller at the first difference. */
  lemma {:induction false} AtMostMeans(a: string, b: string)
    ensures AtMost(a, b) <==> (a <= b || exists k: nat :: FirstDifferenceBelow(a, b, k))
  {
    if |a| == 0 {
    } else if |b| == 0 {
      assert !(a <= b);
      forall k: nat ensures !FirstDifferenceBelow(a, b, k) { }
    } else if a[0] < b[0] {
      assert FirstDifferenceBelow(a, b, 0);
    } else if a[0] > b[0] {
      assert !(a <= b);
      forall k: nat ensures !FirstDifferenceBelow(a, b, k) {
        if 0 < k < |a| && k < |b| {
          assert a[..k][0] == a[0] && b[..k][0] == b[0];
        }
      }
    } else {
      AtMostMeans(a[1..], b[1..]);
      assert a == [a[0]] + a[1..] && b == [b[0]] + b[1..];
      assert a <= b <==> a[1..] <= b[1..];
      if k: nat :| FirstDifferenceBelow(a[1..], b[1..], k) {
        assert a[..k + 1] == [a[0]] + a[1..][..k];
        assert b[..k + 1] == [b[0]] + b[1..][..k];
        assert FirstDifferenceBelow(a, b, k + 1);
      }
      if k: nat :| FirstDifferenceBelow(a, b, k) {
        assert k > 0;
        assert a[1..][..k - 1] == a[..k][1..];
        assert b[1..][..k - 1] == b[..k][1..];
        assert FirstDifferenceBelow(a[1..], b[1..], k - 1);
      }
    }
  }

  lemma {:induction false} AtMostReflexive(a: string)
    ensures AtMost(a, a)
  {
    if |a| > 0 {
      AtMostReflexive(a[1..]);
    }
  }

  lemma {:induction false} AtMostAntisymmetric(a: string, b: string)
    requires AtMost(a, b) && AtMost(b, a)
    ensures a == b
  {
    if |a| > 0 {
      AtMostAntisymmetric(a[1..], b[1..]);
      assert a == [a[0]] + a[1..] && b == [b[0]] + b[1..];
    }
  }

  lemma {:induction false} AtMostTransitive(a: string, b: string, c: string)
    requires AtMost(a, b) && AtMost(b, c)
    ensures AtMost(a, c)
  {
    if |a| > 0 && a[0] == b[0] == c[0] {
      AtMostTransitive(a[1..], b[1..], c[1..]);
    }
  }

  lemma {:induction false} AtMostTotal(a: string, b: string)
    ensures AtMost(a, b) || AtMost(b, a)
  {
    if |a| > 0 && |b| > 0 && a[0] == b[0] {
      AtMostTotal(a[1..], b[1..]);
    }
  }

  /** Each element strictly before the next is enough for the whole sequence to be strictly ascending. */
  lemma {:induction false} AscendingFromAdjacent(s: seq<string>)
    requires forall i :: 0 <= i < |s| - 1 ==> Before(s[i], s[i + 1])
    ensures StrictlyAscending(s)
  {
    if |s| > 1 {
      AscendingFromAdjacent(s[1..]);
      forall j | 1 < j < |s|
        ensures Before(s[0], s[j])
      {
        assert Before(s[1], s[j]) by {
          assert s[1..][0] == s[1] && s[1..][j - 1] == s[j];
        }
        AtMostTransitive(s[0], s[1], s[j]);
        if s[0] == s[j] {
          AtMostAntisymmetric(s[1], s[j]);
        }
      }
      forall i, j | 0 <= i < j < |s|
        ensures Before(s[i], s[j])
      {
        if i > 0 {
          assert s[1..][i - 1] == s[i] && s[1..][j - 1] == s[j];
        }
      }
    }
  }

  /** Two strictly ascending sequences with the same elements are equal: the output of the sort does not depend on the algorithm. */
  lemma {:induction false} AscendingIsUnique(r: seq<string>, q: seq<string>)
    requires StrictlyAscending(r) && StrictlyAscending(q)
    requires forall x :: x in r <==> x in q
    ensures r == q
  {
    assert r != [] ==> r[0] in q;
    assert q != [] ==> q[0] in r;
    if r != [] && q != [] {
      if r[0] != q[0] {
        assert q[0] in q && r[0] in r;
        var i :| 0 <= i < |r| && r[i] == q[0];
        var j :| 0 <= j < |q| && q[j] == r[0];
        assert i > 0 && j > 0;
        assert AtMost(r[0], q[0]) && AtMost(q[0], r[0]);
        AtMostAntisymmetric(r[0], q[0]);
        assert false;
      }
      forall x ensures x in r[1..] <==> x in q[1..] {
        if x in r[1..] {
          var i :| 1 <= i < |r| && r[i] == x;
          assert x != r[0];
          assert x in q;
        }
        if x in q[1..] {
          var j :| 1 <= j < |q| && q[j] == x;
          assert x != q[0];
          assert x in r;
        }
      }
      AscendingIsUnique(r[1..], q[1..]);
      assert r == [r[0]] + r[1..] && q == [q[0]] + q[1..];
    }
  }

  /** The element of a non-empty set that sorts first. */
  method Least(s: set<string>) returns (m: string)
    requires s != {}
    ensures m in s
    ensures forall x :: x in s ==> AtMost(m, x)
  {
    m :| m in s;
    AtMostReflexive(m);
    var rest := s - {m};
    while rest != {}
      invariant rest <= s && m in s
      invariant forall x :: x in s - rest ==> AtMost(m, x)
      decreases rest
    {
      var y :| y in rest;
      if !AtMost(m, y) {
        AtMostTotal(m, y);
        AtMostReflexive(y);
        forall x | x in s - rest
          ensures AtMost(y, x)
        {
          AtMostTransitive(y, m, x);
        }
        m := y;
      }
      rest := rest - {y};
    }
  }

  /** `Array.from(s).sort()`: the elements of `s`, each once, in ascending order. */
  method AscendingElements(s: set<string>) returns (r: seq<string>)
    ensures StrictlyAscending(r)
    ensures forall x :: x in r <==> x in s
    ensures |r| == |s|
  {
    r := [];
    var rest := s;
    while rest != {}
      invariant rest <= s
      invariant forall x :: x in r <==> x in s && x !in rest
      invariant |r| + |rest| == |s|
      invariant StrictlyAscending(r)
      invariant forall i, y :: 0 <= i < |r| && y in rest ==> Before(r[i], y)
      decreases rest
    {
      var m := Least(rest);
      forall y | y in rest - {m}
        ensures Before(m, y)
      {
      }
      r := r + [m];
      rest := rest - {m};
    }
  }
}
