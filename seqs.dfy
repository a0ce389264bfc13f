/** Python list comprehensions with a condition, `[x for x in s if test(x)]`, and the
    facts every such filter satisfies: it keeps an order-preserving subsequence and keeps
    exactly the elements that pass the test. */
module Seqs {
  import opened Wrappers

  /** `a` is `b` with some elements deleted, the rest in their original order. */
  predicate IsSubsequence<T(==)>(a: seq<T>, b: seq<T>)
    decreases |b|
  {
    if a == [] then true
    else if b == [] then false
    else (a[0] == b[0] && IsSubsequence(a[1..], b[1..])) || IsSubsequence(a, b[1..])
  }

  /** `[x for x in s if p(x)]`. */
  function Filter<T>(s: seq<T>, p: T -> bool): (r: seq<T>)
    ensures |r| <= |s|
  {
    if s == [] then [] else (if p(s[0]) then [s[0]] else []) + Filter(s[1..], p)
  }

  lemma {:induction false} FilterSubsequence<T>(s: seq<T>, p: T -> bool)
    ensures IsSubsequence(Filter(s, p), s)
  {
    if s != [] {
      FilterSubsequence(s[1..], p);
      var rest := Filter(s[1..], p);
      if p(s[0]) {
        assert Filter(s, p) == [s[0]] + rest;
        assert ([s[0]] + rest)[1..] == rest;
      } else {
        assert Filter(s, p) == rest;
      }
    }
  }

  lemma {:induction false} FilterMembers<T>(s: seq<T>, p: T -> bool)
    ensures forall x :: x in Filter(s, p) <==> x in s && p(x)
  {
    if s != [] {
      FilterMembers(s[1..], p);
      assert s == [s[0]] + s[1..];
    }
  }

  /** A test every element passes keeps the whole list. */
  lemma {:induction false} FilterKeepsAll<T>(s: seq<T>, p: T -> bool)
    requires forall k :: 0 <= k < |s| ==> p(s[k])
    ensures Filter(s, p) == s
  {
    if s != [] {
      FilterKeepsAll(s[1..], p);
      assert [s[0]] + s[1..] == s;
    }
  }

  /** Two tests that agree on the elements of `s` filter it alike. */
  lemma {:induction false} FilterAgree<T>(s: seq<T>, p: T -> bool, q: T -> bool)
    requires forall k :: 0 <= k < |s| ==> p(s[k]) == q(s[k])
    ensures Filter(s, p) == Filter(s, q)
  {
    if s != [] {
      FilterAgree(s[1..], p, q);
    }
  }

  lemma {:induction false} FilterAppend<T>(a: seq<T>, b: seq<T>, p: T -> bool)
    ensures Filter(a + b, p) == Filter(a, p) + Filter(b, p)
  {
    if a == [] {
      assert a + b == b;
    } else {
      var ab := a + b;
      assert ab[0] == a[0] && ab[1..] == a[1..] + b;
      FilterAppend(a[1..], b, p);
      var head := if p(a[0]) then [a[0]] else [];
      assert Filter(ab, p) == head + Filter(a[1..] + b, p);
      assert Filter(a, p) == head + Filter(a[1..], p);
    }
  }

  /** A comprehension whose test may raise: `test(x)` is `None` when evaluating it raises.
      Elements are tested in order and the first one that raises aborts the comprehension. */
  function TryFilter<T>(s: seq<T>, test: T -> Option<bool>): Option<seq<T>>
  {
    if s == [] then Some([])
    else
      match test(s[0])
      case None => None
      case Some(keep) =>
        match TryFilter(s[1..], test)
        case None => None
        case Some(rest) => Some((if keep then [s[0]] else []) + rest)
  }

  /** The comprehension raises exactly when the test raises on some element. */
  lemma {:induction false} TryFilterRaises<T>(s: seq<T>, test: T -> Option<bool>)
    ensures TryFilter(s, test).None? <==> exists k :: 0 <= k < |s| && test(s[k]).None?
  {
    if s != [] {
      TryFilterRaises(s[1..], test);
      if exists k :: 0 <= k < |s[1..]| && test(s[1..][k]).None? {
        var k :| 0 <= k < |s[1..]| && test(s[1..][k]).None?;
        assert test(s[k + 1]).None?;
      }
      if exists k :: 0 <= k < |s| && test(s[k]).None? {
        var k :| 0 <= k < |s| && test(s[k]).None?;
        if k > 0 {
          assert test(s[1..][k - 1]).None?;
        }
      }
    }
  }

  /** The plain test "evaluating `test` gives True". */
  function Passes<T>(test: T -> Option<bool>): T -> bool
  {
    x => test(x) == Some(true)
  }

  /** When the comprehension does not raise it is the plain filter on "the test said yes". */
  lemma {:induction false} TryFilterIsFilter<T>(s: seq<T>, test: T -> Option<bool>)
    requires TryFilter(s, test).Some?
    ensures TryFilter(s, test) == Some(Filter(s, Passes(test)))
  {
    if s != [] {
      TryFilterIsFilter(s[1..], test);
    }
  }

  /** Two tests that agree on the elements of `s` give the same comprehension. */
  lemma {:induction false} TryFilterAgree<T>(s: seq<T>, t: T -> Option<bool>, u: T -> Option<bool>)
    requires forall k :: 0 <= k < |s| ==> t(s[k]) == u(s[k])
    ensures TryFilter(s, t) == TryFilter(s, u)
  {
    if s != [] {
      TryFilterAgree(s[1..], t, u);
    }
  }

  /** A test that keeps every element, without raising, keeps the whole list. */
  lemma {:induction false} TryFilterKeepsAll<T>(s: seq<T>, test: T -> Option<bool>)
    requires forall k :: 0 <= k < |s| ==> test(s[k]) == Some(true)
    ensures TryFilter(s, test) == Some(s)
  {
    if s != [] {
      TryFilterKeepsAll(s[1..], test);
      assert [s[0]] + s[1..] == s;
    }
  }
}
