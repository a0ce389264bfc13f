/** Ordering and sorting as Python does them: strings compare code point by code point,
    and `list.sort` / `sorted` are stable, so elements that compare equal keep their
    relative order. The stable sort is specified by a functional insertion sort; the in-place
    `list.sort` is an insertion sort on an array proved to produce the same sequence. */
module Sorting {
  import opened Seqs

  // ---------------------------------------------------------------- Python string order

  /** Python's `a <= b` on strings. */
  predicate StrLe(a: string, b: string)
  {
    if a == [] then true
    else if b == [] then false
    else if a[0] != b[0] then a[0] < b[0]
    else StrLe(a[1..], b[1..])
  }

  lemma {:induction false} StrLeTotal(a: string, b: string)
    ensures StrLe(a, b) || StrLe(b, a)
  {
    if a != [] && b != [] && a[0] == b[0] {
      StrLeTotal(a[1..], b[1..]);
    }
  }

  lemma {:induction false} StrLeTransitive(a: string, b: string, c: string)
    requires StrLe(a, b) && StrLe(b, c)
    ensures StrLe(a, c)
  {
    if a != [] && b != [] && c != [] && a[0] == b[0] && b[0] == c[0] {
      StrLeTransitive(a[1..], b[1..], c[1..]);
    }
  }

  lemma {:induction false} StrLeAntisymmetric(a: string, b: string)
    requires StrLe(a, b) && StrLe(b, a)
    ensures a == b
  {
    if a != [] && b != [] {
      StrLeAntisymmetric(a[1..], b[1..]);
      assert a == [a[0]] + a[1..] && b == [b[0]] + b[1..];
    }
  }

  // ---------------------------------------------------------------- orders on any type

  /** `le` is a total preorder: any two elements compare, and comparison chains. */
  ghost predicate TotalPreorder<T(!new)>(le: (T, T) -> bool)
  {
    && (forall x, y :: le(x, y) || le(y, x))
    && (forall x, y, z :: le(x, y) && le(y, z) ==> le(x, z))
  }

  predicate SortedBy<T>(s: seq<T>, le: (T, T) -> bool)
  {
    forall i, j :: 0 <= i < j < |s| ==> le(s[i], s[j])
  }

  // ---------------------------------------------------------------- stable insertion sort

  /** Puts `x` just after the last element of `s` that is `le` it: a later element goes
      after the earlier ones it ties with. */
  function Insert<T>(s: seq<T>, x: T, le: (T, T) -> bool): (r: seq<T>)
    ensures |r| == |s| + 1
  {
    if s == [] then [x]
    else if le(s[|s| - 1], x) then s + [x]
    else Insert(s[..|s| - 1], x, le) + [s[|s| - 1]]
  }

  /** The stable sort of `s` under `le`. */
  function InsertionSort<T>(s: seq<T>, le: (T, T) -> bool): (r: seq<T>)
    ensures |r| == |s|
  {
    if s == [] then [] else Insert(InsertionSort(s[..|s| - 1], le), s[|s| - 1], le)
  }

  lemma {:induction false} InsertMultiset<T>(s: seq<T>, x: T, le: (T, T) -> bool)
    ensures multiset(Insert(s, x, le)) == multiset(s) + multiset{x}
  {
    if s != [] && !le(s[|s| - 1], x) {
      InsertMultiset(s[..|s| - 1], x, le);
      assert s == s[..|s| - 1] + [s[|s| - 1]];
    }
  }

  /** Everything `Insert` returns is below a bound that `x` and all of `s` are below. */
  lemma {:induction false} InsertBounded<T>(s: seq<T>, x: T, b: T, le: (T, T) -> bool)
    requires forall k :: 0 <= k < |s| ==> le(s[k], b)
    requires le(x, b)
    ensures forall k :: 0 <= k < |s| + 1 ==> le(Insert(s, x, le)[k], b)
  {
    if s != [] && !le(s[|s| - 1], x) {
      InsertBounded(s[..|s| - 1], x, b, le);
    }
  }

  lemma {:induction false} InsertSorted<T(!new)>(s: seq<T>, x: T, le: (T, T) -> bool)
    requires TotalPreorder(le)
    requires SortedBy(s, le)
    ensures SortedBy(Insert(s, x, le), le)
  {
    if s != [] {
      var n := |s| - 1;
      if le(s[n], x) {
        var r := s + [x];
        forall i, j | 0 <= i < j < |r| ensures le(r[i], r[j]) {
          if j == n + 1 && i < n {
            assert le(s[i], s[n]);
          }
        }
      } else {
        var init := s[..n];
        InsertSorted(init, x, le);
        assert le(x, s[n]);
        InsertBounded(init, x, s[n], le);
        var r := Insert(init, x, le) + [s[n]];
        forall i, j | 0 <= i < j < |r| ensures le(r[i], r[j]) {
          if j < n + 1 {
            assert r[i] == Insert(init, x, le)[i] && r[j] == Insert(init, x, le)[j];
          }
        }
      }
    }
  }

  /** The stable sort is sorted. */
  lemma {:induction false} SortIsSorted<T(!new)>(s: seq<T>, le: (T, T) -> bool)
    requires TotalPreorder(le)
    ensures SortedBy(InsertionSort(s, le), le)
  {
    if s != [] {
      SortIsSorted(s[..|s| - 1], le);
      InsertSorted(InsertionSort(s[..|s| - 1], le), s[|s| - 1], le);
    }
  }

  /** The stable sort is a permutation of its input. */
  lemma {:induction false} SortIsPermutation<T>(s: seq<T>, le: (T, T) -> bool)
    ensures multiset(InsertionSort(s, le)) == multiset(s)
  {
    if s != [] {
      SortIsPermutation(s[..|s| - 1], le);
      InsertMultiset(InsertionSort(s[..|s| - 1], le), s[|s| - 1], le);
      assert s == s[..|s| - 1] + [s[|s| - 1]];
    }
  }

  // ---------------------------------------------------------------- stability

  /** The test "ranks equal to `x`". */
  function TiesWith<T>(x: T, le: (T, T) -> bool): T -> bool
  {
    y => le(x, y) && le(y, x)
  }

  /** The elements of `s` that rank equal to `x`, in their order in `s`. */
  function Ties<T>(s: seq<T>, x: T, le: (T, T) -> bool): seq<T>
  {
    Filter(s, TiesWith(x, le))
  }

  lemma {:induction false} InsertTies<T(!new)>(s: seq<T>, y: T, x: T, le: (T, T) -> bool)
    requires TotalPreorder(le)
    requires SortedBy(s, le)
    ensures Ties(Insert(s, y, le), x, le) == Ties(s, x, le) + Ties([y], x, le)
  {
    var p := TiesWith(x, le);
    if s == [] {
    } else {
      var n := |s| - 1;
      var init := s[..n];
      assert s == init + [s[n]];
      FilterAppend(init, [s[n]], p);
      if le(s[n], y) {
        FilterAppend(s, [y], p);
      } else {
        InsertTies(init, y, x, le);
        FilterAppend(Insert(init, y, le), [s[n]], p);
      }
    }
  }

  /** Stability: the elements that rank equal to any `x` keep their input order. */
  lemma {:induction false} SortIsStable<T(!new)>(s: seq<T>, x: T, le: (T, T) -> bool)
    requires TotalPreorder(le)
    ensures Ties(InsertionSort(s, le), x, le) == Ties(s, x, le)
  {
    if s != [] {
      var n := |s| - 1;
      var init := s[..n];
      SortIsStable(init, x, le);
      SortIsSorted(init, le);
      InsertTies(InsertionSort(init, le), s[n], x, le);
      assert s == init + [s[n]];
      FilterAppend(init, [s[n]], TiesWith(x, le));
    }
  }

  // ---------------------------------------------------------------- in-place sort

  /** `Insert` places `x` after the last element that is `le` it: right after position
      `j - 1` when everything from `j` on ranks above `x`. */
  lemma {:induction false} InsertAt<T>(sorted: seq<T>, x: T, j: nat, le: (T, T) -> bool)
    requires j <= |sorted|
    requires j == 0 || le(sorted[j - 1], x)
    requires forall k :: j <= k < |sorted| ==> !le(sorted[k], x)
    ensures Insert(sorted, x, le) == sorted[..j] + [x] + sorted[j..]
  {
    if j < |sorted| {
      var n := |sorted| - 1;
      InsertAt(sorted[..n], x, j, le);
      assert sorted[..n][..j] == sorted[..j];
      assert sorted[..n][j..] + [sorted[n]] == sorted[j..];
    } else {
      assert sorted[..j] == sorted;
    }
  }

  /** The array contents once `x` has been dropped into position `j`. */
  lemma Assembled<T>(s: seq<T>, sorted: seq<T>, rest: seq<T>, x: T, j: nat)
    requires j <= |sorted| && |s| == |sorted| + 1 + |rest|
    requires forall k :: 0 <= k < j ==> s[k] == sorted[k]
    requires s[j] == x
    requires forall k :: j < k <= |sorted| ==> s[k] == sorted[k - 1]
    requires forall k :: |sorted| < k < |s| ==> s[k] == rest[k - |sorted| - 1]
    ensures s[..|sorted| + 1] == sorted[..j] + [x] + sorted[j..]
    ensures s[|sorted| + 1..] == rest
  {
  }

  /** Moves `a[i]` left past the elements of the sorted prefix `a[..i]` that rank above it. */
  method InsertLast<T>(a: array<T>, i: nat, le: (T, T) -> bool)
    requires i < a.Length
    modifies a
    ensures a[..i + 1] == Insert(old(a[..i]), old(a[i]), le)
    ensures a[i + 1..] == old(a[i + 1..])
  {
    var x := a[i];
    ghost var sorted := a[..i];
    ghost var rest := a[i + 1..];
    var j := i;
    while j > 0 && !le(a[j - 1], x)
      invariant 0 <= j <= i
      invariant a[..j] == sorted[..j]
      invariant forall k :: j < k <= i ==> a[k] == sorted[k - 1]
      invariant a[i + 1..] == rest
      invariant forall k :: j <= k < i ==> !le(sorted[k], x)
    {
      a[j] := a[j - 1];
      j := j - 1;
    }
    a[j] := x;
    InsertAt(sorted, x, j, le);
    Assembled(a[..], sorted, rest, x, j);
  }

  /** `list.sort()` on the list held in `a`: an in-place insertion sort that leaves in `a`
      exactly the stable sort of what it held. */
  method SortInPlace<T>(a: array<T>, le: (T, T) -> bool)
    modifies a
    ensures a[..] == InsertionSort(old(a[..]), le)
  {
    ghost var s0 := a[..];
    var i := 0;
    while i < a.Length
      invariant 0 <= i <= a.Length
      invariant a[..i] == InsertionSort(s0[..i], le)
      invariant a[i..] == s0[i..]
    {
      assert a[i + 1..] == s0[i + 1..] && a[i] == s0[i];
      InsertLast(a, i, le);
      assert s0[..i + 1] == s0[..i] + [s0[i]];
      i := i + 1;
    }
    assert a[..] == a[..a.Length] && s0 == s0[..a.Length];
  }
}
