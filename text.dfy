/** The Python string operations the dashboard code relies on: `lower`/`upper` (ASCII
    letters only), the substring test `q in s`, `split(sep)` with a one-character
    separator, `strip()` with no arguments, and joining with a separator. */
module Text {

  // ---------------------------------------------------------------- case mapping

  function LowerChar(c: char): (r: char)
    ensures 'A' <= c <= 'Z' ==> r as int == c as int + 32
    ensures !('A' <= c <= 'Z') ==> r == c
  {
    if 'A' <= c <= 'Z' then (c as int + 32) as char else c
  }

  function UpperChar(c: char): char
  {
    if 'a' <= c <= 'z' then (c as int - 32) as char else c
  }

  /** `s.lower()`, with case folding restricted to ASCII letters. */
  function Lower(s: string): (r: string)
    ensures |r| == |s|
    ensures forall i :: 0 <= i < |s| ==> r[i] == LowerChar(s[i])
  {
    seq(|s|, i requires 0 <= i < |s| => LowerChar(s[i]))
  }

  /** `s.upper()`, with case folding restricted to ASCII letters. */
  function Upper(s: string): (r: string)
    ensures |r| == |s|
    ensures forall i :: 0 <= i < |s| ==> r[i] == UpperChar(s[i])
  {
    seq(|s|, i requires 0 <= i < |s| => UpperChar(s[i]))
  }

  /** Lower-casing forgets whether the string was upper-cased first. */
  lemma LowerOfUpper(s: string)
    ensures Lower(Upper(s)) == Lower(s)
  {
    forall i | 0 <= i < |s|
      ensures Lower(Upper(s))[i] == Lower(s)[i]
    {
      assert Upper(s)[i] == UpperChar(s[i]);
    }
  }

  lemma LowerIdempotent(s: string)
    ensures Lower(Lower(s)) == Lower(s)
  {
  }

  // ---------------------------------------------------------------- substring test

  predicate IsPrefix(p: string, s: string)
  {
    |p| <= |s| && s[..|p|] == p
  }

  /** Python's `needle in hay` for strings. */
  predicate Contains(needle: string, hay: string)
    decreases |hay|
  {
    IsPrefix(needle, hay) || (|hay| > 0 && Contains(needle, hay[1..]))
  }

  /** `needle` occurs in `hay` starting at offset `k`. */
  predicate OccursAt(needle: string, hay: string, k: nat)
  {
    k + |needle| <= |hay| && hay[k..k + |needle|] == needle
  }

  /** `Contains` holds exactly when the needle occurs at some offset of the hay. */
  lemma {:induction false} ContainsIffOccurs(needle: string, hay: string)
    ensures Contains(needle, hay) <==> exists k: nat :: OccursAt(needle, hay, k)
    decreases |hay|
  {
    if IsPrefix(needle, hay) {
      assert OccursAt(needle, hay, 0);
    } else if |hay| > 0 {
      ContainsIffOccurs(needle, hay[1..]);
      if Contains(needle, hay[1..]) {
        var k: nat :| OccursAt(needle, hay[1..], k);
        assert hay[k + 1..k + 1 + |needle|] == hay[1..][k..k + |needle|];
        assert OccursAt(needle, hay, k + 1);
      }
      if exists k: nat :: OccursAt(needle, hay, k) {
        var k: nat :| OccursAt(needle, hay, k);
        assert k != 0;
        assert hay[1..][k - 1..k - 1 + |needle|] == hay[k..k + |needle|];
        assert OccursAt(needle, hay[1..], k - 1);
      }
    } else {
      assert |needle| > 0;
    }
  }

  /** The empty string is a substring of every string. */
  lemma EmptyContained(hay: string)
    ensures Contains("", hay)
  {
  }

  // ---------------------------------------------------------------- split and join

  /** Number of occurrences of `c` in `s`. */
  function Count(s: string, c: char): nat
  {
    if s == [] then 0 else (if s[0] == c then 1 else 0) + Count(s[1..], c)
  }

  /** `s.split(c)`: the pieces between the separators, in order; empty pieces are kept
      and a string without the separator gives one piece. */
  function Split(s: string, c: char): (r: seq<string>)
    ensures |r| >= 1
  {
    if s == [] then [""]
    else
      var rest := Split(s[1..], c);
      if s[0] == c then [""] + rest else [[s[0]] + rest[0]] + rest[1..]
  }

  /** `c.join(parts)`. */
  function Join(parts: seq<string>, c: char): string
  {
    if parts == [] then ""
    else if |parts| == 1 then parts[0]
    else parts[0] + [c] + Join(parts[1..], c)
  }

  /** One piece more than there are separators. */
  lemma {:induction false} SplitCount(s: string, c: char)
    ensures |Split(s, c)| == Count(s, c) + 1
  {
    if s != [] {
      SplitCount(s[1..], c);
    }
  }

  /** Prepending a character to the first part prepends it to the joined string. */
  lemma JoinPrepend(x: char, parts: seq<string>, c: char)
    requires |parts| >= 1
    ensures Join([[x] + parts[0]] + parts[1..], c) == [x] + Join(parts, c)
  {
    var q := [[x] + parts[0]] + parts[1..];
    assert q[0] == [x] + parts[0] && q[1..] == parts[1..];
    if |parts| > 1 {
      assert Join(q, c) == ([x] + parts[0]) + [c] + Join(parts[1..], c);
      assert Join(parts, c) == parts[0] + [c] + Join(parts[1..], c);
    }
  }

  /** Joining the pieces with the separator gives the string back. */
  lemma {:induction false} JoinSplit(s: string, c: char)
    ensures Join(Split(s, c), c) == s
  {
    if s != [] {
      JoinSplit(s[1..], c);
      var rest := Split(s[1..], c);
      assert s == [s[0]] + s[1..];
      if s[0] == c {
        var parts := [""] + rest;
        assert Split(s, c) == parts;
        assert parts[0] == "" && parts[1..] == rest;
        assert Join(parts, c) == "" + [c] + Join(rest, c);
      } else {
        assert Split(s, c) == [[s[0]] + rest[0]] + rest[1..];
        JoinPrepend(s[0], rest, c);
      }
    }
  }

  /** No piece contains the separator. */
  lemma {:induction false} SplitPiecesFree(s: string, c: char)
    ensures forall k :: 0 <= k < |Split(s, c)| ==> c !in Split(s, c)[k]
  {
    if s != [] {
      SplitPiecesFree(s[1..], c);
    }
  }

  /** A string without the separator is one piece. */
  lemma {:induction false} SplitWithoutSeparator(s: string, c: char)
    requires c !in s
    ensures Split(s, c) == [s]
  {
    if s != [] {
      SplitWithoutSeparator(s[1..], c);
      assert s[0] != c;
      assert [s[0]] + s[1..] == s;
    }
  }

  /** The first piece runs up to the first separator; the rest is split on. */
  lemma {:induction false} SplitAtFirst(a: string, b: string, c: char)
    requires c !in a
    ensures Split(a + [c] + b, c) == [a] + Split(b, c)
  {
    if a == [] {
      assert a + [c] + b == [c] + b;
      assert ([c] + b)[1..] == b;
    } else {
      assert (a + [c] + b)[1..] == a[1..] + [c] + b;
      SplitAtFirst(a[1..], b, c);
      assert [a[0]] + a[1..] == a;
    }
  }

  /** Splitting a non-empty joined list of separator-free parts gives the parts back. */
  lemma {:induction false} SplitJoin(parts: seq<string>, c: char)
    requires |parts| >= 1
    requires forall k :: 0 <= k < |parts| ==> c !in parts[k]
    ensures Split(Join(parts, c), c) == parts
  {
    if |parts| == 1 {
      SplitWithoutSeparator(parts[0], c);
    } else {
      SplitJoin(parts[1..], c);
      SplitAtFirst(parts[0], Join(parts[1..], c), c);
      assert [parts[0]] + parts[1..] == parts;
    }
  }

  // ---------------------------------------------------------------- strip

  /** The characters Python 2's `unicode.strip()` removes (`Py_UNICODE_ISSPACE`). */
  predicate IsSpace(c: char)
  {
    var n := c as int;
    n == 0x20 || (0x09 <= n <= 0x0D) || (0x1C <= n <= 0x1F) || n == 0x85 || n == 0xA0
    || n == 0x1680 || n == 0x180E || (0x2000 <= n <= 0x200A) || n == 0x2028 || n == 0x2029
    || n == 0x202F || n == 0x205F || n == 0x3000
  }

  predicate AllSpace(s: string)
  {
    forall k :: 0 <= k < |s| ==> IsSpace(s[k])
  }

  /** How many whitespace characters `s` starts with. */
  function LeadingSpaces(s: string): (n: nat)
    ensures n <= |s|
    ensures forall k :: 0 <= k < n ==> IsSpace(s[k])
    ensures n < |s| ==> !IsSpace(s[n])
  {
    if |s| > 0 && IsSpace(s[0]) then
      var m := LeadingSpaces(s[1..]);
      assert forall k :: 1 <= k < m + 1 ==> s[k] == s[1..][k - 1];
      1 + m
    else 0
  }

  /** Where the whitespace that `s` ends with begins. */
  function TrailingStart(s: string): (m: nat)
    ensures m <= |s|
    ensures forall k :: m <= k < |s| ==> IsSpace(s[k])
    ensures m > 0 ==> !IsSpace(s[m - 1])
  {
    if |s| > 0 && IsSpace(s[|s| - 1]) then
      var m := TrailingStart(s[..|s| - 1]);
      assert forall k :: 0 <= k < |s| - 1 ==> s[k] == s[..|s| - 1][k];
      m
    else |s|
  }

  /** `s.strip()`: drops the leading, then the trailing whitespace. */
  function Strip(s: string): string
  {
    var i := LeadingSpaces(s);
    s[i..i + TrailingStart(s[i..])]
  }

  /** Strip removes only whitespace: what it leaves is an infix of `s` with nothing but
      whitespace on either side of it. */
  lemma {:induction false} StripIsInfix(s: string)
    ensures exists i, j :: 0 <= i <= j <= |s| && Strip(s) == s[i..j]
                           && (forall k :: 0 <= k < i ==> IsSpace(s[k]))
                           && (forall k :: j <= k < |s| ==> IsSpace(s[k]))
  {
    var i := LeadingSpaces(s);
    var t := s[i..];
    var m := TrailingStart(t);
    var j := i + m;
    assert Strip(s) == s[i..j];
    assert forall k :: j <= k < |s| ==> IsSpace(s[k]) by {
      forall k | j <= k < |s| ensures IsSpace(s[k]) {
        assert s[k] == t[k - i];
      }
    }
  }

  /** Strip removes all the whitespace at both ends. */
  lemma {:induction false} StripEnds(s: string)
    ensures Strip(s) == [] || (!IsSpace(Strip(s)[0]) && !IsSpace(Strip(s)[|Strip(s)| - 1]))
  {
    var t := s[LeadingSpaces(s)..];
    var m := TrailingStart(t);
    assert Strip(s) == t[..m];
    if m > 0 {
      assert Strip(s)[0] == t[0];
      assert Strip(s)[m - 1] == t[m - 1];
    }
  }
  /** Strip removes exactly the whitespace padding around a word that neither starts nor
      ends with whitespace. */
  lemma StripPadded(l: string, w: string, t: string)
    requires AllSpace(l) && AllSpace(t)
    requires w == [] || (!IsSpace(w[0]) && !IsSpace(w[|w| - 1]))
    ensures Strip(l + w + t) == w
  {
    var s := l + w + t;
    assert forall k :: 0 <= k < |l| ==> s[k] == l[k];
    assert forall k :: |l| + |w| <= k < |s| ==> s[k] == t[k - |l| - |w|];
    var i := LeadingSpaces(s);
    if w == [] {
      assert i == |s|;
    } else {
      assert s[|l|] == w[0];
      assert i == |l|;
      var u := s[i..];
      assert u == w + t;
      assert forall k :: |w| <= k < |u| ==> u[k] == t[k - |w|];
      var m := TrailingStart(u);
      assert u[|w| - 1] == w[|w| - 1];
      assert m == |w|;
      assert u[..m] == w;
    }
  }
}
