// Sorting by a strict total order, as Go's sort package does it, and Go's order on strings.
module Sorting {

  ghost predicate IsTotal<T(!new)>(before: (T, T) -> bool) {
    && (forall a, b :: before(a, b) ==> !before(b, a))
    && (forall a, b :: a != b ==> before(a, b) || before(b, a))
    && forall a, b, c :: before(a, b) && before(b, c) ==> before(a, c)
  }

  ghost predicate Sorted<T>(before: (T, T) -> bool, s: seq<T>) {
    forall i, j :: 0 <= i < j < |s| ==> before(s[i], s[j])
  }

  function Insert<T(==,!new)>(before: (T, T) -> bool, s: seq<T>, x: T): (r: seq<T>)
    ensures |r| == |s| + 1
    ensures forall k :: k in r <==> k in s || k == x
    decreases |s|
  {
    if s == [] || before(s[|s| - 1], x) then s + [x]
    else Insert(before, s[..|s| - 1], x) + [s[|s| - 1]]
  }

  function Sort<T(==,!new)>(before: (T, T) -> bool, s: seq<T>): (r: seq<T>)
    ensures |r| == |s|
    ensures forall k :: k in r <==> k in s
    decreases |s|
  {
    if s == [] then []
    else
      var r := Insert(before, Sort(before, s[..|s| - 1]), s[|s| - 1]);
      assert s == s[..|s| - 1] + [s[|s| - 1]];
      r
  }

  predicate Distinct<T(==)>(s: seq<T>) {
    forall i, j :: 0 <= i < j < |s| ==> s[i] != s[j]
  }

  lemma {:induction false} InsertSorted<T(!new)>(before: (T, T) -> bool, s: seq<T>, x: T)
    requires IsTotal(before) && Sorted(before, s) && x !in s
    ensures Sorted(before, Insert(before, s, x))
    decreases |s|
  {
    if s != [] {
      var m := |s| - 1;
      if before(s[m], x) {
        assert forall a :: 0 <= a < m ==> before(s[a], s[m]);
      } else {
        InsertSorted(before, s[..m], x);
        var r := Insert(before, s[..m], x);
        forall a | 0 <= a < |r|
          ensures before(r[a], s[m])
        {
          assert r[a] in s[..m] || r[a] == x;
        }
      }
    }
  }

  lemma {:induction false} SortSorts<T(!new)>(before: (T, T) -> bool, s: seq<T>)
    requires IsTotal(before) && Distinct(s)
    ensures Sorted(before, Sort(before, s))
    decreases |s|
  {
    hide Insert, IsTotal;
    if s != [] {
      var m := |s| - 1;
      SortSorts(before, s[..m]);
      InsertSorted(before, Sort(before, s[..m]), s[m]);
    }
  }

  // There is one way to sort a set of elements.
  lemma {:induction false} SortedUnique<T(!new)>(before: (T, T) -> bool, a: seq<T>, b: seq<T>)
    requires IsTotal(before) && Sorted(before, a) && Sorted(before, b)
    requires forall x :: x in a <==> x in b
    ensures a == b
    decreases |a|
  {
    assert b != [] ==> b[0] in a;
    if a != [] {
      assert a[0] in b && b[0] in a;
      FirstIsLeast(before, a, b[0]);
      FirstIsLeast(before, b, a[0]);
      RestOf(before, a);
      RestOf(before, b);
      SortedUnique(before, a[1..], b[1..]);
      assert a == [a[0]] + a[1..] && b == [b[0]] + b[1..];
    }
  }

  lemma FirstIsLeast<T(!new)>(before: (T, T) -> bool, s: seq<T>, x: T)
    requires IsTotal(before) && Sorted(before, s) && x in s
    ensures s[0] == x || (before(s[0], x) && !before(x, s[0]))
  {
    var k :| 0 <= k < |s| && s[k] == x;
  }

  lemma RestOf<T(!new)>(before: (T, T) -> bool, s: seq<T>)
    requires IsTotal(before) && Sorted(before, s) && s != []
    ensures Sorted(before, s[1..]) && forall x :: x in s[1..] <==> x in s && x != s[0]
  {
    assert s == [s[0]] + s[1..];
    assert forall k :: 0 <= k < |s| - 1 ==> s[1..][k] == s[k + 1] && before(s[0], s[k + 1]);
  }

  // ---------------------------------------------------------------------------
  // Strings

  // Go's < on strings.
  predicate StringLess(a: string, b: string) {
    if b == "" then false
    else if a == "" then true
    else if a[0] != b[0] then a[0] < b[0]
    else StringLess(a[1..], b[1..])
  }

  lemma {:induction false} StringLessAsymmetric(a: string, b: string)
    ensures StringLess(a, b) ==> !StringLess(b, a)
  {
    if a != "" && b != "" {
      StringLessAsymmetric(a[1..], b[1..]);
    }
  }

  lemma {:induction false} StringLessConnected(a: string, b: string)
    ensures StringLess(a, b) || StringLess(b, a) || a == b
  {
    if a != "" && b != "" {
      StringLessConnected(a[1..], b[1..]);
      assert a == [a[0]] + a[1..] && b == [b[0]] + b[1..];
    }
  }

  lemma {:induction false} StringLessTransitive(a: string, b: string, c: string)
    ensures StringLess(a, b) && StringLess(b, c) ==> StringLess(a, c)
  {
    if a != "" && b != "" && c != "" {
      StringLessTransitive(a[1..], b[1..], c[1..]);
    }
  }

  predicate StringBelowAt(a: string, b: string, k: nat) {
    k <= |a| && k < |b| && (forall i :: 0 <= i < k ==> a[i] == b[i]) && (k == |a| || a[k] < b[k])
  }

  // a is a proper prefix of b, or has the smaller character where they first differ.
  ghost predicate StringBelow(a: string, b: string) {
    exists k: nat :: StringBelowAt(a, b, k)
  }

  lemma BelowInTail(a: string, b: string, k: nat)
    requires a != "" && b != "" && a[0] == b[0]
    ensures StringBelowAt(a[1..], b[1..], k) <==> StringBelowAt(a, b, k + 1)
  {
    assert forall i :: 0 < i <= k && i < |a| ==> a[i] == a[1..][i - 1];
    assert forall i :: 0 < i <= k && i < |b| ==> b[i] == b[1..][i - 1];
    if StringBelowAt(a, b, k + 1) {
      forall i | 0 <= i < k
        ensures a[1..][i] == b[1..][i]
      {
        assert a[i + 1] == b[i + 1];
      }
    }
  }

  lemma {:induction false} StringLessIff(a: string, b: string)
    ensures StringLess(a, b) <==> StringBelow(a, b)
  {
    if a != "" && b != "" && a[0] == b[0] {
      hide StringBelowAt;
      StringLessIff(a[1..], b[1..]);
      if StringBelow(a[1..], b[1..]) {
        var k: nat :| StringBelowAt(a[1..], b[1..], k);
        BelowInTail(a, b, k);
      }
      if StringBelow(a, b) {
        var k: nat :| StringBelowAt(a, b, k);
        AlikeAtFirst(a, b, k);
        BelowInTail(a, b, k - 1);
      }
    } else if StringLess(a, b) {
      assert StringBelowAt(a, b, 0);
    }
  }

  lemma AlikeAtFirst(a: string, b: string, k: nat)
    requires a != "" && b != "" && a[0] == b[0] && StringBelowAt(a, b, k)
    ensures k > 0
  {
  }
}
