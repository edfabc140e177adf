/** Deterministic output from unordered collections: a strictly ascending enumeration of
    a finite set exists, is unique, and is what sorting any listing of it produces. */
module Ordering {

  ghost predicate StrictOrder<T(!new)>(less: (T, T) -> bool) {
    && (forall a :: !less(a, a))
    && (forall a, b, c :: less(a, b) && less(b, c) ==> less(a, c))
    && (forall a, b :: a == b || less(a, b) || less(b, a))
  }

  predicate Ascending<T>(less: (T, T) -> bool, xs: seq<T>) {
    forall i, j :: 0 <= i < j < |xs| ==> less(xs[i], xs[j])
  }

  predicate NoDuplicates<T(==)>(xs: seq<T>) {
    forall i, j :: 0 <= i < j < |xs| ==> xs[i] != xs[j]
  }

  function Insert<T(!new)>(less: (T, T) -> bool, xs: seq<T>, x: T): (ys: seq<T>)
    ensures |ys| == |xs| + 1
    ensures forall y :: y in ys <==> y == x || y in xs
  {
    if xs == [] || less(x, xs[0]) then [x] + xs
    else
      var ys := [xs[0]] + Insert(less, xs[1..], x);
      assert xs == [xs[0]] + xs[1..];
      ys
  }

  lemma {:induction false} InsertAscends<T(!new)>(less: (T, T) -> bool, xs: seq<T>, x: T)
    requires StrictOrder(less) && Ascending(less, xs) && x !in xs
    ensures Ascending(less, Insert(less, xs, x))
  {
    if xs != [] && !less(x, xs[0]) {
      var tail := Insert(less, xs[1..], x);
      InsertAscends(less, xs[1..], x);
      forall j | 0 <= j < |tail| ensures less(xs[0], tail[j]) {
        assert tail[j] in tail;
        if tail[j] != x {
          var i :| 0 <= i < |xs[1..]| && xs[1..][i] == tail[j];
          assert xs[i + 1] == tail[j];
        }
      }
    }
  }

  lemma {:induction false} AscendingUnique<T(!new)>(less: (T, T) -> bool, xs: seq<T>, ys: seq<T>)
    requires StrictOrder(less) && Ascending(less, xs) && Ascending(less, ys)
    requires forall x :: x in xs <==> x in ys
    ensures xs == ys
  {
    HasMember(xs);
    HasMember(ys);
    if xs != [] {
      FirstIsLeast(less, xs, ys[0]);
      FirstIsLeast(less, ys, xs[0]);
      assert xs[0] == ys[0];
      forall x ensures x in xs[1..] <==> x in ys[1..] {
        TailMembers(less, xs, x);
        TailMembers(less, ys, x);
      }
      AscendingUnique(less, xs[1..], ys[1..]);
    }
  }

  lemma HasMember<T>(xs: seq<T>)
    ensures xs == [] || xs[0] in xs
  {
  }

  lemma AscendingAppend<T(!new)>(less: (T, T) -> bool, xs: seq<T>, ys: seq<T>)
    requires Ascending(less, xs) && Ascending(less, ys)
    requires forall x <- xs, y <- ys :: less(x, y)
    ensures Ascending(less, xs + ys)
  {
  }

  lemma FirstIsLeast<T(!new)>(less: (T, T) -> bool, xs: seq<T>, x: T)
    requires StrictOrder(less) && Ascending(less, xs) && x in xs
    ensures x == xs[0] || less(xs[0], x)
  {
    var i :| 0 <= i < |xs| && xs[i] == x;
  }

  lemma TailMembers<T(!new)>(less: (T, T) -> bool, xs: seq<T>, x: T)
    requires StrictOrder(less) && Ascending(less, xs) && xs != []
    ensures x in xs[1..] <==> x in xs && x != xs[0]
  {
    assert xs == [xs[0]] + xs[1..];
    if x in xs[1..] {
      var i :| 0 <= i < |xs[1..]| && xs[1..][i] == x;
      assert less(xs[0], xs[i + 1]);
    }
  }

  /** The one ascending listing of a finite set. */
  ghost function Sorted<T(!new)>(less: (T, T) -> bool, s: set<T>): (xs: seq<T>)
    requires StrictOrder(less)
    ensures Ascending(less, xs) && |xs| == |s|
    ensures forall x :: x in xs <==> x in s
    decreases |s|
  {
    if s == {} then []
    else
      var x :| x in s;
      var rest := Sorted(less, s - {x});
      InsertAscends(less, rest, x);
      Insert(less, rest, x)
  }

  /** Sorting any duplicate-free listing yields that listing's set in its one order. */
  method Sort<T(!new)>(less: (T, T) -> bool, xs: seq<T>) returns (ys: seq<T>)
    requires StrictOrder(less) && NoDuplicates(xs)
    ensures ys == Sorted(less, set x | x in xs)
  {
    ys := [];
    for i := 0 to |xs|
      invariant Ascending(less, ys)
      invariant forall y :: y in ys <==> y in xs[..i]
    {
      assert xs[i] !in xs[..i];
      InsertAscends(less, ys, xs[i]);
      ys := Insert(less, ys, xs[i]);
      assert xs[..i + 1] == xs[..i] + [xs[i]];
    }
    assert xs[..|xs|] == xs;
    AscendingUnique(less, ys, Sorted(less, set x | x in xs));
  }

  // --- names ----------------------------------------------------------------

  /** Code-point lexicographic order on names. */
  predicate NameLess(a: string, b: string) {
    b != "" && (a == "" || a[0] < b[0] || (a[0] == b[0] && NameLess(a[1..], b[1..])))
  }

  /** They agree up to a place where the first ends or has the smaller character. */
  predicate Precedes(a: string, b: string) {
    exists k :: 0 <= k <= |a| && k < |b| && a[..k] == b[..k] && (k == |a| || a[k] < b[k])
  }

  lemma {:induction false} NameLessPrecedes(a: string, b: string)
    ensures NameLess(a, b) <==> Precedes(a, b)
    decreases |a|
  {
    if b != "" && (a == "" || a[0] < b[0]) {
      assert a[..0] == b[..0];
    } else if a != "" && b != "" && a[0] == b[0] {
      var x, y := a[1..], b[1..];
      NameLessPrecedes(x, y);
      if k :| 0 <= k <= |x| && k < |y| && x[..k] == y[..k] && (k == |x| || x[k] < y[k]) {
        assert a[..k + 1] == [a[0]] + x[..k] && b[..k + 1] == [b[0]] + y[..k];
      }
      if k :| 0 <= k <= |a| && k < |b| && a[..k] == b[..k] && (k == |a| || a[k] < b[k]) {
        assert k > 0;
        TailsAgree(a, b, k);
      }
    } else if k :| 0 <= k <= |a| && k < |b| && a[..k] == b[..k] && (k == |a| || a[k] < b[k]) {
      if k > 0 {
        HeadsAgree(a, b, k);
      }
    }
  }

  lemma TailsAgree(a: string, b: string, k: nat)
    requires 0 < k <= |a| && k <= |b| && a[..k] == b[..k]
    ensures a[1..][..k - 1] == b[1..][..k - 1]
  {
    assert a[1..][..k - 1] == a[..k][1..];
    assert b[1..][..k - 1] == b[..k][1..];
  }

  lemma HeadsAgree(a: string, b: string, k: nat)
    requires 0 < k <= |a| && k <= |b| && a[..k] == b[..k]
    ensures a[0] == b[0]
  {
    assert a[..k][0] == b[..k][0];
  }

  lemma {:induction false} NameLessTotal(a: string, b: string)
    ensures !NameLess(a, a)
    ensures a == b || NameLess(a, b) || NameLess(b, a)
    decreases |a|
  {
    if a != "" {
      NameLessTotal(a[1..], if b != "" then b[1..] else "");
      if b != "" && a[0] == b[0] {
        assert a == [a[0]] + a[1..] && b == [b[0]] + b[1..];
      }
    }
  }

  lemma {:induction false} NameLessTransitive(a: string, b: string, c: string)
    requires NameLess(a, b) && NameLess(b, c)
    ensures NameLess(a, c)
    decreases |a|
  {
    if a != "" && a[0] == b[0] == c[0] {
      NameLessTransitive(a[1..], b[1..], c[1..]);
    }
  }
}
