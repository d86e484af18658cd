/**
 * The two orders in which video paths are sorted, and Python's stable
 * in-place `list.sort` over them.
 *
 * `list.sort()` compares strings code point by code point;
 * `list.sort(key=os.path.getmtime)` compares modification times. The sort
 * is stable, so paths with the same key keep their listing order. The
 * specification is insertion sort on sequences; `SortInPlace` runs it on
 * an array.
 */
module Ordering {

  /** Python's `<` on `str`: lexicographic by code point, a proper prefix first. */
  predicate StrLess(a: string, b: string)
    decreases |a|
  {
    if a == [] then b != []
    else if b == [] then false
    else a[0] < b[0] || (a[0] == b[0] && StrLess(a[1..], b[1..]))
  }

  lemma {:induction false} StrLessIrreflexive(a: string)
    ensures !StrLess(a, a)
    decreases |a|
  {
    if a != [] { StrLessIrreflexive(a[1..]); }
  }

  lemma {:induction false} StrLessTransitive(a: string, b: string, c: string)
    requires StrLess(a, b) && StrLess(b, c)
    ensures StrLess(a, c)
    decreases |a|
  {
    if a != [] && b != [] && c != [] && a[0] == b[0] == c[0] {
      StrLessTransitive(a[1..], b[1..], c[1..]);
    }
  }

  lemma {:induction false} StrLessTotal(a: string, b: string)
    ensures a == b || StrLess(a, b) || StrLess(b, a)
    decreases |a|
  {
    if a != [] && b != [] && a[0] == b[0] {
      StrLessTotal(a[1..], b[1..]);
      if a[1..] == b[1..] {
        assert a == [a[0]] + a[1..] && b == [b[0]] + b[1..];
      }
    }
  }

  /** The sort key: the path itself, or its modification time. */
  datatype SortKey = ByName | ByTime(mtime: map<string, real>)

  /** A path whose key can be computed. */
  predicate Known(k: SortKey, p: string)
  {
    k.ByTime? ==> p in k.mtime
  }

  predicate AllKnown(k: SortKey, s: seq<string>)
  {
    forall i :: 0 <= i < |s| ==> Known(k, s[i])
  }

  /** `x` sorts strictly before `y`. */
  predicate Before(k: SortKey, x: string, y: string)
  {
    match k
    case ByName => StrLess(x, y)
    case ByTime(m) => x in m && y in m && m[x] < m[y]
  }

  /** Neither sorts before the other: same path, or same modification time. */
  predicate Equiv(k: SortKey, x: string, y: string)
  {
    !Before(k, x, y) && !Before(k, y, x)
  }

  lemma BeforeAsymmetric(k: SortKey, x: string, y: string)
    ensures Before(k, x, y) ==> !Before(k, y, x)
  {
    if k.ByName? && StrLess(x, y) && StrLess(y, x) {
      StrLessTransitive(x, y, x);
      StrLessIrreflexive(x);
    }
  }

  lemma EquivReflexive(k: SortKey, x: string)
    ensures Equiv(k, x, x)
  {
    if k.ByName? { StrLessIrreflexive(x); }
  }

  /** If `x` is before `z`, any known `y` is after `x` or before `z`. */
  lemma BeforeSplits(k: SortKey, x: string, y: string, z: string)
    requires Known(k, y)
    ensures Before(k, x, z) ==> Before(k, x, y) || Before(k, y, z)
  {
    if k.ByName? && StrLess(x, z) && !StrLess(x, y) {
      StrLessTotal(x, y);
      if y != x { StrLessTransitive(y, x, z); }
    }
  }

  lemma EquivTransitive(k: SortKey, x: string, y: string, z: string)
    requires Known(k, y)
    requires Equiv(k, x, y) && Equiv(k, y, z)
    ensures Equiv(k, x, z)
  {
    BeforeSplits(k, x, y, z);
    BeforeSplits(k, z, y, x);
  }

  /** Ascending: no element sorts before an earlier one. */
  predicate Sorted(k: SortKey, s: seq<string>)
  {
    forall i, j :: 0 <= i < j < |s| ==> !Before(k, s[j], s[i])
  }

  /** The elements of `s` that share `x`'s key, in the order of `s`. */
  function Class(k: SortKey, s: seq<string>, x: string): (c: seq<string>)
    ensures |c| <= |s|
    decreases |s|
  {
    if s == [] then []
    else Class(k, s[..|s| - 1], x) + (if Equiv(k, s[|s| - 1], x) then [s[|s| - 1]] else [])
  }

  /** Every group of equal keys appears in `r` in the same order as in `s`. */
  ghost predicate SameClasses(k: SortKey, r: seq<string>, s: seq<string>)
  {
    forall y :: Known(k, y) ==> Class(k, r, y) == Class(k, s, y)
  }

  /** Insert `x` into sorted `t`, after every element that does not sort after `x`. */
  function Insert(k: SortKey, x: string, t: seq<string>): (r: seq<string>)
    decreases |t|
  {
    if t == [] then [x]
    else if Before(k, x, t[|t| - 1]) then Insert(k, x, t[..|t| - 1]) + [t[|t| - 1]]
    else t + [x]
  }

  /** Stable insertion sort, taking the elements in listing order. */
  function Sort(k: SortKey, s: seq<string>): (r: seq<string>)
    decreases |s|
  {
    if s == [] then [] else Insert(k, s[|s| - 1], Sort(k, s[..|s| - 1]))
  }

  lemma {:induction false} InsertPermutes(k: SortKey, x: string, t: seq<string>)
    ensures multiset(Insert(k, x, t)) == multiset(t) + multiset{x}
    decreases |t|
  {
    if t != [] && Before(k, x, t[|t| - 1]) {
      InsertPermutes(k, x, t[..|t| - 1]);
      assert t == t[..|t| - 1] + [t[|t| - 1]];
    }
  }

  lemma {:induction false} InsertSorted(k: SortKey, x: string, t: seq<string>)
    requires Known(k, x) && AllKnown(k, t) && Sorted(k, t)
    ensures Sorted(k, Insert(k, x, t))
    decreases |t|
  {
    if t != [] {
      if Before(k, x, t[|t| - 1]) {
        InsertSorted(k, x, t[..|t| - 1]);
        InsertBelowLast(k, x, t);
      } else {
        AppendAfterLast(k, x, t);
      }
    }
  }

  /** Inserting below the last element: the recursive result stays below it. */
  lemma InsertBelowLast(k: SortKey, x: string, t: seq<string>)
    requires t != [] && Before(k, x, t[|t| - 1]) && Sorted(k, t)
    requires Sorted(k, Insert(k, x, t[..|t| - 1]))
    ensures Sorted(k, Insert(k, x, t))
  {
    var last := t[|t| - 1];
    InsertPermutes(k, x, t[..|t| - 1]);
    var r := Insert(k, x, t[..|t| - 1]);
    forall i | 0 <= i < |r| ensures !Before(k, last, r[i]) {
      assert r[i] in multiset(r);
      if r[i] == x {
        BeforeAsymmetric(k, x, last);
      } else {
        assert r[i] in multiset(t[..|t| - 1]);
        var j :| 0 <= j < |t| - 1 && t[j] == r[i];
      }
    }
    assert Insert(k, x, t) == r + [last];
  }

  /** Appending an element that no element sorts after keeps the order. */
  lemma AppendAfterLast(k: SortKey, x: string, t: seq<string>)
    requires t != [] && !Before(k, x, t[|t| - 1]) && AllKnown(k, t) && Sorted(k, t)
    ensures Sorted(k, t + [x])
  {
    var last := t[|t| - 1];
    forall i | 0 <= i < |t| ensures !Before(k, x, t[i]) {
      if i < |t| - 1 { BeforeSplits(k, x, last, t[i]); }
    }
  }

  /** The group of `y` in a sequence extended by `e` gains `e` when `e` is equivalent to `y`. */
  lemma ClassSnoc(k: SortKey, s: seq<string>, e: string, y: string)
    ensures Class(k, s + [e], y) == Class(k, s, y) + (if Equiv(k, e, y) then [e] else [])
  {
    assert (s + [e])[..|s|] == s;
  }

  /** The element put back after the recursive insertion is never in the same group as `x`. */
  lemma InsertClassPastLast(k: SortKey, x: string, t: seq<string>, y: string)
    requires t != [] && Known(k, y) && Before(k, x, t[|t| - 1])
    requires Class(k, Insert(k, x, t[..|t| - 1]), y) == Class(k, t[..|t| - 1], y) + (if Equiv(k, x, y) then [x] else [])
    ensures Class(k, Insert(k, x, t), y) == Class(k, t, y) + (if Equiv(k, x, y) then [x] else [])
  {
    var init, last := t[..|t| - 1], t[|t| - 1];
    InsertPastClass(k, x, t, y);
    GroupsCommute(k, x, last, y);
    SwapTail(Class(k, init, y), Class(k, Insert(k, x, init), y), Class(k, t, y), Class(k, Insert(k, x, t), y),
      if Equiv(k, x, y) then [x] else [], if Equiv(k, last, y) then [last] else []);
  }

  /** Inserting past the last element puts it back at the end, and its group with it. */
  lemma InsertPastClass(k: SortKey, x: string, t: seq<string>, y: string)
    requires t != [] && Before(k, x, t[|t| - 1])
    ensures Class(k, Insert(k, x, t), y)
      == Class(k, Insert(k, x, t[..|t| - 1]), y) + (if Equiv(k, t[|t| - 1], y) then [t[|t| - 1]] else [])
  {
    ClassSnoc(k, Insert(k, x, t[..|t| - 1]), t[|t| - 1], y);
  }

  /** `x` sorts before `e`, so at most one of them shares `y`'s key. */
  lemma GroupsCommute(k: SortKey, x: string, e: string, y: string)
    requires Known(k, y) && Before(k, x, e)
    ensures (if Equiv(k, x, y) then [x] else []) + (if Equiv(k, e, y) then [e] else [])
         == (if Equiv(k, e, y) then [e] else []) + (if Equiv(k, x, y) then [x] else [])
  {
    if Equiv(k, x, y) && Equiv(k, e, y) {
      EquivTransitive(k, x, y, e);
    }
  }

  /** Sequence bookkeeping for `InsertClassPastLast`, kept apart from `Class`. */
  lemma SwapTail(c: seq<string>, cr: seq<string>, ct: seq<string>, ci: seq<string>, ofX: seq<string>, ofLast: seq<string>)
    requires ci == cr + ofLast && cr == c + ofX && ct == c + ofLast
    requires ofX + ofLast == ofLast + ofX
    ensures ci == ct + ofX
  {
    calc {
      ci;
      (c + ofX) + ofLast;
      c + (ofX + ofLast);
      c + (ofLast + ofX);
      (c + ofLast) + ofX;
    }
  }

  lemma {:induction false} InsertClass(k: SortKey, x: string, t: seq<string>, y: string)
    requires Known(k, y)
    ensures Class(k, Insert(k, x, t), y) == Class(k, t, y) + (if Equiv(k, x, y) then [x] else [])
    decreases |t|
  {
    if t == [] {
      ClassSnoc(k, [], x, y);
      assert [] + [x] == [x];
    } else if Before(k, x, t[|t| - 1]) {
      InsertClass(k, x, t[..|t| - 1], y);
      InsertClassPastLast(k, x, t, y);
    } else {
      ClassSnoc(k, t, x, y);
    }
  }

  /** A rearrangement of paths whose keys are known has known keys. */
  lemma KnownByMultiset(k: SortKey, s: seq<string>, t: seq<string>)
    requires AllKnown(k, s) && multiset(t) == multiset(s)
    ensures AllKnown(k, t)
  {
    forall i | 0 <= i < |t| ensures Known(k, t[i]) {
      assert t[i] in multiset(s);
    }
  }

  /** The specification of the sort: ascending, a permutation, and stable. */
  lemma {:induction false} SortCorrect(k: SortKey, s: seq<string>)
    requires AllKnown(k, s)
    ensures Sorted(k, Sort(k, s))
    ensures multiset(Sort(k, s)) == multiset(s)
    ensures SameClasses(k, Sort(k, s), s)
    decreases |s|
  {
    if s != [] {
      var init, last := s[..|s| - 1], s[|s| - 1];
      SortCorrect(k, init);
      var t := Sort(k, init);
      KnownByMultiset(k, init, t);
      InsertSorted(k, last, t);
      InsertPermutes(k, last, t);
      assert s == init + [last];
      InsertKeepsClasses(k, last, t, init);
    }
  }

  /** Inserting `x` into a sequence grouped like `u` groups it like `u + [x]`. */
  lemma InsertKeepsClasses(k: SortKey, x: string, t: seq<string>, u: seq<string>)
    requires SameClasses(k, t, u)
    ensures SameClasses(k, Insert(k, x, t), u + [x])
  {
    forall y | Known(k, y) ensures Class(k, Insert(k, x, t), y) == Class(k, u + [x], y) {
      InsertClass(k, x, t, y);
      ClassSnoc(k, u, x, y);
    }
  }

  lemma {:induction false} ClassMembers(k: SortKey, s: seq<string>, y: string, x: string)
    requires x in Class(k, s, y)
    ensures x in s && Equiv(k, x, y)
    decreases |s|
  {
    if x !in Class(k, s[..|s| - 1], y) {
    } else {
      ClassMembers(k, s[..|s| - 1], y, x);
    }
  }

  /** The last element of a sorted sequence sorts before none of its elements. */
  lemma LastIsGreatest(k: SortKey, r: seq<string>, x: string)
    requires Sorted(k, r) && x in r
    ensures !Before(k, r[|r| - 1], x)
  {
    var j :| 0 <= j < |r| && r[j] == x;
    if j == |r| - 1 {
      BeforeAsymmetric(k, x, x);
    }
  }

  /** A sequence whose last element shares `y`'s key has that element last in `y`'s group. */
  lemma ClassEndsWithLast(k: SortKey, r: seq<string>, y: string)
    requires r != [] && Equiv(k, r[|r| - 1], y)
    ensures var c := Class(k, r, y); c != [] && c[|c| - 1] == r[|r| - 1]
  {
  }

  /** Two sorted sequences with equal groups end with the same element. */
  lemma LastsAgree(k: SortKey, r1: seq<string>, r2: seq<string>)
    requires AllKnown(k, r1) && AllKnown(k, r2)
    requires Sorted(k, r1) && Sorted(k, r2) && r1 != [] && r2 != []
    requires SameClasses(k, r1, r2)
    ensures r1[|r1| - 1] == r2[|r2| - 1]
  {
    var a, b := r1[|r1| - 1], r2[|r2| - 1];
    assert Known(k, a) && Known(k, b);
    EquivReflexive(k, a);
    EquivReflexive(k, b);
    ClassEndsWithLast(k, r1, a);
    ClassEndsWithLast(k, r2, b);
    ClassMembers(k, r2, a, a);
    ClassMembers(k, r1, b, b);
    LastIsGreatest(k, r2, a);
    LastIsGreatest(k, r1, b);
    ClassEndsWithLast(k, r2, a);
  }

  /** Removing the same last element from two sequences with equal groups keeps their groups equal. */
  lemma DropLastKeepsClasses(k: SortKey, r1: seq<string>, r2: seq<string>)
    requires r1 != [] && r2 != [] && r1[|r1| - 1] == r2[|r2| - 1]
    requires SameClasses(k, r1, r2)
    ensures SameClasses(k, r1[..|r1| - 1], r2[..|r2| - 1])
  {
    var a := r1[|r1| - 1];
    forall y | Known(k, y) ensures Class(k, r1[..|r1| - 1], y) == Class(k, r2[..|r2| - 1], y) {
      var tail := if Equiv(k, a, y) then [a] else [];
      var c1, c2 := Class(k, r1[..|r1| - 1], y), Class(k, r2[..|r2| - 1], y);
      assert Class(k, r1, y) == c1 + tail;
      assert Class(k, r2, y) == c2 + tail;
      assert (c1 + tail)[..|c1|] == c1;
      assert (c2 + tail)[..|c2|] == c2;
    }
  }

  /**
   * A stable sort has only one possible result: two sorted sequences of
   * one length with the same groups of equal keys are equal. Hence any
   * stable sort, Python's included, agrees with `Sort`.
   */
  lemma {:induction false} StableSortUnique(k: SortKey, r1: seq<string>, r2: seq<string>)
    requires AllKnown(k, r1) && AllKnown(k, r2)
    requires Sorted(k, r1) && Sorted(k, r2) && |r1| == |r2|
    requires SameClasses(k, r1, r2)
    ensures r1 == r2
    decreases |r1| + |r2|
  {
    if r1 != [] {
      LastsAgree(k, r1, r2);
      DropLastKeepsClasses(k, r1, r2);
      var i1, i2 := r1[..|r1| - 1], r2[..|r2| - 1];
      InitKeepsOrder(k, r1);
      InitKeepsOrder(k, r2);
      StableSortUnique(k, i1, i2);
      assert r1 == i1 + [r1[|r1| - 1]] && r2 == i2 + [r2[|r2| - 1]];
    }
  }

  /** Dropping the last element keeps a sorted sequence of known keys so. */
  lemma InitKeepsOrder(k: SortKey, r: seq<string>)
    requires r != [] && AllKnown(k, r) && Sorted(k, r)
    ensures AllKnown(k, r[..|r| - 1]) && Sorted(k, r[..|r| - 1])
  {
  }

  /** Sorted, stable and a permutation of the input: that is exactly `Sort`. */
  lemma StableSortIsSort(k: SortKey, s: seq<string>, r: seq<string>)
    requires AllKnown(k, s)
    requires multiset(r) == multiset(s)
    requires Sorted(k, r)
    requires SameClasses(k, r, s)
    ensures r == Sort(k, s)
  {
    SortCorrect(k, s);
    var t := Sort(k, s);
    KnownByMultiset(k, s, r);
    KnownByMultiset(k, s, t);
    assert |r| == |t| by {
      assert |multiset(r)| == |multiset(t)|;
    }
    StableSortUnique(k, r, t);
  }

  /** One step of the shifting loop: moving past `t[j - 1]`, which sorts after `x`. */
  lemma InsertShift(k: SortKey, x: string, t: seq<string>, j: int)
    requires 0 < j <= |t| && Before(k, x, t[j - 1])
    ensures Insert(k, x, t[..j]) + t[j..] == Insert(k, x, t[..j - 1]) + t[j - 1..]
  {
    assert t[..j][..j - 1] == t[..j - 1];
  }

  /**
   * Insertion of `a[i]` into the sorted prefix `a[..i]`, shifting larger
   * elements one place right.
   */
  method InsertLast(a: array<string>, i: int, k: SortKey)
    requires 0 <= i < a.Length
    modifies a
    ensures a[..i + 1] == Insert(k, old(a[i]), old(a[..i]))
    ensures a[i + 1..] == old(a[i + 1..])
  {
    ghost var t := a[..i];
    ghost var before := a[..];
    var x := a[i];
    var j := i;
    assert t[..i] == t && t[i..] == [];
    while j > 0 && Before(k, x, a[j - 1])
      invariant 0 <= j <= i
      invariant forall m :: 0 <= m < j ==> a[m] == t[m]
      invariant forall m :: j < m <= i ==> a[m] == t[m - 1]
      invariant forall m :: i < m < a.Length ==> a[m] == before[m]
      invariant Insert(k, x, t) == Insert(k, x, t[..j]) + t[j..]
    {
      InsertShift(k, x, t, j);
      a[j] := a[j - 1];
      j := j - 1;
    }
    a[j] := x;
    InsertStops(k, x, t, j);
    Shifted(a[..i + 1], t, j, x);
    SameSuffix(a[..], before, i + 1);
  }

  /** Where the shifting stops, `x` goes in and the rest follows unchanged. */
  lemma InsertStops(k: SortKey, x: string, t: seq<string>, j: int)
    requires 0 <= j <= |t| && (j == 0 || !Before(k, x, t[j - 1]))
    ensures Insert(k, x, t[..j]) == t[..j] + [x]
  {
    if j > 0 {
      assert t[..j][..j - 1] == t[..j - 1];
    }
  }

  /** Two sequences that agree from `n` on have equal suffixes from `n`. */
  lemma SameSuffix(s: seq<string>, u: seq<string>, n: int)
    requires |s| == |u| && 0 <= n <= |s|
    requires forall m :: n <= m < |s| ==> s[m] == u[m]
    ensures s[n..] == u[n..]
  {
  }

  /** The array after the loop: the prefix, then `x`, then the shifted rest. */
  lemma Shifted(s: seq<string>, t: seq<string>, j: int, x: string)
    requires |s| == |t| + 1 && 0 <= j <= |t|
    requires forall m :: 0 <= m < j ==> s[m] == t[m]
    requires s[j] == x
    requires forall m :: j < m < |s| ==> s[m] == t[m - 1]
    ensures s == t[..j] + [x] + t[j..]
  {
  }

  /**
   * `list.sort` on an array of paths: afterwards the array holds the
   * stable sort of what it held before.
   */
  method SortInPlace(a: array<string>, k: SortKey)
    modifies a
    ensures a[..] == Sort(k, old(a[..]))
  {
    var i := 0;
    while i < a.Length
      invariant 0 <= i <= a.Length
      invariant a[..i] == Sort(k, old(a[..i]))
      invariant a[i..] == old(a[i..])
    {
      InsertLast(a, i, k);
      assert old(a[..i + 1]) == old(a[..i]) + [old(a[i])];
      i := i + 1;
    }
    assert a[..] == a[..a.Length] && old(a[..]) == old(a[..a.Length]);
  }
}
