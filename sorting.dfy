/** The stable in-place sort the search route applies with
    `Array.prototype.sort` and a comparator (app/api/search/route.ts). The
    language requires the sort to be stable; with a consistent comparator a
    stable sort has one possible outcome, and insertion sort is the
    reference definition of it used here. */
module Sorting {
  import opened Base

  /** A comparator in the sense of `Array.prototype.sort`: negative when
      the first argument goes first, positive when it goes second, zero
      when the two are equivalent and keep their order. */
  type Comparator<-T> = (T, T) -> real

  /** `cmp` is consistent: swapping the arguments flips the sign, and
      "goes no later than" is transitive. */
  ghost predicate Consistent<T(!new)>(cmp: Comparator<T>)
  {
    (forall x, y :: cmp(x, y) > 0.0 <==> cmp(y, x) < 0.0)
    && (forall x, y, z :: cmp(x, y) <= 0.0 && cmp(y, z) <= 0.0 ==> cmp(x, z) <= 0.0)
  }

  /** No element goes after a later one. */
  ghost predicate Sorted<T>(s: seq<T>, cmp: Comparator<T>)
  {
    forall i, j :: 0 <= i < j < |s| ==> cmp(s[i], s[j]) <= 0.0
  }

  /** `x` placed into `s` after the last element that does not go after it:
      one step of insertion sort. */
  function Insert<T>(s: seq<T>, x: T, cmp: Comparator<T>): (r: seq<T>)
    ensures |r| == |s| + 1
  {
    if s == [] || cmp(s[|s| - 1], x) <= 0.0 then s + [x]
    else Insert(s[..|s| - 1], x, cmp) + [s[|s| - 1]]
  }

  /** The reference stable sort. */
  function InsertionSort<T>(s: seq<T>, cmp: Comparator<T>): (r: seq<T>)
    ensures |r| == |s|
  {
    if s == [] then []
    else Insert(InsertionSort(s[..|s| - 1], cmp), s[|s| - 1], cmp)
  }

  /** In-place insertion sort of `a`, the model of `a.sort(cmp)`. */
  method SortInPlace<T>(a: array<T>, cmp: Comparator<T>)
    modifies a
    ensures a[..] == InsertionSort(old(a[..]), cmp)
  {
    var i := 0;
    while i < a.Length
      invariant 0 <= i <= a.Length
      invariant a[..i] == InsertionSort(old(a[..i]), cmp)
      invariant a[i..] == old(a[i..])
    {
      InsertLast(a, i, cmp);
      assert a[i + 1..] == old(a[i + 1..]);
      assert old(a[..i + 1])[..i] == old(a[..i]);
      i := i + 1;
    }
    assert a[..] == a[..a.Length];
    assert old(a[..]) == old(a[..a.Length]);
  }

  /** Moves `a[i]` left past the elements of `a[..i]` that go after it. */
  method InsertLast<T>(a: array<T>, i: int, cmp: Comparator<T>)
    requires 0 <= i < a.Length
    modifies a
    ensures a[..i + 1] == Insert(old(a[..i]), old(a[i]), cmp)
    ensures a[i + 1..] == old(a[i + 1..])
  {
    var x := a[i];
    ghost var sorted := a[..i];
    var j := i;
    while j > 0 && cmp(a[j - 1], x) > 0.0
      invariant 0 <= j <= i
      invariant forall k :: 0 <= k < j ==> a[k] == sorted[k]
      invariant forall k :: j < k <= i ==> a[k] == sorted[k - 1]
      invariant forall k :: i < k < a.Length ==> a[k] == old(a[k])
      invariant forall k :: j <= k < i ==> cmp(sorted[k], x) > 0.0
    {
      a[j] := a[j - 1];
      j := j - 1;
    }
    a[j] := x;
    InsertAt(sorted, j, x, cmp);
    ShiftedRight(a[..i + 1], sorted, j, x);
    assert a[i + 1..] == old(a[i + 1..]);
  }

  /** `s` is `sorted` with `x` placed at index `j`. */
  lemma ShiftedRight<T>(s: seq<T>, sorted: seq<T>, j: int, x: T)
    requires |s| == |sorted| + 1 && 0 <= j <= |sorted|
    requires forall k :: 0 <= k < j ==> s[k] == sorted[k]
    requires s[j] == x
    requires forall k :: j < k < |s| ==> s[k] == sorted[k - 1]
    ensures s == sorted[..j] + [x] + sorted[j..]
  {
  }

  /** `x` goes right after the last element that does not go after it. */
  lemma {:induction false} InsertAt<T>(s: seq<T>, j: int, x: T, cmp: Comparator<T>)
    requires 0 <= j <= |s|
    requires forall k :: j <= k < |s| ==> cmp(s[k], x) > 0.0
    requires j == 0 || cmp(s[j - 1], x) <= 0.0
    ensures Insert(s, x, cmp) == s[..j] + [x] + s[j..]
    decreases |s|
  {
    if j < |s| {
      var front := s[..|s| - 1];
      InsertAt(front, j, x, cmp);
      assert front[..j] == s[..j];
      assert s[j..] == front[j..] + [s[|s| - 1]];
    }
  }

  lemma {:induction false} InsertPermutes<T>(s: seq<T>, x: T, cmp: Comparator<T>)
    ensures multiset(Insert(s, x, cmp)) == multiset(s) + multiset{x}
  {
    if s != [] && cmp(s[|s| - 1], x) > 0.0 {
      InsertPermutes(s[..|s| - 1], x, cmp);
      assert s == s[..|s| - 1] + [s[|s| - 1]];
    }
  }

  /** The sort neither adds nor drops an element. */
  lemma {:induction false} SortPermutes<T>(s: seq<T>, cmp: Comparator<T>)
    ensures multiset(InsertionSort(s, cmp)) == multiset(s)
  {
    if s != [] {
      SortPermutes(s[..|s| - 1], cmp);
      InsertPermutes(InsertionSort(s[..|s| - 1], cmp), s[|s| - 1], cmp);
      assert s == s[..|s| - 1] + [s[|s| - 1]];
    }
  }

  /** Every element of the sorted list comes from the input. */
  lemma SortedFrom<T>(s: seq<T>, cmp: Comparator<T>, x: T) returns (k: nat)
    requires x in InsertionSort(s, cmp)
    ensures k < |s| && s[k] == x
  {
    SortPermutes(s, cmp);
    assert x in multiset(InsertionSort(s, cmp));
    assert x in multiset(s);
    k :| 0 <= k < |s| && s[k] == x;
  }

  lemma {:induction false} InsertSorted<T(!new)>(s: seq<T>, x: T, cmp: Comparator<T>)
    requires Consistent(cmp) && Sorted(s, cmp)
    ensures Sorted(Insert(s, x, cmp), cmp)
  {
    if s != [] {
      var last := s[|s| - 1];
      if cmp(last, x) <= 0.0 {
        assert forall i :: 0 <= i < |s| ==> cmp(s[i], x) <= 0.0 by {
          forall i | 0 <= i < |s| ensures cmp(s[i], x) <= 0.0 {
            if i < |s| - 1 {
              assert cmp(s[i], last) <= 0.0;
            }
          }
        }
      } else {
        var front := s[..|s| - 1];
        InsertSorted(front, x, cmp);
        var ins := Insert(front, x, cmp);
        InsertPermutes(front, x, cmp);
        forall i | 0 <= i < |ins| ensures cmp(ins[i], last) <= 0.0 {
          assert ins[i] in multiset(ins);
          if ins[i] != x {
            assert ins[i] in multiset(front);
            var k :| 0 <= k < |front| && front[k] == ins[i];
            assert cmp(s[k], s[|s| - 1]) <= 0.0;
          } else {
            assert cmp(x, last) < 0.0;
          }
        }
      }
    }
  }

  /** With a consistent comparator the result is in order. */
  lemma {:induction false} SortSorted<T(!new)>(s: seq<T>, cmp: Comparator<T>)
    requires Consistent(cmp)
    ensures Sorted(InsertionSort(s, cmp), cmp)
  {
    if s != [] {
      SortSorted(s[..|s| - 1], cmp);
      InsertSorted(InsertionSort(s[..|s| - 1], cmp), s[|s| - 1], cmp);
    }
  }

  /** Whether an element is equivalent to `x` under `cmp`. */
  function EquivalentTo<T>(cmp: Comparator<T>, x: T): T -> bool
  {
    y => cmp(y, x) == 0.0
  }

  lemma {:induction false} InsertStable<T(!new)>(s: seq<T>, e: T, cmp: Comparator<T>, x: T)
    requires Consistent(cmp)
    ensures Filter(Insert(s, e, cmp), EquivalentTo(cmp, x)) == Filter(s + [e], EquivalentTo(cmp, x))
  {
    var p := EquivalentTo(cmp, x);
    if s != [] && cmp(s[|s| - 1], e) > 0.0 {
      var front, last := s[..|s| - 1], s[|s| - 1];
      InsertStable(front, e, cmp, x);
      if p(e) && p(last) {
        assert false;
      }
      PassOver(front, Insert(front, e, cmp), e, last, p);
      assert s + [e] == front + [last] + [e];
    }
  }

  /** Moving `e` before `last` does not change what `p` selects when `p`
      does not select both. */
  lemma PassOver<T>(front: seq<T>, inserted: seq<T>, e: T, last: T, p: T -> bool)
    requires Filter(inserted, p) == Filter(front + [e], p)
    requires !(p(e) && p(last))
    ensures Filter(inserted + [last], p) == Filter(front + [last] + [e], p)
  {
    FilterAppend(inserted, [last], p);
    FilterAppend(front, [e], p);
    FilterAppend(front + [last], [e], p);
    FilterAppend(front, [last], p);
  }

  /** The sort is stable: the elements equivalent to any `x` come out in
      the order they went in. */
  lemma {:induction false} SortStable<T(!new)>(s: seq<T>, cmp: Comparator<T>, x: T)
    requires Consistent(cmp)
    ensures Filter(InsertionSort(s, cmp), EquivalentTo(cmp, x)) == Filter(s, EquivalentTo(cmp, x))
  {
    if s != [] {
      var front, last := s[..|s| - 1], s[|s| - 1];
      var sorted := InsertionSort(front, cmp);
      SortStable(front, cmp, x);
      InsertStable(sorted, last, cmp, x);
      FilterStep(front, sorted, InsertionSort(s, cmp), last, EquivalentTo(cmp, x));
      assert s == front + [last];
    }
  }

  /** The inductive step of `SortStable`, on the filtered lists alone: if
      `sorted` selects as `front` does, and `inserted` selects as `sorted`
      with `last` appended, then `inserted` selects as `front` with `last`
      appended. */
  lemma FilterStep<T>(front: seq<T>, sorted: seq<T>, inserted: seq<T>, last: T, p: T -> bool)
    requires Filter(sorted, p) == Filter(front, p)
    requires Filter(inserted, p) == Filter(sorted + [last], p)
    ensures Filter(inserted, p) == Filter(front + [last], p)
  {
    FilterAppend(sorted, [last], p);
    FilterAppend(front, [last], p);
  }

  /** A comparator that never orders two elements leaves the order as it
      was. */
  lemma {:induction false} SortKeepsOrderWhenAllEquivalent<T>(s: seq<T>, cmp: Comparator<T>)
    requires forall x, y :: cmp(x, y) == 0.0
    ensures InsertionSort(s, cmp) == s
  {
    if s != [] {
      SortKeepsOrderWhenAllEquivalent(s[..|s| - 1], cmp);
      assert s == s[..|s| - 1] + [s[|s| - 1]];
    }
  }
}
