/** Sequence operations shared by the model: Array.prototype.filter, the
    de-duplication done by `[...new Set(xs)]`, and a stable sort by a "comes
    strictly before" relation, as Array.prototype.sort with a comparator
    (stable since ECMAScript 2019) and the database's ordered queries sort. */
module Sequences {

  /** The elements of s are pairwise different. */
  ghost predicate Distinct<T>(s: seq<T>) {
    forall i, j :: 0 <= i < j < |s| ==> s[i] != s[j]
  }

  /** a is s with some elements left out, the others kept in order. */
  predicate IsSubsequence<T(==)>(a: seq<T>, s: seq<T>) {
    if a == [] then true
    else if s == [] then false
    else if a[0] == s[0] then IsSubsequence(a[1..], s[1..])
    else IsSubsequence(a, s[1..])
  }

  /** Array.prototype.filter: keeps, in order, the elements keep accepts. */
  function Filter<T(!new)>(s: seq<T>, keep: T -> bool): (r: seq<T>)
    ensures forall x :: x in r <==> x in s && keep(x)
    ensures IsSubsequence(r, s)
    ensures Distinct(s) ==> Distinct(r)
    ensures (forall i :: 0 <= i < |s| ==> keep(s[i])) ==> r == s
  {
    if s == [] then []
    else
      var rest := Filter(s[1..], keep);
      assert s == [s[0]] + s[1..];
      assert forall x :: x in s <==> x == s[0] || x in s[1..];
      DistinctCons(s[0], s[1..]);
      if keep(s[0]) then
        DistinctCons(s[0], rest);
        assert ([s[0]] + rest)[1..] == rest;
        [s[0]] + rest
      else
        assert rest != [] ==> rest[0] in rest && rest[0] != s[0];
        rest
  }

  /** A sequence with a first element is distinct exactly when that element
      does not occur again and the rest is distinct. */
  lemma DistinctCons<T>(x: T, t: seq<T>)
    ensures Distinct([x] + t) <==> x !in t && Distinct(t)
  {
    var s := [x] + t;
    assert forall i :: 0 <= i < |t| ==> s[i + 1] == t[i];
    if x !in t && Distinct(t) {
      forall i, j | 0 <= i < j < |s| ensures s[i] != s[j] {
        if i > 0 {
          assert s[i] == t[i - 1] && s[j] == t[j - 1];
        } else {
          assert s[j] == t[j - 1];
        }
      }
    }
    if Distinct(s) {
      forall i, j | 0 <= i < j < |t| ensures t[i] != t[j] {
        assert s[i + 1] == t[i] && s[j + 1] == t[j];
      }
      forall k | 0 <= k < |t| ensures t[k] != x {
        assert s[0] == x && s[k + 1] == t[k];
      }
    }
  }

  /** Filter keeps every accepted element as often as it occurs in s and
      drops every occurrence of the others. */
  lemma {:induction false} FilterCount<T(!new)>(s: seq<T>, keep: T -> bool, x: T)
    ensures multiset(Filter(s, keep))[x] == if keep(x) then multiset(s)[x] else 0
  {
    if s != [] {
      FilterCount(s[1..], keep, x);
      assert s == [s[0]] + s[1..];
      assert multiset(s) == multiset{s[0]} + multiset(s[1..]);
      if keep(s[0]) {
        var rest := Filter(s[1..], keep);
        assert multiset([s[0]] + rest) == multiset{s[0]} + multiset(rest);
      }
    }
  }

  /** FilterCount for every element at once. */
  lemma FilterMultiplicity<T(!new)>(s: seq<T>, keep: T -> bool)
    ensures forall x :: multiset(Filter(s, keep))[x] == if keep(x) then multiset(s)[x] else 0
  {
    forall x {
      FilterCount(s, keep, x);
    }
  }

  /** Filtering a sequence with one more element at the end filters the rest
      and then looks at that element. */
  lemma {:induction false} FilterAppend<T(!new)>(s: seq<T>, x: T, keep: T -> bool)
    ensures Filter(s + [x], keep) == Filter(s, keep) + (if keep(x) then [x] else [])
  {
    if s == [] {
      assert [] + [x] == [x];
    } else {
      FilterAppend(s[1..], x, keep);
      assert (s + [x])[1..] == s[1..] + [x];
    }
  }

  /** `[...new Set(s)]`: the first occurrence of each element, in order. */
  function Dedupe<T(==,!new)>(s: seq<T>): (r: seq<T>)
    ensures forall x :: x in r <==> x in s
    ensures Distinct(r)
  {
    if s == [] then []
    else
      var init := s[..|s| - 1];
      var d := Dedupe(init);
      assert forall x :: x in s <==> x in init || x == s[|s| - 1];
      if s[|s| - 1] in d then d else d + [s[|s| - 1]]
  }

  /** Inserts x after every element it does not strictly precede, so an element
      inserted later lands after the equal ones already there. */
  function Insert<T>(x: T, s: seq<T>, less: (T, T) -> bool): (r: seq<T>)
    ensures multiset(r) == multiset(s) + multiset{x}
    ensures |r| == |s| + 1
  {
    if s == [] || less(x, s[0]) then [x] + s
    else
      assert s == [s[0]] + s[1..];
      [s[0]] + Insert(x, s[1..], less)
  }

  /** Insertion sort, taking the elements in their original order. */
  function SortBy<T>(s: seq<T>, less: (T, T) -> bool): (r: seq<T>)
    ensures multiset(r) == multiset(s)
    ensures |r| == |s|
  {
    if s == [] then []
    else
      assert s == s[..|s| - 1] + [s[|s| - 1]];
      Insert(s[|s| - 1], SortBy(s[..|s| - 1], less), less)
  }

  /** No element strictly precedes one that stands before it. */
  ghost predicate Sorted<T>(s: seq<T>, less: (T, T) -> bool) {
    forall i, j :: 0 <= i < j < |s| ==> !less(s[j], s[i])
  }

  /** less is a strict partial order: asymmetric and transitive. */
  ghost predicate StrictOrder<T(!new)>(less: (T, T) -> bool) {
    && (forall a, b :: less(a, b) ==> !less(b, a))
    && (forall a, b, c :: less(a, b) && less(b, c) ==> less(a, c))
  }

  /** Nothing in s strictly precedes x. */
  ghost predicate NonePrecedes<T>(x: T, s: seq<T>, less: (T, T) -> bool) {
    forall j :: 0 <= j < |s| ==> !less(s[j], x)
  }

  /** A sequence is sorted iff its tail is sorted and no element of the tail
      strictly precedes its head. */
  lemma ConsSorted<T>(x: T, s: seq<T>, less: (T, T) -> bool)
    ensures Sorted([x] + s, less) <==> NonePrecedes(x, s, less) && Sorted(s, less)
  {
    var r := [x] + s;
    if NonePrecedes(x, s, less) && Sorted(s, less) {
      forall i, j | 0 <= i < j < |r| ensures !less(r[j], r[i]) {
        assert r[j] == s[j - 1];
        if i > 0 { assert r[i] == s[i - 1]; }
      }
    }
    if Sorted(r, less) {
      forall j | 0 <= j < |s| ensures !less(s[j], x) { assert r[0] == x && r[j + 1] == s[j]; }
      forall i, j | 0 <= i < j < |s| ensures !less(s[j], s[i]) { assert r[i + 1] == s[i] && r[j + 1] == s[j]; }
    }
  }

  /** Inserting an element that does not precede y keeps y unpreceded. */
  lemma {:induction false} InsertNonePrecedes<T>(y: T, x: T, s: seq<T>, less: (T, T) -> bool)
    requires NonePrecedes(y, s, less) && !less(x, y)
    ensures NonePrecedes(y, Insert(x, s, less), less)
  {
    var r := Insert(x, s, less);
    if s == [] || less(x, s[0]) {
      assert r == [x] + s;
      forall j | 1 <= j < |r| ensures !less(r[j], y) { assert r[j] == s[j - 1]; }
    } else {
      InsertNonePrecedes(y, x, s[1..], less);
      var t := Insert(x, s[1..], less);
      assert r == [s[0]] + t;
      forall j | 1 <= j < |r| ensures !less(r[j], y) { assert r[j] == t[j - 1]; }
    }
  }

  lemma {:induction false} InsertSorted<T(!new)>(x: T, s: seq<T>, less: (T, T) -> bool)
    requires StrictOrder(less) && Sorted(s, less)
    ensures Sorted(Insert(x, s, less), less)
  {
    ConsSorted(x, s, less);
    if s == [] || less(x, s[0]) {
      forall j | 0 <= j < |s| ensures !less(s[j], x) {
        if j > 0 { assert !less(s[j], s[0]); }
      }
    } else {
      ConsSorted(s[0], s[1..], less);
      assert s == [s[0]] + s[1..];
      InsertSorted(x, s[1..], less);
      InsertNonePrecedes(s[0], x, s[1..], less);
      ConsSorted(s[0], Insert(x, s[1..], less), less);
    }
  }

  /** Under a strict partial order the sort leaves no inversion. */
  lemma {:induction false} SortBySorted<T(!new)>(s: seq<T>, less: (T, T) -> bool)
    requires StrictOrder(less)
    ensures Sorted(SortBy(s, less), less)
  {
    if s != [] {
      SortBySorted(s[..|s| - 1], less);
      InsertSorted(s[|s| - 1], SortBy(s[..|s| - 1], less), less);
    }
  }

  /** No element of s strictly precedes another. */
  ghost predicate AllEqual<T>(s: seq<T>, less: (T, T) -> bool) {
    forall i, j :: 0 <= i < |s| && 0 <= j < |s| ==> !less(s[i], s[j])
  }

  /** When nothing precedes anything (every comparison says "equal"), the
      stable sort keeps the original order. */
  lemma {:induction false} SortByAllEqual<T>(s: seq<T>, less: (T, T) -> bool)
    requires AllEqual(s, less)
    ensures SortBy(s, less) == s
  {
    if s != [] {
      var init, x := s[..|s| - 1], s[|s| - 1];
      assert s == init + [x];
      AllEqualInit(init, x, less);
      SortByAllEqual(init, less);
      InsertAfterAll(x, init, less);
    }
  }

  /** Dropping the last element keeps AllEqual, and the last element precedes
      none of the others. */
  lemma AllEqualInit<T>(init: seq<T>, x: T, less: (T, T) -> bool)
    requires AllEqual(init + [x], less)
    ensures AllEqual(init, less)
    ensures forall i :: 0 <= i < |init| ==> !less(x, init[i])
  {
    var s := init + [x];
    forall i, j | 0 <= i < |init| && 0 <= j < |init| ensures !less(init[i], init[j]) {
      assert init[i] == s[i] && init[j] == s[j];
    }
    forall i | 0 <= i < |init| ensures !less(x, init[i]) {
      assert init[i] == s[i] && x == s[|init|];
    }
  }

  /** An element that precedes nothing goes to the end. */
  lemma {:induction false} InsertAfterAll<T>(x: T, s: seq<T>, less: (T, T) -> bool)
    requires forall i :: 0 <= i < |s| ==> !less(x, s[i])
    ensures Insert(x, s, less) == s + [x]
  {
    if s != [] {
      var t := s[1..];
      forall i | 0 <= i < |t| ensures !less(x, t[i]) {
        assert t[i] == s[i + 1];
      }
      InsertAfterAll(x, t, less);
      calc {
        Insert(x, s, less);
        [s[0]] + Insert(x, t, less);
        [s[0]] + (t + [x]);
        { assert [s[0]] + t == s; }
        s + [x];
      }
    }
  }

  lemma {:induction false} InsertDistinct<T>(x: T, s: seq<T>, less: (T, T) -> bool)
    requires Distinct(s) && x !in s
    ensures Distinct(Insert(x, s, less))
  {
    if s != [] && !less(x, s[0]) {
      InsertDistinct(x, s[1..], less);
      var t := Insert(x, s[1..], less);
      assert s[0] !in multiset(t);
      assert forall j :: 0 <= j < |t| ==> t[j] != s[0];
      assert Insert(x, s, less) == [s[0]] + t;
    }
  }

  /** Sorting a sequence of distinct elements keeps them distinct. */
  lemma {:induction false} SortByDistinct<T>(s: seq<T>, less: (T, T) -> bool)
    requires Distinct(s)
    ensures Distinct(SortBy(s, less))
  {
    if s != [] {
      var init := s[..|s| - 1];
      SortByDistinct(init, less);
      assert s[|s| - 1] !in init;
      assert s[|s| - 1] !in multiset(SortBy(init, less));
      InsertDistinct(s[|s| - 1], SortBy(init, less), less);
    }
  }
}
