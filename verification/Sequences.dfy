/** Filtering, counting and stable sorting of sequences: Python's list comprehensions and `sorted`. */
module Sequences {

  datatype Option<+T> = None | Some(value: T)

  /** The elements satisfying `p`, in order: `[x for x in s if p(x)]`. */
  function Filter<T(!new)>(s: seq<T>, p: T -> bool): (r: seq<T>)
    ensures forall x :: x in r <==> x in s && p(x)
    ensures |r| <= |s|
  {
    if s == [] then [] else (if p(s[0]) then [s[0]] else []) + Filter(s[1..], p)
  }

  lemma {:induction false} FilterConcat<T(!new)>(a: seq<T>, b: seq<T>, p: T -> bool)
    ensures Filter(a + b, p) == Filter(a, p) + Filter(b, p)
  {
    if a == [] {
      assert a + b == b;
    } else {
      assert (a + b)[1..] == a[1..] + b;
      FilterConcat(a[1..], b, p);
    }
  }

  lemma FilterCons<T(!new)>(x: T, s: seq<T>, p: T -> bool)
    ensures Filter([x] + s, p) == (if p(x) then [x] else []) + Filter(s, p)
  {
    assert ([x] + s)[1..] == s;
  }

  /** One loop iteration of a filtering loop. */
  lemma FilterSnoc<T(!new)>(s: seq<T>, i: nat, p: T -> bool)
    requires i < |s|
    ensures Filter(s[..i + 1], p) == Filter(s[..i], p) + if p(s[i]) then [s[i]] else []
  {
    assert s[..i + 1] == s[..i] + [s[i]];
    FilterConcat(s[..i], [s[i]], p);
    assert Filter([s[i]], p) == if p(s[i]) then [s[i]] else [];
  }

  function Count<T(!new)>(s: seq<T>, p: T -> bool): nat { |Filter(s, p)| }

  predicate Distinct<T(==)>(s: seq<T>) { forall i, j :: 0 <= i < j < |s| ==> s[i] != s[j] }

  function Elements<T>(s: seq<T>): set<T> { set x | x in s }

  function Map<A, B>(f: A -> B, s: seq<A>): (r: seq<B>)
    ensures |r| == |s| && forall i :: 0 <= i < |s| ==> r[i] == f(s[i])
  {
    seq(|s|, i requires 0 <= i < |s| => f(s[i]))
  }

  /** `lt` is the strict part of a total preorder, which is what a sort needs. */
  ghost predicate StrictWeakOrder<T(!new)>(lt: (T, T) -> bool) {
    && (forall x, y :: lt(x, y) ==> !lt(y, x))
    && (forall x, y, z :: !lt(y, x) && !lt(z, y) ==> !lt(z, x))
  }

  ghost predicate SortedBy<T>(s: seq<T>, lt: (T, T) -> bool) {
    forall i, j :: 0 <= i < j < |s| ==> !lt(s[j], s[i])
  }

  /** Put `x` in front of the first element that is not smaller. */
  function Insert<T>(x: T, s: seq<T>, lt: (T, T) -> bool): seq<T> {
    if s == [] || !lt(s[0], x) then [x] + s else [s[0]] + Insert(x, s[1..], lt)
  }

  /** Python's `sorted`: stable, and calling nothing but `<`. */
  function Sort<T>(s: seq<T>, lt: (T, T) -> bool): seq<T> {
    if s == [] then [] else Insert(s[0], Sort(s[1..], lt), lt)
  }

  lemma SameElements<T(!new)>(a: seq<T>, b: seq<T>)
    requires multiset(a) == multiset(b)
    ensures |a| == |b| && forall x :: x in a <==> x in b
  {
    assert |multiset(a)| == |multiset(b)|;
    forall x ensures x in a <==> x in b {
      assert x in a <==> x in multiset(a);
      assert x in b <==> x in multiset(b);
    }
  }

  lemma {:induction false} InsertAdds<T(!new)>(x: T, s: seq<T>, lt: (T, T) -> bool)
    ensures multiset(Insert(x, s, lt)) == multiset(s) + multiset{x}
    ensures forall y :: y in Insert(x, s, lt) <==> y == x || y in s
  {
    if s != [] && lt(s[0], x) {
      InsertAdds(x, s[1..], lt);
      assert s == [s[0]] + s[1..];
    }
  }

  lemma {:induction false} InsertSorted<T(!new)>(x: T, s: seq<T>, lt: (T, T) -> bool)
    requires StrictWeakOrder(lt) && SortedBy(s, lt)
    ensures SortedBy(Insert(x, s, lt), lt)
  {
    if s == [] {
    } else if lt(s[0], x) {
      var rest := Insert(x, s[1..], lt);
      InsertSorted(x, s[1..], lt);
      InsertAdds(x, s[1..], lt);
      forall j | 0 <= j < |rest| ensures !lt(rest[j], s[0]) {
        assert rest[j] in rest;
      }
    } else {
      forall j | 0 <= j < |s| ensures !lt(s[j], x) {
        assert j > 0 ==> !lt(s[j], s[0]);
      }
    }
  }

  lemma {:induction false} SortIsSorted<T(!new)>(s: seq<T>, lt: (T, T) -> bool)
    requires StrictWeakOrder(lt)
    ensures SortedBy(Sort(s, lt), lt)
    ensures multiset(Sort(s, lt)) == multiset(s)
  {
    if s != [] {
      SortIsSorted(s[1..], lt);
      InsertSorted(s[0], Sort(s[1..], lt), lt);
      InsertAdds(s[0], Sort(s[1..], lt), lt);
      assert s == [s[0]] + s[1..];
    }
  }

  lemma SortSorted<T(!new)>(s: seq<T>, lt: (T, T) -> bool)
    requires StrictWeakOrder(lt)
    ensures SortedBy(Sort(s, lt), lt)
    ensures multiset(Sort(s, lt)) == multiset(s)
    ensures |Sort(s, lt)| == |s| && forall x :: x in Sort(s, lt) <==> x in s
  {
    SortIsSorted(s, lt);
    SameElements(Sort(s, lt), s);
  }

  lemma {:induction false} InsertStable<T(!new)>(x: T, s: seq<T>, lt: (T, T) -> bool, p: T -> bool)
    requires forall a, b :: (a == x || a in s) && (b == x || b in s) && p(a) && p(b) ==> !lt(a, b)
    ensures Filter(Insert(x, s, lt), p) == Filter([x] + s, p)
  {
    hide Filter;
    if s != [] && lt(s[0], x) {
      InsertStable(x, s[1..], lt, p);
      assert s == [s[0]] + s[1..];
      FilterCons(x, s, p);
      FilterCons(s[0], s[1..], p);
      FilterCons(x, s[1..], p);
      FilterCons(s[0], Insert(x, s[1..], lt), p);
    }
  }

  /** Stability: elements that the order does not tell apart keep their relative order. */
  lemma {:induction false} SortStable<T(!new)>(s: seq<T>, lt: (T, T) -> bool, p: T -> bool)
    requires StrictWeakOrder(lt)
    requires forall a, b :: a in s && b in s && p(a) && p(b) ==> !lt(a, b)
    ensures Filter(Sort(s, lt), p) == Filter(s, p)
  {
    if s != [] {
      var t := Sort(s[1..], lt);
      SortStable(s[1..], lt, p);
      SortSorted(s[1..], lt);
      InsertStable(s[0], t, lt, p);
      assert ([s[0]] + t)[1..] == t;
    }
  }

  lemma {:induction false} SortOfSorted<T>(s: seq<T>, lt: (T, T) -> bool)
    requires SortedBy(s, lt)
    ensures Sort(s, lt) == s
  {
    if s != [] {
      SortOfSorted(s[1..], lt);
      assert s == [s[0]] + s[1..];
      assert |s| > 1 ==> !lt(s[1], s[0]);
    }
  }

  lemma {:induction false} InsertCongruent<T>(x: T, s: seq<T>, f: (T, T) -> bool, g: (T, T) -> bool)
    requires forall y :: y in s ==> f(y, x) == g(y, x)
    ensures Insert(x, s, f) == Insert(x, s, g) && forall y :: y in Insert(x, s, f) ==> y == x || y in s
  {
    if s != [] {
      InsertCongruent(x, s[1..], f, g);
      assert s[0] in s;
    }
  }

  /** Only the comparisons between its elements decide how a sequence is sorted. */
  lemma {:induction false} SortCongruent<T>(s: seq<T>, f: (T, T) -> bool, g: (T, T) -> bool)
    requires forall x, y :: x in s && y in s ==> f(x, y) == g(x, y)
    ensures Sort(s, f) == Sort(s, g) && forall x :: x in Sort(s, f) ==> x in s
  {
    if s != [] {
      SortCongruent(s[1..], f, g);
      InsertCongruent(s[0], Sort(s[1..], f), f, g);
    }
  }

  lemma {:induction false} InsertLast<T>(x: T, s: seq<T>, y: T, lt: (T, T) -> bool)
    requires !lt(y, x)
    ensures Insert(x, s + [y], lt) == Insert(x, s, lt) + [y]
  {
    if s == [] {
      assert [] + [y] == [y];
    } else {
      assert (s + [y])[1..] == s[1..] + [y] && (s + [y])[0] == s[0];
      InsertLast(x, s[1..], y, lt);
    }
  }

  lemma {:induction false} SortLast<T>(s: seq<T>, y: T, lt: (T, T) -> bool)
    requires forall x :: x in s ==> !lt(y, x)
    ensures Sort(s + [y], lt) == Sort(s, lt) + [y]
  {
    if s == [] {
      assert [] + [y] == [y] && [y][1..] == [];
    } else {
      assert (s + [y])[1..] == s[1..] + [y] && (s + [y])[0] == s[0];
      SortLast(s[1..], y, lt);
      InsertLast(s[0], Sort(s[1..], lt), y, lt);
    }
  }
}
