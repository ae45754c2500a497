/** Python's `sorted`: a stable sort under a caller-chosen "less or equal"
    relation, written as an insertion sort. Both reports and both git texts
    sort through it. */
module Sorting {

  ghost predicate Total<T(!new)>(le: (T, T) -> bool) {
    forall a, b :: le(a, b) || le(b, a)
  }

  ghost predicate Transitive<T(!new)>(le: (T, T) -> bool) {
    forall a, b, c :: le(a, b) && le(b, c) ==> le(a, c)
  }

  predicate Sorted<T>(s: seq<T>, le: (T, T) -> bool) {
    forall i, j :: 0 <= i < j < |s| ==> le(s[i], s[j])
  }

  /** `x` and `v` compare equal: neither sorts strictly before the other. */
  predicate Tied<T>(x: T, v: T, le: (T, T) -> bool) {
    le(x, v) && le(v, x)
  }

  /** The elements of `s` that compare equal to `v`, in their order in `s`. */
  function TiedWith<T>(s: seq<T>, v: T, le: (T, T) -> bool): (r: seq<T>)
    ensures |r| <= |s|
  {
    if s == [] then []
    else (if Tied(s[0], v, le) then [s[0]] else []) + TiedWith(s[1..], v, le)
  }

  /** Places `x` in front of the first element it does not sort after. */
  function Insert<T>(x: T, s: seq<T>, le: (T, T) -> bool): (r: seq<T>)
    ensures multiset(r) == multiset(s) + multiset{x}
    ensures |r| == |s| + 1
  {
    if s == [] || le(x, s[0]) then [x] + s
    else
      assert s == [s[0]] + s[1..];
      [s[0]] + Insert(x, s[1..], le)
  }

  /** `sorted(s, key=...)`: same elements, same length. */
  function Sort<T>(s: seq<T>, le: (T, T) -> bool): (r: seq<T>)
    ensures multiset(r) == multiset(s)
    ensures |r| == |s|
  {
    if s == [] then []
    else
      assert s == [s[0]] + s[1..];
      Insert(s[0], Sort(s[1..], le), le)
  }

  /** Sorting neither adds nor drops an element. */
  lemma SortMembers<T>(s: seq<T>, le: (T, T) -> bool)
    ensures forall x :: x in Sort(s, le) <==> x in s
  {
    var r := Sort(s, le);
    forall x
      ensures x in r <==> x in s
    {
      assert x in r <==> x in multiset(r);
      assert x in s <==> x in multiset(s);
    }
  }

  lemma {:induction false} InsertSorted<T(!new)>(x: T, s: seq<T>, le: (T, T) -> bool)
    requires Total(le) && Transitive(le)
    requires Sorted(s, le)
    ensures Sorted(Insert(x, s, le), le)
  {
    if s != [] && !le(x, s[0]) {
      InsertSorted(x, s[1..], le);
      var r := Insert(x, s[1..], le);
      forall k | 0 <= k < |r|
        ensures le(s[0], r[k])
      {
        assert r[k] in multiset(r);
        assert r[k] in multiset(s[1..]) + multiset{x};
        if r[k] != x {
          assert r[k] in s[1..];
          var j :| 0 <= j < |s[1..]| && s[1..][j] == r[k];
          assert s[j + 1] == r[k];
        }
      }
      assert Insert(x, s, le) == [s[0]] + r;
    }
  }

  /** The result is ordered by `le`. */
  lemma {:induction false} SortSorted<T(!new)>(s: seq<T>, le: (T, T) -> bool)
    requires Total(le) && Transitive(le)
    ensures Sorted(Sort(s, le), le)
  {
    if s != [] {
      SortSorted(s[1..], le);
      InsertSorted(s[0], Sort(s[1..], le), le);
    }
  }

  lemma TiedWithCons<T>(x: T, s: seq<T>, v: T, le: (T, T) -> bool)
    ensures TiedWith([x] + s, v, le) == (if Tied(x, v, le) then [x] else []) + TiedWith(s, v, le)
  {
    assert ([x] + s)[1..] == s;
  }

  lemma {:induction false} InsertStable<T(!new)>(x: T, s: seq<T>, v: T, le: (T, T) -> bool)
    requires Transitive(le)
    ensures TiedWith(Insert(x, s, le), v, le)
         == (if Tied(x, v, le) then [x] else []) + TiedWith(s, v, le)
  {
    if s == [] || le(x, s[0]) {
      TiedWithCons(x, s, v, le);
    } else {
      InsertStable(x, s[1..], v, le);
      TiedExcludes(x, s[0], v, le);
      assert Insert(x, s, le) == [s[0]] + Insert(x, s[1..], le);
      assert s == [s[0]] + s[1..];
      TiedCommute(s[0], x, Insert(x, s[1..], le), s[1..], v, le);
    }
  }

  /** Passing an element that does not tie with `x` does not reorder the
      ties. */
  lemma TiedCommute<T>(a: T, x: T, r: seq<T>, rest: seq<T>, v: T, le: (T, T) -> bool)
    requires Tied(x, v, le) ==> !Tied(a, v, le)
    requires TiedWith(r, v, le) == (if Tied(x, v, le) then [x] else []) + TiedWith(rest, v, le)
    ensures TiedWith([a] + r, v, le) == (if Tied(x, v, le) then [x] else []) + TiedWith([a] + rest, v, le)
  {
    TiedWithCons(a, r, v, le);
    TiedWithCons(a, rest, v, le);
    if Tied(x, v, le) {
      assert !Tied(a, v, le);
    }
  }

  /** Something `x` does not sort before cannot tie with what `x` ties with. */
  lemma TiedExcludes<T(!new)>(x: T, y: T, v: T, le: (T, T) -> bool)
    requires Transitive(le)
    ensures Tied(x, v, le) && !le(x, y) ==> !Tied(y, v, le)
  {
    if Tied(x, v, le) && Tied(y, v, le) {
      assert le(x, v) && le(v, y);
      assert le(x, y);
    }
  }

  /** Stability: elements that compare equal keep their input order. */
  lemma {:induction false} SortStable<T(!new)>(s: seq<T>, v: T, le: (T, T) -> bool)
    requires Transitive(le)
    ensures TiedWith(Sort(s, le), v, le) == TiedWith(s, v, le)
  {
    if s != [] {
      SortStable(s[1..], v, le);
      InsertStable(s[0], Sort(s[1..], le), v, le);
    }
  }

  /** No two elements share a key. */
  predicate DistinctBy<T, K(==)>(s: seq<T>, key: T -> K) {
    forall i, j :: 0 <= i < j < |s| ==> key(s[i]) != key(s[j])
  }

  lemma {:induction false} InsertDistinct<T, K>(x: T, s: seq<T>, le: (T, T) -> bool, key: T -> K)
    requires DistinctBy(s, key)
    requires forall i :: 0 <= i < |s| ==> key(s[i]) != key(x)
    ensures DistinctBy(Insert(x, s, le), key)
  {
    if s != [] && !le(x, s[0]) {
      InsertDistinct(x, s[1..], le, key);
      var r := Insert(x, s[1..], le);
      forall k | 0 <= k < |r|
        ensures key(r[k]) != key(s[0])
      {
        assert r[k] in multiset(r);
        if r[k] != x {
          assert r[k] in multiset(s[1..]);
          var j :| 0 <= j < |s[1..]| && s[1..][j] == r[k];
          assert s[j + 1] == r[k];
        }
      }
    }
  }

  /** Sorting keeps keys distinct. */
  lemma {:induction false} SortDistinct<T, K>(s: seq<T>, le: (T, T) -> bool, key: T -> K)
    requires DistinctBy(s, key)
    ensures DistinctBy(Sort(s, le), key)
  {
    if s != [] {
      SortDistinct(s[1..], le, key);
      var r := Sort(s[1..], le);
      forall i | 0 <= i < |r|
        ensures key(r[i]) != key(s[0])
      {
        assert r[i] in multiset(r);
        assert r[i] in multiset(s[1..]);
        var j :| 0 <= j < |s[1..]| && s[1..][j] == r[i];
        assert s[j + 1] == r[i];
      }
      InsertDistinct(s[0], r, le, key);
    }
  }
}
