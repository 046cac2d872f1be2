/** Python's `sorted(xs, key=...)` (and `reverse=True`): a stable sort.
    The comparison is given as `le(a, b)`, "a may come before b"; a stable
    insertion sort keeps equal elements in their input order. */
module Sorting {
  import opened Common

  /** `le` is total: any two elements are comparable. */
  ghost predicate Total<T(!new)>(le: (T, T) -> bool) {
    forall a, b :: le(a, b) || le(b, a)
  }

  /** `le` is transitive. */
  ghost predicate Transitive<T(!new)>(le: (T, T) -> bool) {
    forall a, b, c :: le(a, b) && le(b, c) ==> le(a, c)
  }

  predicate Sorted<T>(s: seq<T>, le: (T, T) -> bool) {
    forall i, j :: 0 <= i < j < |s| ==> le(s[i], s[j])
  }

  /** Insert `x` before the first element it may precede. */
  function Insert<T>(x: T, s: seq<T>, le: (T, T) -> bool): (r: seq<T>)
    ensures multiset(r) == multiset(s) + multiset{x}
    ensures |r| == |s| + 1
  {
    if s == [] then [x]
    else if le(x, s[0]) then [x] + s
    else
      assert s == [s[0]] + s[1..];
      [s[0]] + Insert(x, s[1..], le)
  }

  /** The stable sort: a permutation of its input. */
  function SortBy<T>(s: seq<T>, le: (T, T) -> bool): (r: seq<T>)
    ensures multiset(r) == multiset(s)
    ensures |r| == |s|
  {
    if s == [] then []
    else
      assert s == [s[0]] + s[1..];
      Insert(s[0], SortBy(s[1..], le), le)
  }

  lemma {:induction false} InsertSorted<T(!new)>(x: T, s: seq<T>, le: (T, T) -> bool)
    requires Total(le) && Transitive(le)
    requires Sorted(s, le)
    ensures Sorted(Insert(x, s, le), le)
    decreases |s|
  {
    if s != [] && !le(x, s[0]) {
      var t := s[1..];
      InsertSorted(x, t, le);
      var r := Insert(x, s, le);
      var u := Insert(x, t, le);
      assert r == [s[0]] + u;
      assert le(s[0], x);
      assert forall y :: y in multiset(u) ==> y == x || y in multiset(t);
      forall j | 1 <= j < |r|
        ensures le(r[0], r[j])
      {
        assert r[j] in multiset(u);
        if r[j] != x {
          var k :| 0 <= k < |t| && t[k] == r[j];
          assert s[k + 1] == r[j];
        }
      }
    }
  }

  /** The result of `SortBy` is sorted when `le` is a total preorder. */
  lemma {:induction false} SortBySorted<T(!new)>(s: seq<T>, le: (T, T) -> bool)
    requires Total(le) && Transitive(le)
    ensures Sorted(SortBy(s, le), le)
  {
    if s != [] {
      SortBySorted(s[1..], le);
      InsertSorted(s[0], SortBy(s[1..], le), le);
    }
  }

  /** The elements of `s` equivalent to `k` under `le`, in order. */
  function Class<T>(s: seq<T>, le: (T, T) -> bool, k: T): seq<T> {
    if s == [] then []
    else (if le(s[0], k) && le(k, s[0]) then [s[0]] else []) + Class(s[1..], le, k)
  }

  lemma ClassAppend<T>(a: seq<T>, b: seq<T>, le: (T, T) -> bool, k: T)
    ensures Class(a + b, le, k) == Class(a, le, k) + Class(b, le, k)
  {
    if a != [] {
      assert (a + b)[0] == a[0];
      assert (a + b)[1..] == a[1..] + b;
      ClassAppend(a[1..], b, le, k);
    } else {
      assert a + b == b;
    }
  }

  lemma {:induction false} InsertClass<T(!new)>(x: T, s: seq<T>, le: (T, T) -> bool, k: T)
    requires Transitive(le)
    ensures Class(Insert(x, s, le), le, k) == Class([x] + s, le, k)
    decreases |s|
  {
    if s != [] && !le(x, s[0]) {
      InsertClass(x, s[1..], le, k);
      InsertClassStep(x, s, le, k);
    }
  }

  /** One step of `InsertClass`: `x` moves past `s[0]`, which it cannot
      precede and therefore is not equivalent to. */
  lemma InsertClassStep<T(!new)>(x: T, s: seq<T>, le: (T, T) -> bool, k: T)
    requires Transitive(le) && s != [] && !le(x, s[0])
    requires Class(Insert(x, s[1..], le), le, k) == Class([x] + s[1..], le, k)
    ensures Class(Insert(x, s, le), le, k) == Class([x] + s, le, k)
  {
    var t := s[1..];
    var a := Class([s[0]], le, k);
    var b := Class([x], le, k);
    var c := Class(t, le, k);
    assert Insert(x, s, le) == [s[0]] + Insert(x, t, le);
    ClassAppend([s[0]], Insert(x, t, le), le, k);
    ClassAppend([x], t, le, k);
    ClassHead(s, le, k);
    ClassAppend([x], s, le, k);
    ClassSwap(x, s[0], le, k);
    ConcatAssoc(a, b, c);
    ConcatAssoc(b, a, c);
  }

  lemma ClassHead<T>(s: seq<T>, le: (T, T) -> bool, k: T)
    requires s != []
    ensures Class(s, le, k) == Class([s[0]], le, k) + Class(s[1..], le, k)
  {
    var h := if le(s[0], k) && le(k, s[0]) then [s[0]] else [];
    assert [s[0]][1..] == [];
    assert Class([s[0]], le, k) == h + Class([], le, k);
    assert h + [] == h;
  }

  /** Two elements of which the first cannot precede the second are never
      both equivalent to `k`, so their classes commute. */
  lemma ClassSwap<T(!new)>(x: T, y: T, le: (T, T) -> bool, k: T)
    requires Transitive(le) && !le(x, y)
    ensures Class([y], le, k) + Class([x], le, k) == Class([x], le, k) + Class([y], le, k)
  {
    assert Class([x], le, k) == (if le(x, k) && le(k, x) then [x] else []) + Class([], le, k);
    assert Class([y], le, k) == (if le(y, k) && le(k, y) then [y] else []) + Class([], le, k);
  }

  /** Stability: elements that compare equal keep their input order. */
  lemma {:induction false} SortByStable<T(!new)>(s: seq<T>, le: (T, T) -> bool, k: T)
    requires Transitive(le)
    ensures Class(SortBy(s, le), le, k) == Class(s, le, k)
  {
    if s != [] {
      var t := SortBy(s[1..], le);
      calc {
        Class(SortBy(s, le), le, k);
        Class(Insert(s[0], t, le), le, k);
        { InsertClass(s[0], t, le, k); }
        Class([s[0]] + t, le, k);
        { ClassAppend([s[0]], t, le, k); }
        Class([s[0]], le, k) + Class(t, le, k);
        { SortByStable(s[1..], le, k); }
        Class([s[0]], le, k) + Class(s[1..], le, k);
        { ClassAppend([s[0]], s[1..], le, k); }
        Class([s[0]] + s[1..], le, k);
        { assert s == [s[0]] + s[1..]; }
        Class(s, le, k);
      }
    }
  }
}
