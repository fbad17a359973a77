/** A stable sort by a total preorder. Python's `sorted` is stable: elements
    that compare equal keep their input order. This module gives the one sort
    the model uses, for `natsorted` and for `sorted` on pairs of strings. */
module Sorting {

  /** `le` is total and transitive on the elements of `xs`. */
  predicate TotalPreorderOn<T(==)>(le: (T, T) -> bool, xs: seq<T>) {
    && (forall a, b :: a in xs && b in xs ==> le(a, b) || le(b, a))
    && (forall a, b, c :: a in xs && b in xs && c in xs && le(a, b) && le(b, c) ==> le(a, c))
  }

  predicate Sorted<T>(xs: seq<T>, le: (T, T) -> bool) {
    forall i, j :: 0 <= i < j < |xs| ==> le(xs[i], xs[j])
  }

  /** The elements of `xs` equivalent to `t` under `le`, in their order in `xs`. */
  function Class<T>(xs: seq<T>, le: (T, T) -> bool, t: T): seq<T>
    decreases |xs|
  {
    if xs == [] then []
    else (if le(xs[0], t) && le(t, xs[0]) then [xs[0]] else []) + Class(xs[1..], le, t)
  }

  /** Puts `x` in front of the first element it is not after. */
  function Insert<T>(x: T, s: seq<T>, le: (T, T) -> bool): seq<T>
    decreases |s|
  {
    if s == [] then [x]
    else if le(x, s[0]) then [x] + s
    else [s[0]] + Insert(x, s[1..], le)
  }

  /** Inserting adds `x` and loses nothing. */
  lemma {:induction false} InsertPermutes<T>(x: T, s: seq<T>, le: (T, T) -> bool)
    ensures multiset(Insert(x, s, le)) == multiset(s) + multiset{x}
    decreases |s|
  {
    if s != [] && !le(x, s[0]) {
      InsertPermutes(x, s[1..], le);
      assert s == [s[0]] + s[1..];
    }
  }

  /** Insertion sort: a permutation of `xs`, sorted by `le`. */
  function SortBy<T(==)>(xs: seq<T>, le: (T, T) -> bool): (r: seq<T>)
    requires TotalPreorderOn(le, xs)
    ensures multiset(r) == multiset(xs)
    ensures Sorted(r, le)
    decreases |xs|
  {
    if xs == [] then []
    else
      assert xs == [xs[0]] + xs[1..];
      var rest := SortBy(xs[1..], le);
      ElementsOfPermutation(rest, xs[1..], xs);
      InsertSorted(xs[0], rest, le, xs);
      InsertPermutes(xs[0], rest, le);
      Insert(xs[0], rest, le)
  }

  lemma ElementsOfPermutation<T>(s: seq<T>, t: seq<T>, all: seq<T>)
    requires multiset(s) == multiset(t)
    requires forall y :: y in t ==> y in all
    ensures forall y :: y in s ==> y in all
  {
    forall y | y in s ensures y in all {
      assert y in multiset(t);
    }
  }

  lemma {:induction false} InsertSorted<T>(x: T, s: seq<T>, le: (T, T) -> bool, all: seq<T>)
    requires Sorted(s, le)
    requires x in all && forall y :: y in s ==> y in all
    requires TotalPreorderOn(le, all)
    ensures Sorted(Insert(x, s, le), le)
    decreases |s|
  {
    if s != [] {
      if le(x, s[0]) {
        var r := [x] + s;
        forall i, j | 0 <= i < j < |r| ensures le(r[i], r[j]) {
          if i == 0 {
            assert r[j] == s[j - 1];
            if j > 1 {
              assert le(s[0], s[j - 1]);
            }
          } else {
            assert r[i] == s[i - 1] && r[j] == s[j - 1];
          }
        }
      } else {
        assert s[0] in s;
        assert le(s[0], x);
        var t := Insert(x, s[1..], le);
        InsertPermutes(x, s[1..], le);
        forall y | y in s[1..] ensures y in all {
          assert y in s;
        }
        InsertSorted(x, s[1..], le, all);
        var r := [s[0]] + t;
        forall i, j | 0 <= i < j < |r| ensures le(r[i], r[j]) {
          if i == 0 {
            assert r[j] in multiset(t);
            assert r[j] == x || r[j] in multiset(s[1..]);
            if r[j] != x {
              var k :| 0 <= k < |s[1..]| && s[1..][k] == r[j];
              assert le(s[0], s[k + 1]);
            }
          } else {
            assert r[i] == t[i - 1] && r[j] == t[j - 1];
          }
        }
      }
    }
  }

  lemma {:induction false} ClassAppend<T>(a: seq<T>, b: seq<T>, le: (T, T) -> bool, t: T)
    ensures Class(a + b, le, t) == Class(a, le, t) + Class(b, le, t)
    decreases |a|
  {
    if a == [] {
      assert a + b == b;
    } else {
      assert (a + b)[1..] == a[1..] + b;
      ClassAppend(a[1..], b, le, t);
    }
  }

  /** The equivalence class of `t` under `le`: `[x]` when `x` is in it. */
  function Singleton<T>(x: T, le: (T, T) -> bool, t: T): seq<T> {
    if le(x, t) && le(t, x) then [x] else []
  }

  /** The head of a sorted sequence that `x` is not before. */
  lemma ClassCons<T>(y: T, rest: seq<T>, le: (T, T) -> bool, t: T)
    ensures Class([y] + rest, le, t) == Singleton(y, le, t) + Class(rest, le, t)
  {
    assert ([y] + rest)[1..] == rest;
  }

  lemma InsertClassSkip<T>(x: T, s: seq<T>, le: (T, T) -> bool, t: T, all: seq<T>)
    requires s != [] && !le(x, s[0])
    requires x in all && t in all && s[0] in all && TotalPreorderOn(le, all)
    requires Class(Insert(x, s[1..], le), le, t) == Singleton(x, le, t) + Class(s[1..], le, t)
    ensures Class(Insert(x, s, le), le, t) == Singleton(x, le, t) + Class(s, le, t)
  {
    var tail := Insert(x, s[1..], le);
    var a, b, c := Singleton(s[0], le, t), Singleton(x, le, t), Class(s[1..], le, t);
    assert Class(Insert(x, s, le), le, t) == a + (b + c) by {
      assert Insert(x, s, le) == [s[0]] + tail;
      ClassCons(s[0], tail, le, t);
    }
    assert Class(s, le, t) == a + c;
    // s[0] equivalent to t would put x before s[0], by transitivity, so
    // x and s[0] are not both equivalent to t, so their singletons commute
    if a == [] {
      assert a + (b + c) == b + c;
      assert a + c == c;
    } else {
      assert b == [];
      assert b + (a + c) == a + c;
      assert b + c == c;
    }
  }

  /** Inserting an element outside `t`'s class leaves the class alone; inserting
      one inside it puts that element first in the class. */
  lemma {:induction false} InsertClass<T>(x: T, s: seq<T>, le: (T, T) -> bool, t: T, all: seq<T>)
    requires Sorted(s, le)
    requires x in all && t in all && forall y :: y in s ==> y in all
    requires TotalPreorderOn(le, all)
    ensures Class(Insert(x, s, le), le, t) == Singleton(x, le, t) + Class(s, le, t)
    decreases |s|
  {
    if s == [] {
      assert Insert(x, s, le) == [x] + [];
      ClassAppend([x], [], le, t);
    } else if le(x, s[0]) {
      ClassAppend([x], s, le, t);
    } else {
      assert s[0] in s;
      forall y | y in s[1..] ensures y in all {
        assert y in s;
      }
      InsertClass(x, s[1..], le, t, all);
      InsertClassSkip(x, s, le, t, all);
    }
  }

  /** Stability: within every class of equivalent elements the sort keeps the
      input order. */
  lemma {:induction false} SortByStable<T>(xs: seq<T>, le: (T, T) -> bool, t: T)
    requires TotalPreorderOn(le, [t] + xs)
    ensures TotalPreorderOn(le, xs)
    ensures Class(SortBy(xs, le), le, t) == Class(xs, le, t)
    decreases |xs|
  {
    if xs != [] {
      assert xs == [xs[0]] + xs[1..];
      forall y | y in [t] + xs[1..] ensures y in [t] + xs {
      }
      SortByStable(xs[1..], le, t);
      var rest := SortBy(xs[1..], le);
      forall y | y in rest ensures y in [t] + xs {
        assert y in multiset(xs[1..]);
      }
      InsertClass(xs[0], rest, le, t, [t] + xs);
      ClassAppend([xs[0]], xs[1..], le, t);
    }
  }
}
