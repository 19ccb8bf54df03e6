/**
 * Names, optional values and the few facts about sequences that every module needs.
 *
 * Qualified names of instances, ports, components and command mnemonics are compared and sorted by the program
 * and otherwise only looked up, so they are modelled by a totally ordered type. `Sorted` lists a set of them in
 * that order, which is how the program makes its results deterministic.
 */
module Basics {
  type Name = nat

  type Pair = (Name, Name)

  datatype Option<+T> = None | Some(value: T)

  ghost predicate NoDup<T>(s: seq<T>) {
    forall i, j :: 0 <= i < j < |s| ==> s[i] != s[j]
  }

  function ToSet<T>(s: seq<T>): set<T> {
    set x | x in s
  }

  function Last<T>(s: seq<T>): T
    requires s != []
  {
    s[|s| - 1]
  }

  function Init<T>(s: seq<T>): seq<T>
    requires s != []
  {
    s[..|s| - 1]
  }

  lemma Regroup<T>(a: seq<T>, b: seq<T>, c: seq<T>)
    ensures (a + b) + c == a + (b + c)
  {
  }

  lemma SplitHead<T>(a: seq<T>, b: seq<T>)
    requires a != []
    ensures a == [a[0]] + a[1..] && a + b == [a[0]] + (a[1..] + b)
  {
  }

  lemma {:induction false} NoDupSize<T>(s: seq<T>)
    ensures |ToSet(s)| <= |s|
    ensures NoDup(s) <==> |ToSet(s)| == |s|
  {
    if s == [] {
    } else {
      var front, x := Init(s), Last(s);
      NoDupSize(front);
      assert ToSet(s) == ToSet(front) + {x};
      assert s == front + [x];
      if NoDup(s) {
        assert x !in front;
      } else if NoDup(front) {
        var i, j :| 0 <= i < j < |s| && s[i] == s[j];
        assert j == |front| && x == front[i];
        assert ToSet(s) == ToSet(front);
      }
    }
  }

  lemma NoDupBounded<T>(s: seq<T>, bound: set<T>)
    requires NoDup(s) && forall x :: x in s ==> x in bound
    ensures |s| <= |bound|
  {
    NoDupSize(s);
    SubsetSize(ToSet(s), bound);
  }

  lemma {:induction false} SubsetSize<T>(a: set<T>, b: set<T>)
    requires a <= b
    ensures |a| <= |b|
    ensures |a| == |b| ==> a == b
  {
    if a == {} {
    } else {
      var x :| x in a;
      SubsetSize(a - {x}, b - {x});
    }
  }

  ghost predicate Ascending(s: seq<Name>) {
    forall i, j :: 0 <= i < j < |s| ==> s[i] < s[j]
  }

  ghost predicate IsLeast(m: Name, s: set<Name>) {
    m in s && forall x :: x in s ==> m <= x
  }

  lemma {:induction false} LeastExists(s: set<Name>) returns (m: Name)
    requires s != {}
    ensures IsLeast(m, s)
  {
    var x :| x in s;
    m := x;
    if s != {x} {
      assert s != {x} ==> exists y :: y in s && y != x;
      var r := LeastExists(s - {x});
      m := if x <= r then x else r;
      forall y | y in s ensures m <= y {
        assert y == x || y in s - {x};
      }
    }
  }

  lemma ASetHasALeast(s: set<Name>)
    requires s != {}
    ensures exists m :: m in s && forall x :: x in s ==> m <= x
  {
    var m := LeastExists(s);
    assert IsLeast(m, s);
  }

  function Least(s: set<Name>): (m: Name)
    requires s != {}
    ensures IsLeast(m, s)
  {
    ASetHasALeast(s);
    var m :| m in s && forall x :: x in s ==> m <= x;
    m
  }

  /** The names of a set in ascending order. */
  function Sorted(s: set<Name>): (r: seq<Name>)
    ensures Ascending(r) && (forall x :: x in r <==> x in s)
  {
    if s == {} then []
    else
      var m := Least(s);
      var rest := Sorted(s - {m});
      assert forall i :: 0 <= i < |rest| ==> rest[i] in rest;
      [m] + rest
  }

  /** The elements of a sequence that satisfy a test, in order. */
  function Filter<T(!new)>(s: seq<T>, keep: T -> bool): (r: seq<T>)
    ensures forall x :: x in r <==> x in s && keep(x)
  {
    if s == [] then [] else (if keep(s[0]) then [s[0]] else []) + Filter(s[1..], keep)
  }

  lemma FilterCons<T(!new)>(x: T, s: seq<T>, keep: T -> bool)
    ensures Filter([x] + s, keep) == if keep(x) then [x] + Filter(s, keep) else Filter(s, keep)
  {
    assert ([x] + s)[1..] == s;
  }
}
