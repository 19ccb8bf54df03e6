/** The order in which cycles are met, which is that of their names, and the order in which they are listed. */
module CycleOrder {
  import opened Basics

  /** The first is cut off from the second, or has the smaller name where the two first differ. */
  ghost predicate Earlier(a: seq<Name>, b: seq<Name>) {
    a < b || DiffersAt(a, b)
  }

  ghost predicate DiffersAt(a: seq<Name>, b: seq<Name>) {
    exists k :: 0 <= k < |a| && k < |b| && a[..k] == b[..k] && a[k] < b[k]
  }

  /** Shortest first, then in name order. */
  ghost predicate Precedes(a: seq<Name>, b: seq<Name>) {
    |a| < |b| || (|a| == |b| && Earlier(a, b))
  }

  predicate LexLeq(a: seq<Name>, b: seq<Name>) {
    a == [] || (b != [] && (a[0] < b[0] || (a[0] == b[0] && LexLeq(a[1..], b[1..]))))
  }

  // Shortest first, then in name order; a list may go before itself.
  predicate Before(a: seq<Name>, b: seq<Name>) {
    |a| < |b| || (|a| == |b| && LexLeq(a, b))
  }

  lemma {:induction false} LexTotal(a: seq<Name>, b: seq<Name>)
    ensures LexLeq(a, b) || LexLeq(b, a)
  {
    if a != [] && b != [] && a[0] == b[0] {
      LexTotal(a[1..], b[1..]);
    }
  }

  lemma {:induction false} LexTrans(a: seq<Name>, b: seq<Name>, c: seq<Name>)
    requires LexLeq(a, b) && LexLeq(b, c)
    ensures LexLeq(a, c)
  {
    if a != [] && a[0] == b[0] == c[0] {
      LexTrans(a[1..], b[1..], c[1..]);
    }
  }

  ghost predicate Ordered(s: seq<seq<Name>>) {
    forall i, j :: 0 <= i < j < |s| ==> Before(s[i], s[j])
  }

  function Insert(c: seq<Name>, s: seq<seq<Name>>): (r: seq<seq<Name>>)
    ensures multiset(r) == multiset(s) + multiset{c}
  {
    if s == [] then [c]
    else if Before(c, s[0]) then [c] + s
    else
      assert s == [s[0]] + s[1..];
      [s[0]] + Insert(c, s[1..])
  }

  lemma OrderedCons(x: seq<Name>, s: seq<seq<Name>>)
    requires Ordered(s) && forall y :: y in multiset(s) ==> Before(x, y)
    ensures Ordered([x] + s)
  {
    assert forall j :: 0 <= j < |s| ==> s[j] in multiset(s);
  }

  lemma {:induction false} InsertOrders(c: seq<Name>, s: seq<seq<Name>>)
    requires Ordered(s)
    ensures Ordered(Insert(c, s))
  {
    if s != [] {
      LexTotal(c, s[0]);
      assert s == [s[0]] + s[1..];
      forall y | y in s && Before(c, s[0]) ensures Before(c, y) {
        var j :| 0 <= j < |s| && s[j] == y;
        if j > 0 && |c| == |s[0]| == |y| {
          assert Before(s[0], s[j]);
          LexTrans(c, s[0], y);
        }
      }
      if Before(c, s[0]) {
        OrderedCons(c, s);
      } else {
        InsertOrders(c, s[1..]);
        forall y | y in multiset(Insert(c, s[1..])) ensures Before(s[0], y) {
          assert y == c || y in multiset(s[1..]);
        }
        OrderedCons(s[0], Insert(c, s[1..]));
      }
    }
  }

  /** The list in order; the program uses the built-in sort. */
  function SortedCycles(s: seq<seq<Name>>): (r: seq<seq<Name>>)
    ensures Ordered(r) && multiset(r) == multiset(s)
  {
    if s == [] then []
    else
      assert s == [s[0]] + s[1..];
      var rest := SortedCycles(s[1..]);
      InsertOrders(s[0], rest);
      Insert(s[0], rest)
  }

  lemma SortingKeepsElements(s: seq<seq<Name>>)
    ensures forall c :: c in SortedCycles(s) <==> c in s
    ensures |SortedCycles(s)| == |s| && (NoDup(s) ==> NoDup(SortedCycles(s)))
  {
    var r := SortedCycles(s);
    assert forall c :: c in r <==> c in multiset(r);
    assert forall c :: c in s <==> c in multiset(s);
    assert |multiset(r)| == |multiset(s)|;
    NoDupSize(s);
    NoDupSize(r);
    assert ToSet(r) == ToSet(s);
  }

  // ---------------------------------------------------------------------------------------------
  // The order of names is total
  // ---------------------------------------------------------------------------------------------

  lemma {:induction false} LexIsEarlier(a: seq<Name>, b: seq<Name>)
    ensures LexLeq(a, b) <==> a == b || Earlier(a, b)
  {
    if a == [] || b == [] {
      assert a == [] && b != [] ==> a < b;
    } else {
      LexIsEarlier(a[1..], b[1..]);
      assert a == [a[0]] + a[1..] && b == [b[0]] + b[1..];
      if a[0] < b[0] {
        assert a[..0] == b[..0];
      } else if a[0] == b[0] {
        EarlierCons(a[0], a[1..], b[1..]);
      } else if Earlier(a, b) {
        EarlierHeads(a, b);
      }
    }
  }

  lemma EarlierHeads(a: seq<Name>, b: seq<Name>)
    requires Earlier(a, b) && a != []
    ensures b != [] && a[0] <= b[0]
  {
    if DiffersAt(a, b) {
      var k :| 0 <= k < |a| && k < |b| && a[..k] == b[..k] && a[k] < b[k];
      if k > 0 {
        assert a[..k][0] == b[..k][0];
      }
    }
  }

  lemma EarlierCons(x: Name, a: seq<Name>, b: seq<Name>)
    ensures Earlier([x] + a, [x] + b) <==> Earlier(a, b)
  {
    var p, q := [x] + a, [x] + b;
    assert p[1..] == a && q[1..] == b;
    if DiffersAt(a, b) {
      DiffersFurther(x, a, b);
    }
    if DiffersAt(p, q) {
      DiffersNearer(x, a, b);
    }
  }

  lemma DiffersFurther(x: Name, a: seq<Name>, b: seq<Name>)
    requires DiffersAt(a, b)
    ensures DiffersAt([x] + a, [x] + b)
  {
    var p, q := [x] + a, [x] + b;
    var k :| 0 <= k < |a| && k < |b| && a[..k] == b[..k] && a[k] < b[k];
    assert p[..k + 1] == [x] + a[..k] && q[..k + 1] == [x] + b[..k] && p[k + 1] < q[k + 1];
  }

  lemma DiffersNearer(x: Name, a: seq<Name>, b: seq<Name>)
    requires DiffersAt([x] + a, [x] + b)
    ensures DiffersAt(a, b)
  {
    var p, q := [x] + a, [x] + b;
    var k :| 0 <= k < |p| && k < |q| && p[..k] == q[..k] && p[k] < q[k];
    var u, v := a[..k - 1], b[..k - 1];
    assert p[..k] == [x] + u && q[..k] == [x] + v;
    assert ([x] + u)[1..] == u && ([x] + v)[1..] == v;
    assert a[k - 1] < b[k - 1];
  }

  lemma {:induction false} LexAntisym(a: seq<Name>, b: seq<Name>)
    requires LexLeq(a, b) && LexLeq(b, a)
    ensures a == b
  {
    if a != [] && b != [] {
      LexAntisym(a[1..], b[1..]);
      assert a == [a[0]] + a[1..] && b == [b[0]] + b[1..];
    }
  }

  /** Of two different lists exactly one is earlier. */
  lemma EarlierTotal(a: seq<Name>, b: seq<Name>)
    requires a != b
    ensures Earlier(a, b) <==> !Earlier(b, a)
  {
    LexIsEarlier(a, b);
    LexIsEarlier(b, a);
    LexTotal(a, b);
    if LexLeq(a, b) && LexLeq(b, a) {
      LexAntisym(a, b);
    }
  }

  lemma EarlierTrans(a: seq<Name>, b: seq<Name>, c: seq<Name>)
    requires Earlier(a, b) && Earlier(b, c)
    ensures Earlier(a, c)
  {
    LexIsEarlier(a, b);
    LexIsEarlier(b, c);
    LexTrans(a, b, c);
    LexIsEarlier(a, c);
    if a == c {
      EarlierTotal(a, b);
    }
  }

  lemma {:induction false} EarliestExists(s: set<seq<Name>>) returns (m: seq<Name>)
    requires s != {}
    ensures m in s && forall c :: c in s && c != m ==> Earlier(m, c)
  {
    var x :| x in s;
    if s == {x} {
      m := x;
    } else {
      var rest := s - {x};
      assert s == rest + {x};
      var y := EarliestExists(rest);
      EarlierTotal(x, y);
      m := if Earlier(x, y) then x else y;
      forall c | c in s && c != m ensures Earlier(m, c) {
        if m == x && c != y {
          EarlierTrans(x, y, c);
        }
      }
    }
  }

  /** A sorted list without repetitions is in order. */
  lemma OrderedPrecedes(s: seq<seq<Name>>)
    requires Ordered(s) && NoDup(s)
    ensures forall i, j :: 0 <= i < j < |s| ==> Precedes(s[i], s[j])
  {
    forall i, j | 0 <= i < j < |s| ensures Precedes(s[i], s[j]) {
      assert Before(s[i], s[j]) && s[i] != s[j];
      LexIsEarlier(s[i], s[j]);
    }
  }
}
