/** Elementary cycles inside one component of the lock-order graph (guarded_port_analyzer.py). */
module Cycles {
  import opened Basics
  import opened CycleOrder

  // ---------------------------------------------------------------------------------------------
  // Elementary cycles
  // ---------------------------------------------------------------------------------------------

  /** The name that follows position k of a cycle. */
  function NextOn(c: seq<Name>, k: nat): Name
    requires c != []
  {
    if k + 1 < |c| then c[k + 1] else c[0]
  }

  /** Each name is held while the next one is taken, all names differ, and there are at least two. */
  ghost predicate IsCycle(edges: set<Pair>, c: seq<Name>) {
    |c| >= 2 && NoDup(c) && forall k :: 0 <= k < |c| ==> (c[k], NextOn(c, k)) in edges
  }

  /** The rotation of a cycle that starts at its smallest name. */
  ghost predicate Canonical(edges: set<Pair>, c: seq<Name>) {
    IsCycle(edges, c) && forall k :: 0 < k < |c| ==> c[0] < c[k]
  }

  function Rotate(c: seq<Name>, k: nat): seq<Name>
    requires k <= |c|
  {
    c[k..] + c[..k]
  }

  lemma RotateIsCycle(edges: set<Pair>, c: seq<Name>, k: nat)
    requires IsCycle(edges, c) && k < |c|
    ensures IsCycle(edges, Rotate(c, k))
  {
    var r := Rotate(c, k);
    assert forall i :: 0 <= i < |r| ==> r[i] == if i + k < |c| then c[i + k] else c[i + k - |c|];
    forall i | 0 <= i < |r| ensures (r[i], NextOn(r, i)) in edges {
      var j := if i + k < |c| then i + k else i + k - |c|;
      assert NextOn(r, i) == NextOn(c, j);
    }
  }

  /** Every elementary cycle has a canonical rotation, and it is the only one. */
  lemma CanonicalRotation(edges: set<Pair>, c: seq<Name>) returns (k: nat)
    requires IsCycle(edges, c)
    ensures k < |c| && Canonical(edges, Rotate(c, k))
    ensures forall j :: 0 <= j < |c| && Canonical(edges, Rotate(c, j)) ==> j == k
  {
    assert c[0] in ToSet(c);
    var m := LeastExists(ToSet(c));
    k :| 0 <= k < |c| && c[k] == m;
    RotateIsCycle(edges, c, k);
    var r := Rotate(c, k);
    forall i | 0 < i < |r| ensures r[0] < r[i] {
      assert r[i] in ToSet(c);
      assert r[0] != r[i];
    }
    forall j | 0 <= j < |c| && Canonical(edges, Rotate(c, j)) ensures j == k {
      var q := Rotate(c, j);
      var i := if k >= j then k - j else k + |c| - j;
      assert q[i] == m && q[0] == c[j] && c[j] in ToSet(c);
    }
  }

  // ---------------------------------------------------------------------------------------------
  // The search
  // ---------------------------------------------------------------------------------------------

  /** Sorted successors inside one component, self edges left out. */
  ghost predicate Inside(edges: set<Pair>, members: set<Name>, adjacency: map<Name, seq<Name>>) {
    && adjacency.Keys == members
    && (forall a :: a in members ==> Ascending(adjacency[a]))
    && (forall a, b :: a in members ==> (b in adjacency[a] <==> b in members && b != a && (a, b) in edges))
  }

  ghost predicate Within(members: set<Name>, c: seq<Name>) {
    forall x :: x in c ==> x in members
  }

  /** A simple path whose first name is its smallest. */
  ghost predicate OpenPath(edges: set<Pair>, members: set<Name>, path: seq<Name>) {
    && path != [] && NoDup(path) && Within(members, path)
    && (forall k :: 0 < k < |path| ==> path[0] < path[k])
    && (forall k :: 0 <= k < |path| - 1 ==> (path[k], path[k + 1]) in edges)
  }

  /** A canonical cycle inside the component that continues the path. */
  ghost predicate Continues(edges: set<Pair>, members: set<Name>, path: seq<Name>, c: seq<Name>) {
    Canonical(edges, c) && Within(members, c) && path <= c
  }

  ghost predicate FoundFrom(edges: set<Pair>, members: set<Name>, path: seq<Name>, found: seq<seq<Name>>) {
    NoDup(found) && forall c :: c in found ==> Continues(edges, members, path, c)
  }

  ghost predicate FoundAll(edges: set<Pair>, members: set<Name>, path: seq<Name>, found: seq<seq<Name>>) {
    forall c :: Continues(edges, members, path, c) ==> c in found
  }

  ghost predicate FoundVia(edges: set<Pair>, members: set<Name>, path: seq<Name>, firsts: seq<Name>,
                           found: seq<seq<Name>>)
    requires path != []
  {
    NoDup(found) && forall c :: c in found ==> Continues(edges, members, path, c) && NextOn(c, |path| - 1) in firsts
  }

  ghost predicate FoundAllVia(edges: set<Pair>, members: set<Name>, path: seq<Name>, firsts: seq<Name>,
                              found: seq<seq<Name>>)
    requires path != []
  {
    forall c :: Continues(edges, members, path, c) && NextOn(c, |path| - 1) in firsts ==> c in found
  }

  /** Whatever cycle is found, so are the cycles of the path that come earlier. */
  ghost predicate FoundFirst(edges: set<Pair>, members: set<Name>, path: seq<Name>, found: seq<seq<Name>>) {
    forall c, d :: d in found && Continues(edges, members, path, c) && Earlier(c, d) ==> c in found
  }

  ghost predicate Nexts(edges: set<Pair>, members: set<Name>, node: Name, nexts: seq<Name>) {
    Ascending(nexts) && forall b :: b in nexts <==> b in members && b != node && (node, b) in edges
  }

  lemma FirstsGrow(nexts: seq<Name>, i: nat)
    requires i < |nexts| && Ascending(nexts)
    ensures nexts[i] !in nexts[..i] && forall x :: x in nexts[..i + 1] <==> x in nexts[..i] || x == nexts[i]
  {
    assert nexts[..i + 1] == nexts[..i] + [nexts[i]];
  }

  /** The path itself is the only cycle that returns to its start next. */
  lemma ClosesCycle(edges: set<Pair>, members: set<Name>, path: seq<Name>, nexts: seq<Name>, i: nat,
                    found: seq<seq<Name>>)
    requires OpenPath(edges, members, path) && Nexts(edges, members, Last(path), nexts)
    requires i < |nexts| && nexts[i] == path[0] && FoundVia(edges, members, path, nexts[..i], found)
    ensures FoundVia(edges, members, path, nexts[..i + 1], found + [path])
    ensures FoundAllVia(edges, members, path, nexts[..i], found)
        ==> FoundAllVia(edges, members, path, nexts[..i + 1], found + [path])
  {
    FirstsGrow(nexts, i);
    assert nexts[i] in nexts;
    assert Canonical(edges, path);
    forall c | Continues(edges, members, path, c) && NextOn(c, |path| - 1) == nexts[i] ensures c == path {
      assert path[0] == c[0];
    }
    assert path !in found;
  }

  /** No cycle goes next through a name already on the path or smaller than its start. */
  lemma SkipsName(edges: set<Pair>, members: set<Name>, path: seq<Name>, nexts: seq<Name>, i: nat,
                  found: seq<seq<Name>>)
    requires OpenPath(edges, members, path) && Nexts(edges, members, Last(path), nexts)
    requires i < |nexts| && nexts[i] != path[0] && (nexts[i] in path || nexts[i] < path[0])
    requires FoundVia(edges, members, path, nexts[..i], found)
    ensures FoundVia(edges, members, path, nexts[..i + 1], found)
    ensures FoundAllVia(edges, members, path, nexts[..i], found)
        ==> FoundAllVia(edges, members, path, nexts[..i + 1], found)
  {
    FirstsGrow(nexts, i);
    forall c | Continues(edges, members, path, c) ensures NextOn(c, |path| - 1) != nexts[i] {
      assert path[0] == c[0];
      if |path| < |c| && nexts[i] in path {
        var j :| 0 <= j < |path| && path[j] == nexts[i];
        assert c[j] == nexts[i];
      }
    }
  }

  lemma OpenPathGrows(edges: set<Pair>, members: set<Name>, path: seq<Name>, nexts: seq<Name>, next: Name)
    requires OpenPath(edges, members, path) && Nexts(edges, members, Last(path), nexts)
    requires next in nexts && next !in path && path[0] < next
    ensures OpenPath(edges, members, path + [next])
  {
  }

  /** The cycles through the path and one more name are those of the longer path. */
  lemma GoesDeeper(edges: set<Pair>, members: set<Name>, path: seq<Name>, nexts: seq<Name>, i: nat,
                   found: seq<seq<Name>>, deeper: seq<seq<Name>>)
    requires OpenPath(edges, members, path) && Nexts(edges, members, Last(path), nexts)
    requires i < |nexts| && path[0] < nexts[i] && FoundVia(edges, members, path, nexts[..i], found)
    requires FoundFrom(edges, members, path + [nexts[i]], deeper)
    ensures FoundVia(edges, members, path, nexts[..i + 1], found + deeper)
    ensures FoundAllVia(edges, members, path, nexts[..i], found) && FoundAll(edges, members, path + [nexts[i]], deeper)
        ==> FoundAllVia(edges, members, path, nexts[..i + 1], found + deeper)
  {
    FirstsGrow(nexts, i);
    var longer := path + [nexts[i]];
    forall c | Continues(edges, members, path, c) && NextOn(c, |path| - 1) == nexts[i]
      ensures Continues(edges, members, longer, c)
    {
      assert path[0] == c[0];
      assert c[..|longer|] == longer;
    }
    forall c | c in deeper ensures Continues(edges, members, path, c) && NextOn(c, |path| - 1) == nexts[i] {
      assert longer <= c;
      assert c[|path|] == longer[|path|];
    }
    forall j, k | 0 <= j < k < |found + deeper| ensures (found + deeper)[j] != (found + deeper)[k] {
      if j < |found| <= k {
        assert found[j] in found && deeper[k - |found|] in deeper;
      }
    }
  }

  /** Closing the path is the earliest way to continue it. */
  lemma ClosesFirst(edges: set<Pair>, members: set<Name>, path: seq<Name>, found: seq<seq<Name>>)
    requires FoundFirst(edges, members, path, found)
    ensures FoundFirst(edges, members, path, found + [path])
  {
    forall c | path <= c ensures !Earlier(c, path) {
      assert forall k :: 0 <= k < |path| ==> c[k] == path[k];
    }
  }

  /** An earlier continuation goes on through a smaller name, or through the same one. */
  lemma EarlierGoesBefore(path: seq<Name>, c: seq<Name>, d: seq<Name>)
    requires path <= c && path < d && Earlier(c, d)
    ensures |c| > |path| ==> c[|path|] <= d[|path|]
  {
    if |c| > |path| && DiffersAt(c, d) {
      assert forall j :: 0 <= j < |path| ==> c[j] == path[j] == d[j];
      var k :| 0 <= k < |c| && k < |d| && c[..k] == d[..k] && c[k] < d[k];
      if k > |path| {
        assert c[..k][|path|] == d[..k][|path|];
      }
    }
  }

  /** A cycle earlier than one through nexts[i] goes on through it too, or has been found already. */
  lemma FoundOrHere(edges: set<Pair>, members: set<Name>, path: seq<Name>, nexts: seq<Name>, i: nat,
                    found: seq<seq<Name>>, c: seq<Name>, d: seq<Name>)
    requires OpenPath(edges, members, path) && Nexts(edges, members, Last(path), nexts)
    requires i < |nexts| && path[0] < nexts[i] && FoundAllVia(edges, members, path, nexts[..i], found)
    requires path + [nexts[i]] <= d && Continues(edges, members, path, c) && Earlier(c, d)
    ensures c in found || path + [nexts[i]] <= c
  {
    var next := NextOn(c, |path| - 1);
    NextIsTried(edges, members, path, nexts, c);
    assert path < d && d[|path|] == (path + [nexts[i]])[|path|] == nexts[i];
    EarlierGoesBefore(path, c, d);
    assert path[0] == c[0];
    var j :| 0 <= j < |nexts| && nexts[j] == next;
    if j < i {
      assert nexts[..i][j] == next;
    } else {
      assert |c| > |path| && next == c[|path|] == nexts[i];
      assert c[..|path| + 1] == path + [nexts[i]];
    }
  }

  lemma NextIsTried(edges: set<Pair>, members: set<Name>, path: seq<Name>, nexts: seq<Name>, c: seq<Name>)
    requires OpenPath(edges, members, path) && Nexts(edges, members, Last(path), nexts)
    requires Continues(edges, members, path, c)
    ensures NextOn(c, |path| - 1) in nexts
  {
    var k := |path| - 1;
    assert c[k] == path[k] && (c[k], NextOn(c, k)) in edges;
    assert NextOn(c, k) in c;
  }

  /** What is found through one more name comes after what was found before. */
  lemma DeeperComesLater(edges: set<Pair>, members: set<Name>, path: seq<Name>, nexts: seq<Name>, i: nat,
                         found: seq<seq<Name>>, deeper: seq<seq<Name>>)
    requires OpenPath(edges, members, path) && Nexts(edges, members, Last(path), nexts)
    requires i < |nexts| && path[0] < nexts[i]
    requires FoundFrom(edges, members, path + [nexts[i]], deeper)
    requires FoundFirst(edges, members, path, found) && FoundFirst(edges, members, path + [nexts[i]], deeper)
    requires deeper == [] || FoundAllVia(edges, members, path, nexts[..i], found)
    ensures FoundFirst(edges, members, path, found + deeper)
  {
    forall c, d | d in found + deeper && Continues(edges, members, path, c) && Earlier(c, d)
      ensures c in found + deeper
    {
      if d in deeper {
        FoundOrHere(edges, members, path, nexts, i, found, c, d);
        if path + [nexts[i]] <= c {
          assert Continues(edges, members, path + [nexts[i]], c);
        }
      }
    }
  }

  /** Every cycle that continues the path goes next through one of the successors of its last name. */
  lemma AllFirstsTried(edges: set<Pair>, members: set<Name>, path: seq<Name>, nexts: seq<Name>, found: seq<seq<Name>>)
    requires OpenPath(edges, members, path) && Nexts(edges, members, Last(path), nexts)
    requires FoundVia(edges, members, path, nexts, found)
    ensures FoundFrom(edges, members, path, found)
    ensures FoundAllVia(edges, members, path, nexts, found) ==> FoundAll(edges, members, path, found)
  {
    forall c | Continues(edges, members, path, c) ensures NextOn(c, |path| - 1) in nexts {
      NextIsTried(edges, members, path, nexts, c);
    }
  }

  /** What trying the first i successors has found; when the cap is not reached, that is everything. */
  ghost predicate Tried(edges: set<Pair>, members: set<Name>, path: seq<Name>, nexts: seq<Name>, i: nat,
                        found: seq<seq<Name>>, all: bool)
    requires path != []
  {
    && i <= |nexts| && FoundVia(edges, members, path, nexts[..i], found) && FoundFirst(edges, members, path, found)
    && (all ==> FoundAllVia(edges, members, path, nexts[..i], found))
  }

  lemma TriedStart(edges: set<Pair>, members: set<Name>, path: seq<Name>, nexts: seq<Name>, i: nat,
                   found: seq<seq<Name>>)
    requires OpenPath(edges, members, path) && Nexts(edges, members, Last(path), nexts)
    requires i < |nexts| && nexts[i] == path[0] && Tried(edges, members, path, nexts, i, found, true)
    ensures Tried(edges, members, path, nexts, i + 1, found + [path], true)
    ensures FoundFrom(edges, members, path, found + [path])
  {
    ClosesCycle(edges, members, path, nexts, i, found);
    ClosesFirst(edges, members, path, found);
  }

  lemma TriedInVain(edges: set<Pair>, members: set<Name>, path: seq<Name>, nexts: seq<Name>, i: nat,
                    found: seq<seq<Name>>, all: bool)
    requires OpenPath(edges, members, path) && Nexts(edges, members, Last(path), nexts)
    requires i < |nexts| && nexts[i] != path[0] && (nexts[i] in path || nexts[i] < path[0])
    requires Tried(edges, members, path, nexts, i, found, all)
    ensures Tried(edges, members, path, nexts, i + 1, found, all)
  {
    SkipsName(edges, members, path, nexts, i, found);
  }

  lemma TriedDeeper(edges: set<Pair>, members: set<Name>, path: seq<Name>, nexts: seq<Name>, i: nat,
                    found: seq<seq<Name>>, deeper: seq<seq<Name>>, before: bool, after: bool)
    requires OpenPath(edges, members, path) && Nexts(edges, members, Last(path), nexts)
    requires i < |nexts| && path[0] < nexts[i] && Tried(edges, members, path, nexts, i, found, before)
    requires FoundFrom(edges, members, path + [nexts[i]], deeper)
    requires FoundFirst(edges, members, path + [nexts[i]], deeper)
    requires (deeper == [] || before) && (after ==> before && FoundAll(edges, members, path + [nexts[i]], deeper))
    ensures Tried(edges, members, path, nexts, i + 1, found + deeper, after)
  {
    GoesDeeper(edges, members, path, nexts, i, found, deeper);
    DeeperComesLater(edges, members, path, nexts, i, found, deeper);
  }

  lemma TriedAll(edges: set<Pair>, members: set<Name>, path: seq<Name>, nexts: seq<Name>, found: seq<seq<Name>>,
                 all: bool)
    requires OpenPath(edges, members, path) && Nexts(edges, members, Last(path), nexts)
    requires Tried(edges, members, path, nexts, |nexts|, found, all)
    ensures FoundFrom(edges, members, path, found) && FoundFirst(edges, members, path, found)
    ensures all ==> FoundAll(edges, members, path, found)
  {
    assert nexts[..|nexts|] == nexts;
    AllFirstsTried(edges, members, path, nexts, found);
  }

  class CycleSearch {
    ghost const edges: set<Pair>
    ghost const members: set<Name>
    const adjacency: map<Name, seq<Name>>
    const maxCycles: int
    var cycles: seq<seq<Name>>
    var path: seq<Name>
    var onPath: set<Name>

    ghost predicate Valid()
      reads this
    {
      Inside(edges, members, adjacency) && onPath == ToSet(path)
    }

    constructor (ghost edges: set<Pair>, ghost members: set<Name>, adjacency: map<Name, seq<Name>>, maxCycles: int)
      requires Inside(edges, members, adjacency)
      ensures Valid() && this.edges == edges && this.members == members && this.maxCycles == maxCycles
      ensures cycles == []
    {
      this.edges, this.members, this.adjacency, this.maxCycles := edges, members, adjacency, maxCycles;
      cycles, path, onPath := [], [], {};
    }

    /** Extends the path in every possible way; a path that closes is a cycle. */
    method Dfs(node: Name, start: Name)
      requires Valid() && OpenPath(edges, members, path) && path[0] == start && Last(path) == node
      modifies this`cycles, this`path, this`onPath
      ensures Valid() && path == old(path)
      ensures old(cycles) <= cycles && |cycles| <= if |old(cycles)| < maxCycles then maxCycles else |old(cycles)|
      ensures FoundFrom(edges, members, path, cycles[|old(cycles)|..])
      ensures |cycles| < maxCycles ==> FoundAll(edges, members, path, cycles[|old(cycles)|..])
      ensures FoundFirst(edges, members, path, cycles[|old(cycles)|..])
      decreases members - onPath, 1
    {
      if |cycles| >= maxCycles {
        return;
      }
      var nexts := adjacency[node];
      for i := 0 to |nexts|
        invariant Valid() && path == old(path) && old(cycles) <= cycles && |cycles| <= maxCycles
        invariant i == 0 || nexts[i - 1] < start ==> cycles == old(cycles)
        invariant Tried(edges, members, path, nexts, i, cycles[|old(cycles)|..], |cycles| < maxCycles)
      {
        var next := nexts[i];
        ghost var found := cycles[|old(cycles)|..];
        if next == start {
          cycles := cycles + [path];
          TriedStart(edges, members, path, nexts, i, found);
          if |cycles| >= maxCycles {
            return;
          }
        } else if next in onPath || next < start {
          TriedInVain(edges, members, path, nexts, i, found, |cycles| < maxCycles);
        } else {
          ghost var earlier := cycles;
          Extend(next, start, nexts, i, found);
          assert cycles[|old(cycles)|..] == found + cycles[|earlier|..];
        }
      }
      TriedAll(edges, members, path, nexts, cycles[|old(cycles)|..], |cycles| < maxCycles);
    }

    /** Puts one more name on the path, searches from there, and takes it off again. */
    method Extend(next: Name, start: Name, ghost nexts: seq<Name>, ghost i: nat, ghost found: seq<seq<Name>>)
      requires Valid() && OpenPath(edges, members, path) && path[0] == start && Nexts(edges, members, Last(path), nexts)
      requires i < |nexts| && nexts[i] == next && next !in path && start < next
      requires Tried(edges, members, path, nexts, i, found, |cycles| < maxCycles)
      modifies this`cycles, this`path, this`onPath
      ensures Valid() && path == old(path)
      ensures old(cycles) <= cycles && |cycles| <= if |old(cycles)| < maxCycles then maxCycles else |old(cycles)|
      ensures Tried(edges, members, path, nexts, i + 1, found + cycles[|old(cycles)|..], |cycles| < maxCycles)
      decreases members - onPath, 0
    {
      ghost var before, earlier := path, cycles;
      OpenPathGrows(edges, members, path, nexts, next);
      path, onPath := path + [next], onPath + {next};
      Dfs(next, start);
      onPath, path := onPath - {next}, Init(path);
      assert path == before;
      ghost var deeper := cycles[|earlier|..];
      TriedDeeper(edges, members, path, nexts, i, found, deeper, |earlier| < maxCycles, |cycles| < maxCycles);
    }

    /** All canonical cycles from one start name. */
    method From(start: Name)
      requires Valid() && start in members
      modifies this`cycles, this`path, this`onPath
      ensures Valid() && old(cycles) <= cycles
      ensures |cycles| <= if |old(cycles)| < maxCycles then maxCycles else |old(cycles)|
      ensures FoundFrom(edges, members, [start], cycles[|old(cycles)|..])
      ensures |cycles| < maxCycles ==> FoundAll(edges, members, [start], cycles[|old(cycles)|..])
      ensures FoundFirst(edges, members, [start], cycles[|old(cycles)|..])
    {
      path, onPath := [start], {start};
      Dfs(start, start);
    }
  }

  // ---------------------------------------------------------------------------------------------
  // All cycles of one component
  // ---------------------------------------------------------------------------------------------

  /** Canonical cycles whose names all lie in the component. */
  ghost predicate CycleInside(edges: set<Pair>, members: set<Name>, c: seq<Name>) {
    Canonical(edges, c) && Within(members, c)
  }

  /** There are at least this many cycles in the component. */
  ghost predicate AtLeast(edges: set<Pair>, members: set<Name>, count: int) {
    exists cycles :: NoDup(cycles) && |cycles| >= count && forall c :: c in cycles ==> CycleInside(edges, members, c)
  }

  /** Whatever cycle is found, so are the cycles of the component that come earlier. */
  ghost predicate EarlierToo(edges: set<Pair>, members: set<Name>, found: seq<seq<Name>>) {
    forall c, d :: d in found && CycleInside(edges, members, c) && Earlier(c, d) ==> c in found
  }

  /** All cycles of the component, or if they are more than the cap, the earliest ones, as many as the cap. */
  ghost predicate FirstCycles(edges: set<Pair>, members: set<Name>, cap: int, cycles: seq<seq<Name>>) {
    && NoDup(cycles) && (forall c :: c in cycles ==> CycleInside(edges, members, c))
    && EarlierToo(edges, members, cycles) && |cycles| <= AtMost(cap)
    && (|cycles| == AtMost(cap) || forall c :: CycleInside(edges, members, c) ==> c in cycles)
  }

  function AtMost(cap: int): nat { if cap < 0 then 0 else cap }

  /** The cap leaves no choice. */
  lemma FirstCyclesAreUnique(edges: set<Pair>, members: set<Name>, cap: int, a: seq<seq<Name>>, b: seq<seq<Name>>)
    requires FirstCycles(edges, members, cap, a) && FirstCycles(edges, members, cap, b)
    ensures forall c :: c in a ==> c in b
  {
    forall c | c in a ensures c in b {
      if c !in b {
        forall d | d in b ensures d in a {
          EarlierTotal(c, d);
        }
        NoDupSize(a);
        NoDupSize(b);
        assert ToSet(b) <= ToSet(a) - {c};
        SubsetSize(ToSet(b), ToSet(a) - {c});
      }
    }
  }

  ghost predicate StartsIn(c: seq<Name>, starts: seq<Name>) {
    c != [] && c[0] in starts
  }

  method Adjacencies(edges: set<Pair>, members: set<Name>) returns (adjacency: map<Name, seq<Name>>)
    ensures Inside(edges, members, adjacency)
  {
    adjacency := map a | a in members :: Sorted(set e | e in edges && e.0 == a && e.1 in members && e.1 != a :: e.1);
  }

  /** Searches from one member after another, up to the cap. */
  method SearchFrom(edges: set<Pair>, members: set<Name>, starts: seq<Name>, maxCycles: int)
    returns (found: seq<seq<Name>>, capped: bool)
    requires starts == Sorted(members)
    ensures FoundUpTo(edges, members, starts, found) && |found| <= AtMost(maxCycles)
    ensures !capped ==> AllUpTo(edges, members, starts, found) && (members != {} ==> |found| < maxCycles)
    ensures capped ==> |found| == AtMost(maxCycles) && |found| >= maxCycles
    ensures EarlierToo(edges, members, found)
  {
    var adjacency := Adjacencies(edges, members);
    var search := new CycleSearch(edges, members, adjacency, maxCycles);
    for i := 0 to |starts|
      invariant search.Valid() && fresh(search)
      invariant search.edges == edges && search.members == members && search.maxCycles == maxCycles
      invariant |search.cycles| <= AtMost(maxCycles) && (i > 0 ==> |search.cycles| < maxCycles)
      invariant FoundUpTo(edges, members, starts[..i], search.cycles)
      invariant AllUpTo(edges, members, starts[..i], search.cycles) && EarlierToo(edges, members, search.cycles)
    {
      ghost var before := search.cycles;
      search.From(starts[i]);
      NextStart(edges, members, starts, i, before, search.cycles);
      LaterStart(edges, members, starts, i, before, search.cycles);
      if |search.cycles| >= maxCycles {
        StartsAmong(edges, members, starts, i + 1, search.cycles);
        return search.cycles, true;
      }
    }
    assert starts[..|starts|] == starts;
    return search.cycles, false;
  }

  lemma StartsAmong(edges: set<Pair>, members: set<Name>, starts: seq<Name>, i: nat, found: seq<seq<Name>>)
    requires i <= |starts| && FoundUpTo(edges, members, starts[..i], found)
    ensures FoundUpTo(edges, members, starts, found)
  {
    assert forall x :: x in starts[..i] ==> x in starts;
  }

  /**
   * The elementary cycles of one component, each once, starting at its smallest name, shortest first and then in name
   * order. The search goes through them in the order of their names, and at the cap it stops and says so.
   */
  method ElementaryCycles(edges: set<Pair>, members: set<Name>, maxCycles: int)
    returns (cycles: seq<seq<Name>>, capped: bool)
    ensures FirstCycles(edges, members, maxCycles, cycles)
    ensures forall i, j :: 0 <= i < j < |cycles| ==> Precedes(cycles[i], cycles[j])
    ensures !capped ==> forall c :: CycleInside(edges, members, c) ==> c in cycles
    ensures members != {} ==> (capped <==> AtLeast(edges, members, maxCycles))
  {
    var starts := Sorted(members);
    var found;
    found, capped := SearchFrom(edges, members, starts, maxCycles);
    SortingKeepsElements(found);
    assert forall c :: CycleInside(edges, members, c) ==> StartsIn(c, starts);
    cycles := SortedCycles(found);
    OrderedPrecedes(cycles);
    if members != {} {
      CapIsReached(edges, members, maxCycles, cycles, capped);
    }
  }

  lemma CapIsReached(edges: set<Pair>, members: set<Name>, maxCycles: int, cycles: seq<seq<Name>>, capped: bool)
    requires NoDup(cycles) && forall c :: c in cycles ==> CycleInside(edges, members, c)
    requires capped ==> |cycles| >= maxCycles
    requires !capped ==> |cycles| < maxCycles && forall c :: CycleInside(edges, members, c) ==> c in cycles
    ensures capped <==> AtLeast(edges, members, maxCycles)
  {
    if !capped && AtLeast(edges, members, maxCycles) {
      var more :| NoDup(more) && |more| >= maxCycles && forall c :: c in more ==> CycleInside(edges, members, c);
      NoDupSize(cycles);
      NoDupBounded(more, ToSet(cycles));
    }
  }

  ghost predicate FoundUpTo(edges: set<Pair>, members: set<Name>, starts: seq<Name>, found: seq<seq<Name>>) {
    NoDup(found) && forall c :: c in found ==> CycleInside(edges, members, c) && StartsIn(c, starts)
  }

  ghost predicate AllUpTo(edges: set<Pair>, members: set<Name>, starts: seq<Name>, found: seq<seq<Name>>) {
    forall c :: CycleInside(edges, members, c) && StartsIn(c, starts) ==> c in found
  }

  lemma NextStart(edges: set<Pair>, members: set<Name>, starts: seq<Name>, i: nat, found: seq<seq<Name>>,
                  found': seq<seq<Name>>)
    requires Ascending(starts) && i < |starts| && starts[i] in members && found <= found'
    requires FoundUpTo(edges, members, starts[..i], found)
    requires FoundFrom(edges, members, [starts[i]], found'[|found|..])
    ensures FoundUpTo(edges, members, starts[..i + 1], found')
    ensures AllUpTo(edges, members, starts[..i], found) && FoundAll(edges, members, [starts[i]], found'[|found|..])
        ==> AllUpTo(edges, members, starts[..i + 1], found')
  {
    var more := found'[|found|..];
    assert found' == found + more;
    FirstsGrow(starts, i);
    forall c | Canonical(edges, c) && Within(members, c) && c[0] == starts[i]
      ensures Continues(edges, members, [starts[i]], c)
    {
      assert c[..1] == [starts[i]];
    }
    forall c | c in more ensures c[0] == starts[i] && CycleInside(edges, members, c) {
      assert [starts[i]] <= c;
    }
    forall j, k | 0 <= j < k < |found'| ensures found'[j] != found'[k] {
      if j < |found| <= k {
        assert found[j] in found && more[k - |found|] in more;
      }
    }
  }

  /** The cycles from the next start come after those from smaller ones. */
  lemma LaterStart(edges: set<Pair>, members: set<Name>, starts: seq<Name>, i: nat, found: seq<seq<Name>>,
                   found': seq<seq<Name>>)
    requires starts == Sorted(members) && i < |starts| && found <= found'
    requires EarlierToo(edges, members, found) && AllUpTo(edges, members, starts[..i], found)
    requires FoundFrom(edges, members, [starts[i]], found'[|found|..])
    requires FoundFirst(edges, members, [starts[i]], found'[|found|..])
    ensures EarlierToo(edges, members, found')
  {
    var more := found'[|found|..];
    assert found' == found + more;
    forall c, d | d in found' && CycleInside(edges, members, c) && Earlier(c, d) ensures c in found' {
      if d in more {
        EarlierHeads(c, d);
        assert [starts[i]] <= d && c[0] in c;
        if c[0] == starts[i] {
          assert c[..1] == [starts[i]];
          assert Continues(edges, members, [starts[i]], c);
        } else {
          var j :| 0 <= j < |starts| && starts[j] == c[0];
          assert starts[..i][j] == c[0];
        }
      }
    }
  }
}
