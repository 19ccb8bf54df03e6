/** The lock-order graph and the self-deadlock findings that guarded_port_analyzer.py accumulates. */
module LockGraph {
  import opened Basics
  import opened Graph
  import opened Threads
  import opened LockOrder

  // `holder` is held while `acquired` is locked; the trace is the shortest chain seen so far.
  datatype LockEdge = LockEdge(holder: Name, acquired: Name, entry: PortKey, trace: seq<Call>, threads: set<Origin>)

  type EdgeMap = map<Pair, LockEdge>

  datatype FindingKind = SelfDeadlock | Abba

  datatype Finding = Finding(kind: FindingKind, cycle: seq<Name>, edges: seq<LockEdge>)

  function RecordEdge(suppressed: set<Pair>, edges: EdgeMap, e: Event, threads: set<Origin>): EdgeMap {
    var pair := (e.holder, e.acquired);
    if pair in suppressed then edges
    else if pair !in edges then edges[pair := LockEdge(e.holder, e.acquired, e.entry, e.path, threads)]
    else
      var merged := edges[pair].(threads := edges[pair].threads + threads);
      edges[pair := if |e.path| < |merged.trace| then merged.(trace := e.path, entry := e.entry) else merged]
  }

  function RecordSelf(suppressed: set<Pair>, findings: seq<Finding>, e: Event, threads: set<Origin>): seq<Finding> {
    if (e.acquired, e.acquired) in suppressed then findings
    else MergeSelf(findings, LockEdge(e.acquired, e.acquired, e.entry, e.path, threads))
  }

  /** Adds the threads to the finding already made for this mutex, or appends a new finding. */
  function MergeSelf(findings: seq<Finding>, edge: LockEdge): seq<Finding> {
    if findings == [] then [Finding(SelfDeadlock, [edge.holder], [edge])]
    else if findings[0].kind == SelfDeadlock && findings[0].cycle == [edge.holder] && findings[0].edges != [] then
      var first := findings[0].edges[0];
      [findings[0].(edges := findings[0].edges[0 := first.(threads := first.threads + edge.threads)])] + findings[1..]
    else [findings[0]] + MergeSelf(findings[1..], edge)
  }

  ghost function EdgesAfter(g: Graph, suppressed: set<Pair>, events: seq<Event>): EdgeMap
    decreases |events|
  {
    if events == [] then map[]
    else
      var e, before := Last(events), EdgesAfter(g, suppressed, Init(events));
      if e.holder == e.acquired then before else RecordEdge(suppressed, before, e, OriginsOf(g, e.entry))
  }

  ghost function SelfAfter(g: Graph, suppressed: set<Pair>, events: seq<Event>): seq<Finding>
    decreases |events|
  {
    if events == [] then []
    else
      var e, before := Last(events), SelfAfter(g, suppressed, Init(events));
      if e.holder == e.acquired then RecordSelf(suppressed, before, e, OriginsOf(g, e.entry)) else before
  }

  /** What one more event does to both. */
  lemma AfterOneMore(g: Graph, suppressed: set<Pair>, events: seq<Event>, e: Event)
    ensures var edges, findings := EdgesAfter(g, suppressed, events), SelfAfter(g, suppressed, events);
      if e.holder == e.acquired then
        && EdgesAfter(g, suppressed, events + [e]) == edges
        && SelfAfter(g, suppressed, events + [e]) == RecordSelf(suppressed, findings, e, OriginsOf(g, e.entry))
      else
        && EdgesAfter(g, suppressed, events + [e]) == RecordEdge(suppressed, edges, e, OriginsOf(g, e.entry))
        && SelfAfter(g, suppressed, events + [e]) == findings
  {
    assert Init(events + [e]) == events && Last(events + [e]) == e;
  }

  // ---------------------------------------------------------------------------------------------
  // What the accumulated edges mean
  // ---------------------------------------------------------------------------------------------

  ghost predicate About(e: Event, holder: Name, acquired: Name) {
    e.holder == holder && e.acquired == acquired
  }

  ghost predicate Seen(events: seq<Event>, holder: Name, acquired: Name) {
    exists e :: e in events && About(e, holder, acquired)
  }

  /** The event at this position is the first one about its pair with so short a path. */
  ghost predicate FirstAsShort(events: seq<Event>, e: Event, i: nat) {
    i < |events| && events[i] == e
    && forall j :: 0 <= j < i && About(events[j], e.holder, e.acquired) ==> |e.path| < |events[j].path|
  }

  /**
   * The edge is the first of the shortest events about the pair: no other has a shorter path, and no earlier one has
   * one as short. It has the threads of all of them.
   */
  ghost predicate Summarises(g: Graph, edge: LockEdge, events: seq<Event>, holder: Name, acquired: Name) {
    && edge.holder == holder && edge.acquired == acquired
    && Event(holder, acquired, edge.entry, edge.trace) in events
    && (forall e :: e in events && About(e, holder, acquired) ==> |edge.trace| <= |e.path|)
    && (exists i :: FirstAsShort(events, Event(holder, acquired, edge.entry, edge.trace), i))
    && (forall o :: o in edge.threads <==>
          exists e :: e in events && About(e, holder, acquired) && o in OriginsOf(g, e.entry))
  }

  lemma {:induction false} EdgesSummarise(g: Graph, suppressed: set<Pair>, events: seq<Event>, holder: Name,
      acquired: Name)
    ensures var edges := EdgesAfter(g, suppressed, events);
      && ((holder, acquired) in edges <==>
            holder != acquired && (holder, acquired) !in suppressed && Seen(events, holder, acquired))
      && ((holder, acquired) in edges ==> Summarises(g, edges[(holder, acquired)], events, holder, acquired))
    decreases |events|
  {
    if events == [] {
    } else {
      var e, front := Last(events), Init(events);
      EdgesSummarise(g, suppressed, front, holder, acquired);
      assert forall x :: x in events <==> x == e || x in front;
      var before, after := EdgesAfter(g, suppressed, front), EdgesAfter(g, suppressed, events);
      var pair := (holder, acquired);
      if !About(e, holder, acquired) || holder == acquired || pair in suppressed {
        assert (pair in after <==> pair in before) && (pair in after ==> after[pair] == before[pair]);
        if pair in after {
          StaysFirst(events, Event(holder, acquired, after[pair].entry, after[pair].trace));
        }
      } else {
        OneMoreEvent(g, suppressed, before, front, e, events);
      }
    }
  }

  lemma StaysFirst(events: seq<Event>, e: Event)
    requires events != [] && exists i :: FirstAsShort(Init(events), e, i)
    ensures exists i :: FirstAsShort(events, e, i)
  {
    var i :| FirstAsShort(Init(events), e, i);
    assert FirstAsShort(events, e, i);
  }

  /** The last event has a shorter path than all others about its pair. */
  lemma IsFirst(events: seq<Event>)
    requires events != []
    requires var e := Last(events);
      forall x :: x in Init(events) && About(x, e.holder, e.acquired) ==> |e.path| < |x.path|
    ensures exists i :: FirstAsShort(events, Last(events), i)
  {
    var e, front := Last(events), Init(events);
    forall j | 0 <= j < |front| && About(events[j], e.holder, e.acquired) ensures |e.path| < |events[j].path| {
      assert front[j] in front;
    }
    assert FirstAsShort(events, e, |front|);
  }

  lemma OneMoreEvent(g: Graph, suppressed: set<Pair>, before: EdgeMap, front: seq<Event>, e: Event, events: seq<Event>)
    requires e.holder != e.acquired && (e.holder, e.acquired) !in suppressed
    requires events != [] && front == Init(events) && e == Last(events)
    requires forall x :: x in events <==> x == e || x in front
    requires (e.holder, e.acquired) in before <==> Seen(front, e.holder, e.acquired)
    requires (e.holder, e.acquired) in before ==>
               Summarises(g, before[(e.holder, e.acquired)], front, e.holder, e.acquired)
    ensures var after := RecordEdge(suppressed, before, e, OriginsOf(g, e.entry));
      (e.holder, e.acquired) in after && Summarises(g, after[(e.holder, e.acquired)], events, e.holder, e.acquired)
  {
    var pair := (e.holder, e.acquired);
    var after := RecordEdge(suppressed, before, e, OriginsOf(g, e.entry));
    if pair in before && |before[pair].trace| <= |e.path| {
      StaysFirst(events, Event(e.holder, e.acquired, before[pair].entry, before[pair].trace));
    } else {
      IsFirst(events);
    }
    forall o ensures o in after[pair].threads <==>
        exists x :: x in events && About(x, e.holder, e.acquired) && o in OriginsOf(g, x.entry)
    {
      if pair in before && o in before[pair].threads {
        var x :| x in front && About(x, e.holder, e.acquired) && o in OriginsOf(g, x.entry);
        assert x in events;
      }
      if o in OriginsOf(g, e.entry) {
        assert e in events && About(e, e.holder, e.acquired);
      }
    }
  }

  // ---------------------------------------------------------------------------------------------
  // What the self-deadlock findings mean
  // ---------------------------------------------------------------------------------------------

  ghost predicate IsSelfFinding(f: Finding) {
    f.kind == SelfDeadlock && |f.cycle| == 1 && |f.edges| == 1
    && f.edges[0].holder == f.cycle[0] && f.edges[0].acquired == f.cycle[0]
  }

  ghost predicate SelfFindings(fs: seq<Finding>) {
    && (forall f :: f in fs ==> IsSelfFinding(f))
    && (forall i, j :: 0 <= i < j < |fs| ==> fs[i].cycle != fs[j].cycle)
  }

  ghost predicate Reports(fs: seq<Finding>, x: Name) {
    exists f :: f in fs && f.kind == SelfDeadlock && f.cycle == [x]
  }

  lemma ReportsFirst(f: Finding, fs: seq<Finding>, x: Name)
    ensures Reports([f] + fs, x) <==> (f.kind == SelfDeadlock && f.cycle == [x]) || Reports(fs, x)
  {
    assert forall y :: y in [f] + fs <==> y == f || y in fs;
  }

  lemma {:induction false} MergeSelfReports(fs: seq<Finding>, edge: LockEdge, x: Name)
    requires forall f :: f in fs ==> IsSelfFinding(f)
    ensures Reports(MergeSelf(fs, edge), x) <==> Reports(fs, x) || x == edge.holder
  {
    var r := MergeSelf(fs, edge);
    if fs == [] {
      assert r[0] in r;
    } else {
      assert fs[0] in fs && fs == [fs[0]] + fs[1..] && r == [r[0]] + r[1..];
      ReportsFirst(fs[0], fs[1..], x);
      ReportsFirst(r[0], r[1..], x);
      if fs[0].cycle == [edge.holder] {
        assert r[1..] == fs[1..];
      } else {
        assert r[1..] == MergeSelf(fs[1..], edge);
        MergeSelfReports(fs[1..], edge, x);
      }
    }
  }

  /** Findings are numbered as before; at most one is appended, about a mutex not reported yet. */
  lemma {:induction false} MergeSelfKeepsOrder(fs: seq<Finding>, edge: LockEdge)
    requires SelfFindings(fs) && edge.holder == edge.acquired
    ensures var r := MergeSelf(fs, edge);
      && SelfFindings(r) && |fs| <= |r| <= |fs| + 1
      && (forall i :: 0 <= i < |fs| ==> r[i].cycle == fs[i].cycle)
      && (|r| == |fs| + 1 ==>
            r[|fs|].cycle == [edge.holder] && forall i :: 0 <= i < |fs| ==> fs[i].cycle != [edge.holder])
  {
    var r := MergeSelf(fs, edge);
    if fs != [] {
      assert fs[0] in fs;
      assert r == [r[0]] + r[1..];
      if fs[0].cycle == [edge.holder] {
        assert r[1..] == fs[1..];
      } else {
        assert r[1..] == MergeSelf(fs[1..], edge);
        MergeSelfKeepsOrder(fs[1..], edge);
        assert forall i :: 0 < i < |r| ==> r[i] == r[1..][i - 1];
        assert forall i :: 0 < i < |fs| ==> fs[i] == fs[1..][i - 1];
      }
    }
  }

  lemma {:induction false} SelfFindingsAreExact(g: Graph, suppressed: set<Pair>, events: seq<Event>)
    ensures SelfFindings(SelfAfter(g, suppressed, events))
    ensures forall x: Name ::
              Reports(SelfAfter(g, suppressed, events), x) <==> (x, x) !in suppressed && Seen(events, x, x)
    decreases |events|
  {
    if events == [] {
    } else {
      var e, front := Last(events), Init(events);
      SelfFindingsAreExact(g, suppressed, front);
      var before := SelfAfter(g, suppressed, front);
      assert forall y :: y in events <==> y == e || y in front;
      forall x: Name
        ensures Reports(SelfAfter(g, suppressed, events), x) <==> (x, x) !in suppressed && Seen(events, x, x)
      {
        assert Seen(events, x, x) <==> Seen(front, x, x) || About(e, x, x);
        if e.holder == e.acquired && (e.acquired, e.acquired) !in suppressed {
          MergeSelfReports(before, LockEdge(e.acquired, e.acquired, e.entry, e.path, OriginsOf(g, e.entry)), x);
        }
      }
      if e.holder == e.acquired && (e.acquired, e.acquired) !in suppressed {
        MergeSelfKeepsOrder(before, LockEdge(e.acquired, e.acquired, e.entry, e.path, OriginsOf(g, e.entry)));
      }
    }
  }

  ghost predicate FirstAbout(events: seq<Event>, e: Event, i: nat) {
    i < |events| && events[i] == e && forall j :: 0 <= j < i ==> !About(events[j], e.holder, e.acquired)
  }

  lemma StaysFirstAbout(events: seq<Event>, e: Event)
    requires events != [] && exists i :: FirstAbout(Init(events), e, i)
    ensures exists i :: FirstAbout(events, e, i)
  {
    var i :| FirstAbout(Init(events), e, i);
    assert FirstAbout(events, e, i);
  }

  lemma IsFirstAbout(events: seq<Event>)
    requires events != [] && forall x :: x in Init(events) ==> !About(x, Last(events).holder, Last(events).acquired)
    ensures exists i :: FirstAbout(events, Last(events), i)
  {
    assert forall j :: 0 <= j < |events| - 1 ==> events[j] == Init(events)[j];
    assert FirstAbout(events, Last(events), |events| - 1);
  }

  /** The finding shows the first of the re-entries of its mutex and has the threads of them all. */
  ghost predicate SelfSummarises(g: Graph, f: Finding, events: seq<Event>)
    requires IsSelfFinding(f)
  {
    var x, edge := f.cycle[0], f.edges[0];
    && (exists i :: FirstAbout(events, Event(x, x, edge.entry, edge.trace), i))
    && Event(x, x, edge.entry, edge.trace) in events
    && (forall o :: o in edge.threads <==> exists e :: e in events && About(e, x, x) && o in OriginsOf(g, e.entry))
  }

  function WithThreads(f: Finding, threads: set<Origin>): Finding
    requires |f.edges| == 1
  {
    f.(edges := [f.edges[0].(threads := f.edges[0].threads + threads)])
  }

  /** A merged list holds the other findings as they were, and one about the edge's mutex: extended, or new. */
  lemma {:induction false} MergedFinding(fs: seq<Finding>, edge: LockEdge, f: Finding)
    requires SelfFindings(fs) && f in MergeSelf(fs, edge)
    ensures if f.cycle != [edge.holder] then f in fs
            else if Reports(fs, edge.holder) then
              exists h :: h in fs && h.cycle == f.cycle && f == WithThreads(h, edge.threads)
            else f == Finding(SelfDeadlock, [edge.holder], [edge])
  {
    if fs != [] {
      var r := MergeSelf(fs, edge);
      assert fs == [fs[0]] + fs[1..] && r == [r[0]] + r[1..] && fs[0] in fs;
      ReportsFirst(fs[0], fs[1..], edge.holder);
      if fs[0].cycle == [edge.holder] {
        assert r[0] == WithThreads(fs[0], edge.threads) && r[1..] == fs[1..];
      } else if f == r[0] {
        assert f == fs[0];
      } else {
        assert r[1..] == MergeSelf(fs[1..], edge);
        MergedFinding(fs[1..], edge, f);
      }
    }
  }

  /** Thread attribution of self-deadlocks is exact too. */
  lemma {:induction false} SelfFindingsSummarise(g: Graph, suppressed: set<Pair>, events: seq<Event>, f: Finding)
    requires f in SelfAfter(g, suppressed, events)
    ensures IsSelfFinding(f) && SelfSummarises(g, f, events)
    decreases |events|
  {
    SelfFindingsAreExact(g, suppressed, events);
    var e, front := Last(events), Init(events);
    var before := SelfAfter(g, suppressed, front);
    SelfFindingsAreExact(g, suppressed, front);
    assert forall x :: x in events <==> x == e || x in front;
    if e.holder == e.acquired && (e.acquired, e.acquired) !in suppressed {
      var edge := LockEdge(e.acquired, e.acquired, e.entry, e.path, OriginsOf(g, e.entry));
      MergedFinding(before, edge, f);
      if f.cycle != [e.acquired] {
        SelfFindingsSummarise(g, suppressed, front, f);
        StaysFirstAbout(events, Event(f.cycle[0], f.cycle[0], f.edges[0].entry, f.edges[0].trace));
      } else if Reports(before, e.acquired) {
        var h :| h in before && h.cycle == f.cycle && f == WithThreads(h, edge.threads);
        SelfFindingsSummarise(g, suppressed, front, h);
        MoreThreads(g, h, front, e, events);
      } else {
        assert forall x :: x in front ==> !About(x, e.acquired, e.acquired);
        assert About(e, e.acquired, e.acquired) && e in events;
        IsFirstAbout(events);
      }
    } else {
      SelfFindingsSummarise(g, suppressed, front, f);
      StaysFirstAbout(events, Event(f.cycle[0], f.cycle[0], f.edges[0].entry, f.edges[0].trace));
      assert f.cycle[0] != e.acquired || e.holder != e.acquired;
    }
  }

  lemma MoreThreads(g: Graph, h: Finding, front: seq<Event>, e: Event, events: seq<Event>)
    requires IsSelfFinding(h) && SelfSummarises(g, h, front) && About(e, h.cycle[0], h.cycle[0])
    requires events != [] && front == Init(events) && e == Last(events)
    requires forall x :: x in events <==> x == e || x in front
    ensures SelfSummarises(g, WithThreads(h, OriginsOf(g, e.entry)), events)
  {
    var x := h.cycle[0];
    StaysFirstAbout(events, Event(x, x, h.edges[0].entry, h.edges[0].trace));
    forall o ensures (o in h.edges[0].threads || o in OriginsOf(g, e.entry)) <==>
        exists d :: d in events && About(d, x, x) && o in OriginsOf(g, d.entry)
    {
      if o in h.edges[0].threads {
        var d :| d in front && About(d, x, x) && o in OriginsOf(g, d.entry);
        assert d in events;
      }
      if o in OriginsOf(g, e.entry) {
        assert e in events;
      }
    }
  }

  // ---------------------------------------------------------------------------------------------
  // Suppressions
  // ---------------------------------------------------------------------------------------------

  ghost function Unsuppressed(suppressed: set<Pair>): Finding -> bool {
    (f: Finding) => f.cycle == [] || (f.cycle[0], f.cycle[0]) !in suppressed
  }

  lemma {:induction false} FilterMergeSelf(suppressed: set<Pair>, fs: seq<Finding>, edge: LockEdge)
    ensures Filter(MergeSelf(fs, edge), Unsuppressed(suppressed))
         == if (edge.holder, edge.holder) in suppressed then Filter(fs, Unsuppressed(suppressed))
            else MergeSelf(Filter(fs, Unsuppressed(suppressed)), edge)
  {
    var keep, r := Unsuppressed(suppressed), MergeSelf(fs, edge);
    if fs == [] {
      FilterCons(r[0], [], keep);
      assert r == [r[0]] + [];
    } else {
      FilterCons(fs[0], fs[1..], keep);
      FilterCons(r[0], r[1..], keep);
      assert fs == [fs[0]] + fs[1..] && r == [r[0]] + r[1..];
      assert keep(r[0]) == keep(fs[0]);
      var kept := Filter(fs, keep);
      assert keep(fs[0]) ==> kept[0] == fs[0] && kept[1..] == Filter(fs[1..], keep);
      if fs[0].kind == SelfDeadlock && fs[0].cycle == [edge.holder] && fs[0].edges != [] {
        assert r[1..] == fs[1..];
      } else {
        assert r[0] == fs[0] && r[1..] == MergeSelf(fs[1..], edge);
        FilterMergeSelf(suppressed, fs[1..], edge);
      }
    }
  }

  /** Suppressing pairs while walking is the same as dropping them afterwards, whatever was walked. */
  lemma {:induction false} SuppressionCommutes(g: Graph, suppressed: set<Pair>, events: seq<Event>)
    ensures EdgesAfter(g, suppressed, events) == EdgesAfter(g, {}, events) - suppressed
    ensures SelfAfter(g, suppressed, events) == Filter(SelfAfter(g, {}, events), Unsuppressed(suppressed))
    decreases |events|
  {
    if events == [] {
    } else {
      var e, front := Last(events), Init(events);
      SuppressionCommutes(g, suppressed, front);
      if e.holder == e.acquired {
        var edge := LockEdge(e.acquired, e.acquired, e.entry, e.path, OriginsOf(g, e.entry));
        FilterMergeSelf(suppressed, SelfAfter(g, {}, front), edge);
      } else {
        RecordEdgeCommutes(suppressed, EdgesAfter(g, {}, front), e, OriginsOf(g, e.entry));
      }
    }
  }

  lemma RecordEdgeCommutes(suppressed: set<Pair>, edges: EdgeMap, e: Event, threads: set<Origin>)
    ensures RecordEdge(suppressed, edges - suppressed, e, threads) == RecordEdge({}, edges, e, threads) - suppressed
  {
    var pair := (e.holder, e.acquired);
    var all := RecordEdge({}, edges, e, threads);
    assert forall p :: p in all && p != pair ==> p in edges && all[p] == edges[p];
    assert pair in all;
  }
}
