/** Which threads can drive a lock-order edge at run time, and which are only credited with it. */
module Driving {
  import opened Basics
  import opened Graph
  import opened Threads
  import opened LockOrder
  import opened Exactness
  import opened Cycles
  import opened Runtime
  import opened Deadlock

  // ---------------------------------------------------------------------------------------------
  // Driving an edge
  // ---------------------------------------------------------------------------------------------

  // What a thread sets out to do: take a message off one port, make the calls of `way`, make the guarded call
  // `enter`, make the calls of `inner`, and then request one more mutex.
  datatype Plan = Plan(port: PortKey, first: Node, way: seq<Call>, enter: Call, inner: seq<Call>, request: Call)

  function Lead(p: Plan): seq<Call> {
    p.way + [p.enter] + p.inner
  }

  function Script(p: Plan): seq<Call> {
    Lead(p) + [p.request]
  }

  /** The plan enters a guarded port from which the two mutexes nest. */
  ghost predicate LeadsVia(g: Graph, t: Name, p: Plan, m: Node, n0: Node, n: Node, a: Name, b: Name) {
    && GuardedCallVia(g, t, p.port, p.first, p.way, m, p.enter)
    && NestsVia(g, p.enter.dest, n0, p.inner, n, p.request, a, b)
  }

  ghost predicate Leads(g: Graph, t: Name, p: Plan, a: Name, b: Name) {
    exists m, n0, n :: LeadsVia(g, t, p, m, n0, n, a, b)
  }

  /** The thread owns the first mutex and waits for the second, which is not another one it owns. */
  ghost predicate HoldsAndWants(s: State, t: Name, a: Name, b: Name) {
    && t in s.threads && s.threads[t].Running? && s.threads[t].pending.Some?
    && s.threads[t].pending.value.dest.instance == b && Owns(s.owner, t, a) && (Owns(s.owner, t, b) ==> a == b)
  }

  /** The thread has so far made, or is about to make, the first calls of the script and nothing else. */
  ghost predicate Executing(s: State, t: Name, port: PortKey, first: Node, script: seq<Call>) {
    && t in s.threads && s.threads[t].Running? && s.threads[t].pending.Some?
    && s.threads[t].port == port && s.threads[t].first == first
    && CallsOf(s.threads[t].frames) + [s.threads[t].pending.value] <= script
  }

  /** The thread waits for a mutex it owns itself, on the way to taking the second mutex under the first. */
  ghost predicate HangsOnTheWay(g: Graph, s: State, t: Name, a: Name, b: Name) {
    CircularWait(s, [t]) && exists p :: Leads(g, t, p, a, b) && Executing(s, t, p.port, p.first, Script(p))
  }

  ghost predicate DrivesIn(g: Graph, run: seq<State>, t: Name, a: Name, b: Name) {
    IsRun(g, run) && (HoldsAndWants(Last(run), t, a, b) || HangsOnTheWay(g, Last(run), t, a, b))
  }

  /** Some run has the thread own the first mutex and wait for the second, or hang on itself on the way there. */
  ghost predicate Drives(g: Graph, t: Name, a: Name, b: Name) {
    exists run :: DrivesIn(g, run, t, a, b)
  }

  // ---------------------------------------------------------------------------------------------
  // One thread making the calls of a chain
  // ---------------------------------------------------------------------------------------------

  /** Nobody but the thread owns a mutex. */
  ghost predicate Alone(s: State, t: Name) {
    forall m :: m in s.owner ==> s.owner[m] == t
  }

  /** The thread has made exactly these calls and runs the handler they lead to. */
  ghost predicate Serving(s: State, t: Name, port: PortKey, first: Node, calls: seq<Call>, n: Node) {
    && t in s.threads && s.threads[t].Running? && s.threads[t].pending == None && Alone(s, t)
    && s.threads[t].port == port && s.threads[t].first == first
    && CallsOf(s.threads[t].frames) == calls && TopNode(s.threads[t]) == n
  }

  lemma RunGoesOn(g: Graph, run: seq<State>, t: Name, step: Step, s: State)
    requires IsRun(g, run) && Runtime.Next(g, Last(run), t, step, s)
    ensures IsRun(g, run + [s]) && Last(run + [s]) == s
  {
    var longer := run + [s];
    forall i | 0 <= i < |longer| - 1 ensures Steps(g, longer[i], longer[i + 1]) {
      if i < |run| - 1 {
        assert Steps(g, run[i], run[i + 1]);
      }
    }
  }

  lemma StartServing(g: Graph, t: Name, port: PortKey, first: Node) returns (run: seq<State>)
    requires t in g.ownThread && port.instance == t && first in Entries(g, port, Async)
    ensures IsRun(g, run) && Serving(Last(run), t, port, first, [], first)
  {
    var s := State(map u | u in g.ownThread :: Idle, map[]);
    var s' := s.(threads := s.threads[t := Running(port, first, [], None)]);
    RunGoesOn(g, [s], t, Wake(port, first), s');
    run := [s] + [s'];
  }

  lemma CallsOfSnoc(frames: seq<Frame>, f: Frame)
    ensures CallsOf(frames + [f]) == CallsOf(frames) + [f.call]
  {
    assert Init(frames + [f]) == frames;
  }

  lemma ServeSync(g: Graph, run: seq<State>, t: Name, port: PortKey, first: Node, calls: seq<Call>, m: Node, c: Call,
                  n: Node) returns (longer: seq<State>)
    requires IsRun(g, run) && Serving(Last(run), t, port, first, calls, m) && ThreadStep(g, m, c, n) && c.kind == Sync
    ensures IsRun(g, longer) && Serving(Last(longer), t, port, first, calls + [c], n)
  {
    var s := Last(run);
    var r := s.threads[t];
    var s' := s.(threads := s.threads[t := r.(frames := r.frames + [Frame(c, n)])]);
    CallsOfSnoc(r.frames, Frame(c, n));
    RunGoesOn(g, run, t, CallSync(c, n), s');
    longer := run + [s'];
  }

  /** The thread asks for the mutex behind a guarded call; if that is owned, by itself then, it hangs. */
  lemma ServeRequest(g: Graph, run: seq<State>, t: Name, port: PortKey, first: Node, calls: seq<Call>, m: Node, c: Call)
    returns (longer: seq<State>)
    requires IsRun(g, run) && Serving(Last(run), t, port, first, calls, m) && c in Calls(g, m) && c.kind == Guarded
    ensures IsRun(g, longer)
    ensures Last(longer) == Last(run).(threads := Last(run).threads[t := Last(run).threads[t].(pending := Some(c))])
    ensures Executing(Last(longer), t, port, first, calls + [c])
    ensures c.dest.instance in Last(run).owner ==> CircularWait(Last(longer), [t])
  {
    var s := Last(run);
    var s' := s.(threads := s.threads[t := s.threads[t].(pending := Some(c))]);
    RunGoesOn(g, run, t, Request(c), s');
    longer := run + [s'];
  }

  lemma ServeGuarded(g: Graph, run: seq<State>, t: Name, port: PortKey, first: Node, calls: seq<Call>, m: Node, c: Call,
                     n: Node) returns (longer: seq<State>)
    requires IsRun(g, run) && Serving(Last(run), t, port, first, calls, m) && ThreadStep(g, m, c, n)
        && c.kind == Guarded
    requires c.dest.instance !in Last(run).owner
    ensures IsRun(g, longer) && Serving(Last(longer), t, port, first, calls + [c], n)
  {
    var asked := ServeRequest(g, run, t, port, first, calls, m, c);
    var s := Last(asked);
    var r := s.threads[t];
    var s' := State(s.threads[t := r.(frames := r.frames + [Frame(c, n)], pending := None)],
        s.owner[c.dest.instance := t]);
    CallsOfSnoc(r.frames, Frame(c, n));
    RunGoesOn(g, asked, t, Acquire(n), s');
    longer := asked + [s'];
  }

  lemma ServeNext(g: Graph, run: seq<State>, t: Name, port: PortKey, first: Node, calls: seq<Call>, m: Node, c: Call,
                  n: Node) returns (longer: seq<State>)
    requires IsRun(g, run) && Serving(Last(run), t, port, first, calls, m) && ThreadStep(g, m, c, n)
    ensures IsRun(g, longer)
    ensures Serving(Last(longer), t, port, first, calls + [c], n)
         || (CircularWait(Last(longer), [t]) && Executing(Last(longer), t, port, first, calls + [c]))
  {
    if c.kind == Sync {
      longer := ServeSync(g, run, t, port, first, calls, m, c, n);
    } else if c.dest.instance in Last(run).owner {
      longer := ServeRequest(g, run, t, port, first, calls, m, c);
    } else {
      longer := ServeGuarded(g, run, t, port, first, calls, m, c, n);
    }
  }

  lemma BeforeLast(g: Graph, first: Node, calls: seq<Call>, n: Node) returns (m: Node)
    requires Chain(g, first, calls, n) && calls != []
    ensures Chain(g, first, Init(calls), m) && ThreadStep(g, m, Last(calls), n)
  {
    m :| Chain(g, first, Init(calls), m) && ThreadStep(g, m, Last(calls), n);
  }

  /** A thread left to itself makes the calls of any chain from its own port, unless it hangs on itself first. */
  lemma {:induction false} Simulate(g: Graph, t: Name, port: PortKey, first: Node, calls: seq<Call>, n: Node)
    returns (run: seq<State>)
    requires t in g.ownThread && port.instance == t && first in Entries(g, port, Async) && Chain(g, first, calls, n)
    ensures IsRun(g, run)
    ensures Serving(Last(run), t, port, first, calls, n)
         || (CircularWait(Last(run), [t]) && Executing(Last(run), t, port, first, calls))
    decreases |calls|
  {
    if calls == [] {
      run := StartServing(g, t, port, first);
    } else {
      var before, c := Init(calls), Last(calls);
      var m := BeforeLast(g, first, calls, n);
      run := Simulate(g, t, port, first, before, m);
      assert calls == before + [c];
      if Serving(Last(run), t, port, first, before, m) {
        run := ServeNext(g, run, t, port, first, before, m, c, n);
      } else {
        ExecutingMore(Last(run), t, port, first, before, calls);
      }
    }
  }

  lemma ExecutingMore(s: State, t: Name, port: PortKey, first: Node, script: seq<Call>, more: seq<Call>)
    requires Executing(s, t, port, first, script) && script <= more
    ensures Executing(s, t, port, first, more)
  {
  }

  // ---------------------------------------------------------------------------------------------
  // Who drives
  // ---------------------------------------------------------------------------------------------

  lemma LeadIsAChain(g: Graph, t: Name, p: Plan, m: Node, n0: Node, n: Node, a: Name, b: Name)
    requires LeadsVia(g, t, p, m, n0, n, a, b)
    ensures Chain(g, p.first, Lead(p), n)
  {
    ChainSnoc(g, p.first, p.way, m, p.enter, n0);
    ChainAppend(g, p.first, p.way + [p.enter], n0, p.inner, n);
  }

  lemma {:induction false} HeldInTwoParts(before: seq<Name>, x: seq<Call>, y: seq<Call>)
    ensures HeldAlong(before, x + y) == HeldAlong(HeldAlong(before, x), y)
    decreases |y|
  {
    if y == [] {
      assert x + y == x;
    } else {
      assert Init(x + y) == x + Init(y) && Last(x + y) == Last(y);
      HeldInTwoParts(before, x, Init(y));
    }
  }

  /** Whatever is held along the chain from the guarded port is held along the whole lead. */
  lemma LeadHolds(p: Plan, x: Name)
    requires p.enter.kind == Guarded && x in HeldAlong([p.enter.dest.instance], p.inner)
    ensures x in HeldAlong([], Lead(p))
  {
    var entered := p.way + [p.enter];
    assert Init(entered) == p.way && Last(entered) == p.enter;
    HeldInTwoParts([], entered, p.inner);
    HeldOnTop(HeldAlong([], p.way) + [p.enter.dest.instance], p.inner);
    HeldOnTop([p.enter.dest.instance], p.inner);
  }

  /** What a plan leads to, a run gets to. */
  lemma PlanIsDriven(g: Graph, t: Name, p: Plan, a: Name, b: Name)
    requires Leads(g, t, p, a, b)
    ensures Drives(g, t, a, b)
  {
    var m, n0, n :| LeadsVia(g, t, p, m, n0, n, a, b);
    LeadIsAChain(g, t, p, m, n0, n, a, b);
    var run := Simulate(g, t, p.port, p.first, Lead(p), n);
    if Serving(Last(run), t, p.port, p.first, Lead(p), n) {
      LeadHolds(p, a);
      var longer := ServeRequest(g, run, t, p.port, p.first, Lead(p), n, p.request);
      RunStaysConsistent(g, run, |run| - 1);
      assert a in LocksOf(Last(run), t);
      assert DrivesIn(g, longer, t, a, b);
    } else {
      ExecutingMore(Last(run), t, p.port, p.first, Lead(p), Script(p));
      assert DrivesIn(g, run, t, a, b);
    }
  }

  ghost predicate NestsForCaller(g: Graph, t: Name, a: Name, b: Name) {
    exists entry :: CallsGuarded(g, t, entry) && Nests(g, entry, a, b)
  }

  lemma CallerDrives(g: Graph, t: Name, entry: PortKey, a: Name, b: Name)
    requires CallsGuarded(g, t, entry) && Nests(g, entry, a, b)
    ensures Drives(g, t, a, b)
  {
    var start, first, way, m, enter :| GuardedCallVia(g, t, start, first, way, m, enter) && enter.dest == entry;
    var n0, inner, n, request :| NestsVia(g, entry, n0, inner, n, request, a, b);
    var p := Plan(start, first, way, enter, inner, request);
    assert LeadsVia(g, t, p, m, n0, n, a, b);
    PlanIsDriven(g, t, p, a, b);
  }

  lemma DriverCalls(g: Graph, run: seq<State>, t: Name, a: Name, b: Name)
    requires DrivesIn(g, run, t, a, b)
    ensures NestsForCaller(g, t, a, b)
  {
    var s := Last(run);
    if HoldsAndWants(s, t, a, b) {
      RunStaysConsistent(g, run, |run| - 1);
      assert a in LocksOf(s, t) && (b in LocksOf(s, t) <==> Owns(s.owner, t, b));
      assert ThreadOk(g, t, s.threads[t]);
      var entry := WaitingNests(g, t, s.threads[t], a);
    } else {
      var p :| Leads(g, t, p, a, b) && Executing(s, t, p.port, p.first, Script(p));
      var m, n0, n :| LeadsVia(g, t, p, m, n0, n, a, b);
      assert CallsGuarded(g, t, p.enter.dest) && Nests(g, p.enter.dest, a, b);
    }
  }

  /** A thread drives an edge exactly if it makes a guarded call into a port from which the two mutexes nest. */
  lemma DriversAreCallers(g: Graph, t: Name, a: Name, b: Name)
    ensures Drives(g, t, a, b) <==> NestsForCaller(g, t, a, b)
  {
    if Drives(g, t, a, b) {
      var run :| DrivesIn(g, run, t, a, b);
      DriverCalls(g, run, t, a, b);
    }
    if NestsForCaller(g, t, a, b) {
      var entry :| CallsGuarded(g, t, entry) && Nests(g, entry, a, b);
      CallerDrives(g, t, entry, a, b);
    }
  }

  // ---------------------------------------------------------------------------------------------
  // Who is only credited
  // ---------------------------------------------------------------------------------------------

  /** A handler that calls a port calls it under every kind the port is dispatched under. */
  ghost predicate CallsEveryKind(g: Graph) {
    forall n, c, kind: Kind :: c in Calls(g, n) && (c.dest, kind) in g.handlers ==> c.(kind := kind) in Calls(g, n)
  }

  /**
   * A port of the thread's own instance that is dispatched both async and guarded, as a command port can be: the
   * thread is labelled on it because it services the async messages, though it makes no guarded call there.
   */
  predicate Mixed(g: Graph, t: Name, port: PortKey) {
    port.instance == t && t in g.ownThread && (port, Async) in g.handlers && (port, Guarded) in g.handlers
  }

  /** Every mixed port is also called guarded from the own thread of its instance. */
  ghost predicate MixedPortsAreCalled(g: Graph) {
    forall name, port :: Mixed(g, name, port) ==> CallsGuarded(g, name, port)
  }

  /** The real threads labelled on a guarded port are those that call it, and the owner of a mixed port. */
  lemma WhoIsAttributed(g: Graph, t: Name, port: PortKey)
    requires CallsEveryKind(g) && (port, Guarded) in g.handlers
    ensures Thread(t) in OriginsOf(g, port) <==> CallsGuarded(g, t, port) || Mixed(g, t, port)
  {
    if CallsGuarded(g, t, port) {
      CallerIsAttributed(g, t, port);
    }
    if Mixed(g, t, port) {
      OwnThreadIsAttributed(g, t, port, port);
    }
    if Thread(t) in OriginsOf(g, port) && !Mixed(g, t, port) {
      var s :| s in Seeds(g) && SeedReaches(g, s, port) && s.origin == Thread(t);
      var n0, calls, n, c :| InvokesVia(g, s.port, s.kind, n0, calls, n, c) && c.dest == port;
      assert GuardedCallVia(g, t, s.port, n0, calls, n, c.(kind := Guarded));
    }
  }

  /** The thread owns a mixed port from which the two mutexes nest. */
  ghost predicate OwnsMixedEntry(g: Graph, t: Name, a: Name, b: Name) {
    exists port :: Mixed(g, t, port) && Nests(g, port, a, b)
  }

  /** The real threads credited with an edge are its drivers and the owners of mixed ports that lead to it. */
  lemma CreditedThreads(g: Graph, t: Name, a: Name, b: Name)
    requires CallsEveryKind(g)
    ensures NestsFor(g, Thread(t), a, b) <==> Drives(g, t, a, b) || OwnsMixedEntry(g, t, a, b)
  {
    DriversAreCallers(g, t, a, b);
    forall entry | Nests(g, entry, a, b)
      ensures Thread(t) in OriginsOf(g, entry) <==> CallsGuarded(g, t, entry) || Mixed(g, t, entry)
    {
      NestingNeedsEntry(g, entry, a, b);
      WhoIsAttributed(g, t, entry);
    }
  }

  /** Where every mixed port is called guarded too, only drivers are credited. */
  lemma OwnersDrive(g: Graph, t: Name, a: Name, b: Name)
    requires MixedPortsAreCalled(g) && OwnsMixedEntry(g, t, a, b)
    ensures Drives(g, t, a, b)
  {
    var port :| Mixed(g, t, port) && Nests(g, port, a, b);
    CallerDrives(g, t, port, a, b);
  }

  // ---------------------------------------------------------------------------------------------
  // Hanging on oneself
  // ---------------------------------------------------------------------------------------------

  ghost predicate CanHang(g: Graph, t: Name) {
    exists run :: IsRun(g, run) && CircularWait(Last(run), [t])
  }

  /** A mutex re-entered behind a port the thread calls: some run has the thread wait for a mutex it owns. */
  lemma ReentryHangs(g: Graph, t: Name, entry: PortKey, x: Name)
    requires CallsGuarded(g, t, entry) && Nests(g, entry, x, x)
    ensures CanHang(g, t)
  {
    CallerDrives(g, t, entry, x, x);
    var run :| DrivesIn(g, run, t, x, x);
    assert CircularWait(Last(run), [t]);
  }

  /** A thread can hang on itself exactly if it calls a guarded port behind which some mutex is re-entered. */
  lemma HangsAreReentries(g: Graph, t: Name)
    ensures CanHang(g, t) <==> exists x :: NestsForCaller(g, t, x, x)
  {
    if CanHang(g, t) {
      var run :| IsRun(g, run) && CircularWait(Last(run), [t]);
      var s := Last(run);
      assert Waits(s, [t][0]) && Blocker(s, [t][0]) == NextOn([t], 0);
      assert HoldsAndWants(s, t, Wanted(s, t), Wanted(s, t));
      DriverCalls(g, run, t, Wanted(s, t), Wanted(s, t));
    }
    if x :| NestsForCaller(g, t, x, x) {
      var entry :| CallsGuarded(g, t, entry) && Nests(g, entry, x, x);
      ReentryHangs(g, t, entry, x);
    }
  }

  /** A thread that cannot hang on itself gets to own the first mutex and wait for the second. */
  lemma DrivesPlainly(g: Graph, t: Name, a: Name, b: Name) returns (run: seq<State>)
    requires Drives(g, t, a, b) && !CanHang(g, t)
    ensures IsRun(g, run) && HoldsAndWants(Last(run), t, a, b)
  {
    run :| DrivesIn(g, run, t, a, b);
  }
}
