/**
 * The C++ call graph (component_call_graph.py): what a handler reaches through the methods it calls, and the
 * flow map that is merged from every definition of every handler.
 */
module CallGraphs {
  import opened Basics
  import opened Graph
  import opened Topologies

  // A C++ class: an implementation, or the generated base class of a component.
  datatype Owner = Impl(cls: Class) | Base(component: Class)

  datatype Method = Method(cls: Owner, name: Name)

  datatype Field = Field(owner: Owner, name: Name)

  // What one body does directly. The program keeps one set for each of these kinds.
  datatype Fact = Port(port: Name) | GuardedPort(port: Name) | Read(field: Field) | Write(field: Field)
    | Lock(field: Field) | Severity(level: Name)

  datatype Body = Body(calls: set<Method>, facts: set<Fact>, unresolvedCall: bool)

  // `entries` tells which method names are handlers; `implements` is the component a class derives from.
  datatype Program = Program(methods: map<Method, Body>, entries: map<Name, Flow>, implements: map<Class, Class>)

  // ---------------------------------------------------------------------------------------------
  // What a method reaches
  // ---------------------------------------------------------------------------------------------

  ghost predicate CallPath(p: Program, path: seq<Method>) {
    forall i :: 0 < i < |path| ==> CallsDirectly(p, path[i - 1], path[i])
  }

  predicate CallsDirectly(p: Program, a: Method, b: Method) {
    a in p.methods && b in p.methods[a].calls
  }

  ghost predicate Reaches(p: Program, a: Method, b: Method) {
    exists path :: path != [] && path[0] == a && Last(path) == b && CallPath(p, path)
  }

  ghost function Mentioned(p: Program, key: Method): set<Method> {
    {key} + set m, c | m in p.methods && c in p.methods[m].calls :: c
  }

  ghost function Reached(p: Program, key: Method): set<Method> {
    set m | m in Mentioned(p, key) && Reaches(p, key, m)
  }

  /** A method reached is defined, and its own body does this. */
  ghost predicate Does(p: Program, reached: set<Method>, fact: Fact) {
    exists m :: m in reached && m in p.methods && fact in p.methods[m].facts
  }

  ghost predicate Unresolved(p: Program, reached: set<Method>) {
    exists m :: m in reached && m in p.methods && p.methods[m].unresolvedCall
  }

  lemma ReachesMore(p: Program, a: Method, b: Method, c: Method)
    requires Reaches(p, a, b) && CallsDirectly(p, b, c)
    ensures Reaches(p, a, c)
  {
    var path :| path != [] && path[0] == a && Last(path) == b && CallPath(p, path);
    assert CallPath(p, path + [c]) && Last(path + [c]) == c;
  }

  lemma {:induction false} ClosedIsEverything(p: Program, seen: set<Method>, path: seq<Method>)
    requires path != [] && path[0] in seen && CallPath(p, path)
    requires forall a, b :: a in seen && CallsDirectly(p, a, b) ==> b in seen
    ensures Last(path) in seen
    decreases |path|
  {
    if |path| > 1 {
      ClosedIsEverything(p, seen, Init(path));
      assert CallsDirectly(p, path[|path| - 2], path[|path| - 1]);
    }
  }

  lemma SeenIsReached(p: Program, key: Method, seen: set<Method>)
    requires key in seen && seen <= Reached(p, key)
    requires forall a, b :: a in seen && CallsDirectly(p, a, b) ==> b in seen
    ensures seen == Reached(p, key)
  {
    forall m | m in Reached(p, key) ensures m in seen {
      var path :| path != [] && path[0] == key && Last(path) == m && CallPath(p, path);
      ClosedIsEverything(p, seen, path);
    }
  }

  // ---------------------------------------------------------------------------------------------
  // Resolving one handler
  // ---------------------------------------------------------------------------------------------

  datatype Resolved = Resolved(facts: set<Fact>, unresolvedCall: bool, visited: nat)

  // A field is a write wherever it is written, so reads are the rest.
  function ReadsLessWrites(facts: set<Fact>): set<Fact> {
    set f | f in facts && !(f.Read? && Write(f.field) in facts)
  }

  /** The resolution of a method: the union over everything reached, and reads that nothing reached writes. */
  ghost predicate IsResolution(p: Program, key: Method, r: Resolved) {
    var reached := Reached(p, key);
    && (forall f :: f in r.facts <==> Does(p, reached, f) && !(f.Read? && Does(p, reached, Write(f.field))))
    && (r.unresolvedCall <==> Unresolved(p, reached))
    && r.visited == |reached|
  }

  method Push(stack: seq<Method>, calls: set<Method>) returns (r: seq<Method>)
    ensures forall m :: m in r <==> m in stack || m in calls
  {
    r := stack;
    var todo := calls;
    while todo != {}
      invariant todo <= calls && forall m :: m in r <==> m in stack || m in calls - todo
    {
      var m :| m in todo;
      r, todo := r + [m], todo - {m};
    }
  }

  ghost predicate Pending(p: Program, key: Method, seen: set<Method>, stack: seq<Method>) {
    && seen <= Reached(p, key) && (forall m :: m in stack ==> m in Reached(p, key))
    && (key in seen || key in stack)
    && (forall a, b :: a in seen && CallsDirectly(p, a, b) ==> b in seen || b in stack)
  }

  lemma PendingPops(p: Program, key: Method, seen: set<Method>, stack: seq<Method>)
    requires Pending(p, key, seen, stack) && stack != [] && Last(stack) in seen
    ensures Pending(p, key, seen, Init(stack))
  {
    assert forall m :: m in stack ==> m == Last(stack) || m in Init(stack);
  }

  lemma PendingVisits(p: Program, key: Method, seen: set<Method>, stack: seq<Method>, stack': seq<Method>)
    requires Pending(p, key, seen, stack) && stack != []
    requires var m, seen' := Last(stack), seen + {Last(stack)};
      forall k :: k in stack' <==> k in Init(stack) || (CallsDirectly(p, m, k) && k !in seen')
    ensures Pending(p, key, seen + {Last(stack)}, stack')
  {
    var m := Last(stack);
    assert forall k :: k in stack ==> k == m || k in Init(stack);
    assert m in stack && Reaches(p, key, m);
    forall k | CallsDirectly(p, m, k) ensures k in Reached(p, key) {
      ReachesMore(p, key, m, k);
    }
  }

  method Resolve(p: Program, key: Method) returns (r: Resolved)
    ensures IsResolution(p, key, r)
  {
    var facts: set<Fact>, unresolved, seen: set<Method>, stack := {}, false, {}, [key];
    assert Reaches(p, key, key) by {
      assert Last([key]) == key && CallPath(p, [key]);
    }
    while stack != []
      invariant Pending(p, key, seen, stack)
      invariant forall f :: f in facts <==> Does(p, seen, f)
      invariant unresolved <==> Unresolved(p, seen)
      decreases Reached(p, key) - seen, |stack|
    {
      var m := Last(stack);
      if m in seen {
        PendingPops(p, key, seen, stack);
        stack := Init(stack);
        continue;
      }
      ghost var before := stack;
      stack := Init(stack);
      if m in p.methods {
        var body := p.methods[m];
        facts := facts + body.facts;
        unresolved := unresolved || body.unresolvedCall;
        stack := Push(stack, body.calls - (seen + {m}));
      }
      PendingVisits(p, key, seen, before, stack);
      assert m in Reached(p, key);
      seen := seen + {m};
    }
    SeenIsReached(p, key, seen);
    r := Resolved(ReadsLessWrites(facts), unresolved, |seen|);
  }

  // ---------------------------------------------------------------------------------------------
  // The flow map of a program
  // ---------------------------------------------------------------------------------------------

  // Inheritance decides which component a class implements; its own name is only the fallback.
  ghost predicate BelongsTo(p: Program, cls: Owner, component: Class) {
    && (cls.Base? ==> component == cls.component)
    && (cls.Impl? && cls.cls in p.implements ==> component == p.implements[cls.cls])
    && (cls.Impl? && cls.cls !in p.implements ==> component == cls.cls)
  }

  function ComponentOf(p: Program, cls: Owner): (component: Class)
    ensures BelongsTo(p, cls, component)
  {
    match cls
    case Base(component) => component
    case Impl(c) => if c in p.implements then p.implements[c] else c
  }

  ghost predicate Defines(p: Program, m: Method, component: Class, entry: Flow) {
    m in p.methods && m.name in p.entries && p.entries[m.name] == entry && BelongsTo(p, m.cls, component)
  }

  // A field of some other class is not this component's state.
  ghost predicate OwnState(f: Fact, cls: Owner, component: Class) {
    forall x: Field :: f == Read(x) || f == Write(x) || f == Lock(x) ==> x.owner == cls || x.owner == Base(component)
  }

  predicate Owned(f: Fact, cls: Owner, component: Class): (own: bool)
    ensures own <==> OwnState(f, cls, component)
  {
    f.Read? || f.Write? || f.Lock? ==> f.field.owner == cls || f.field.owner == Base(component)
  }

  datatype Record = Record(facts: set<Fact>, unresolvedCall: bool)

  type Components = map<Class, map<Flow, Record>>

  predicate HasRecord(components: Components, component: Class, entry: Flow) {
    component in components && entry in components[component]
  }

  /** What one definition of a handler adds to the handler's record. */
  ghost predicate Contributes(p: Program, m: Method, component: Class, f: Fact) {
    var reached := Reached(p, m);
    Does(p, reached, f) && !(f.Read? && Does(p, reached, Write(f.field))) && OwnState(f, m.cls, component)
  }

  ghost predicate Recorded(p: Program, done: set<Method>, component: Class, entry: Flow, r: Record) {
    && (forall f :: f in r.facts <==>
        exists m :: m in done && Defines(p, m, component, entry) && Contributes(p, m, component, f))
    && (r.unresolvedCall <==> exists m :: m in done && Defines(p, m, component, entry) && Unresolved(p, Reached(p, m)))
  }

  ghost predicate Defined(p: Program, done: set<Method>, component: Class, entry: Flow) {
    exists m :: m in done && Defines(p, m, component, entry)
  }

  /** The records are exactly those of the handlers that some method dealt with defines. */
  ghost predicate Covers(p: Program, done: set<Method>, components: Components) {
    && (forall c :: c in components ==> components[c] != map[])
    && (forall c, e :: HasRecord(components, c, e) <==> Defined(p, done, c, e))
    && (forall c, e :: HasRecord(components, c, e) ==> Recorded(p, done, c, e, components[c][e]))
  }

  /** A handler defined in both the base and the implementation: the union, and opaque if either is. */
  function Merge(components: Components, component: Class, entry: Flow, r: Record): Components {
    var handlers := if component in components then components[component] else map[];
    var merged := if entry in handlers
      then Record(handlers[entry].facts + r.facts, handlers[entry].unresolvedCall || r.unresolvedCall) else r;
    components[component := handlers[entry := merged]]
  }

  lemma RecordOneMore(p: Program, done: set<Method>, components: Components, m: Method, component: Class,
      entry: Flow, r: Record)
    requires Covers(p, done, components) && Defines(p, m, component, entry)
    requires forall f :: f in r.facts <==> Contributes(p, m, component, f)
    requires r.unresolvedCall <==> Unresolved(p, Reached(p, m))
    ensures Recorded(p, done + {m}, component, entry, Merge(components, component, entry, r)[component][entry])
  {
    if !HasRecord(components, component, entry) {
      assert forall k :: k in done ==> !Defines(p, k, component, entry) by {
        assert !Defined(p, done, component, entry);
      }
    }
  }

  lemma OthersStand(p: Program, done: set<Method>, m: Method, component: Class, entry: Flow, r: Record)
    requires Recorded(p, done, component, entry, r) && !Defines(p, m, component, entry)
    ensures Recorded(p, done + {m}, component, entry, r)
  {
  }

  lemma CoversOneMore(p: Program, done: set<Method>, components: Components, m: Method, component: Class,
      entry: Flow, r: Record)
    requires Covers(p, done, components) && Defines(p, m, component, entry)
    requires forall f :: f in r.facts <==> Contributes(p, m, component, f)
    requires r.unresolvedCall <==> Unresolved(p, Reached(p, m))
    ensures Covers(p, done + {m}, Merge(components, component, entry, r))
  {
    var components' := Merge(components, component, entry, r);
    forall c, e ensures HasRecord(components', c, e) <==> Defined(p, done + {m}, c, e) {
      assert Defined(p, done, c, e) ==> Defined(p, done + {m}, c, e);
      assert c == component && e == entry ==> m in done + {m} && Defines(p, m, c, e);
    }
    forall c, e | HasRecord(components', c, e) ensures Recorded(p, done + {m}, c, e, components'[c][e]) {
      if c == component && e == entry {
        RecordOneMore(p, done, components, m, component, entry, r);
      } else {
        assert HasRecord(components, c, e);
        OthersStand(p, done, m, c, e, components[c][e]);
      }
    }
  }

  lemma CoversNonHandler(p: Program, done: set<Method>, components: Components, m: Method)
    requires Covers(p, done, components) && m.name !in p.entries
    ensures Covers(p, done + {m}, components)
  {
    forall c, e ensures Defined(p, done, c, e) <==> Defined(p, done + {m}, c, e) {
      assert Defined(p, done, c, e) ==> Defined(p, done + {m}, c, e);
    }
    forall c, e | HasRecord(components, c, e) ensures Recorded(p, done + {m}, c, e, components[c][e]) {
      OthersStand(p, done, m, c, e, components[c][e]);
    }
  }

  /** Resolves every handler definition and merges what they do, handler by handler. */
  method BuildFlowMap(p: Program) returns (components: Components)
    ensures Covers(p, p.methods.Keys, components)
  {
    components := map[];
    var todo := p.methods.Keys;
    ghost var done: set<Method> := {};
    while todo != {}
      invariant done + todo == p.methods.Keys
      invariant Covers(p, done, components)
      decreases todo
    {
      var m :| m in todo;
      if m.name in p.entries {
        var component, entry := ComponentOf(p, m.cls), p.entries[m.name];
        var resolved := Resolve(p, m);
        var record := Record((set f | f in resolved.facts && Owned(f, m.cls, component)), resolved.unresolvedCall);
        CoversOneMore(p, done, components, m, component, entry, record);
        components := Merge(components, component, entry, record);
      } else {
        CoversNonHandler(p, done, components, m);
      }
      todo, done := todo - {m}, done + {m};
    }
    assert done == p.methods.Keys;
  }

  // ---------------------------------------------------------------------------------------------
  // Looking a handler up
  // ---------------------------------------------------------------------------------------------

  function PortsOf(facts: set<Fact>): set<Name> {
    set f | f in facts && f.Port? :: f.port
  }

  function FlowMapOf(components: Components, strict: bool): FlowMap {
    FlowMap(map c | c in components :: HandlersOf(components[c]), strict)
  }

  function HandlersOf(records: map<Flow, Record>): map<Flow, FlowRecord> {
    map e | e in records :: RecordOf(records[e])
  }

  function RecordOf(r: Record): FlowRecord {
    FlowRecord(Sorted(PortsOf(r.facts)), r.unresolvedCall)
  }

  ghost predicate HasHandlers(p: Program, cls: Class) {
    exists e :: Defined(p, p.methods.Keys, cls, e)
  }

  /** The class a component is taken to be implemented by: the first of its conventional names with any handler. */
  ghost predicate Implements(p: Program, component: Name, cls: Class) {
    && cls.component == component && cls.suffix < 4 && HasHandlers(p, cls)
    && forall s :: 0 <= s < cls.suffix ==> !HasHandlers(p, Class(component, s))
  }

  lemma KnownClasses(p: Program, components: Components, c: Class)
    requires Covers(p, p.methods.Keys, components)
    ensures c in components <==> HasHandlers(p, c)
  {
    if c in components {
      assert components[c] != map[];
      var e :| e in components[c];
      assert HasRecord(components, c, e);
    }
    if e :| Defined(p, p.methods.Keys, c, e) {
      assert HasRecord(components, c, e);
    }
  }

  ghost predicate Knows(p: Program, fm: FlowMap) {
    forall c :: c in fm.components <==> HasHandlers(p, c)
  }

  lemma {:induction false} FirstRecord(p: Program, fm: FlowMap, component: Name, suffix: nat)
    requires Knows(p, fm) && suffix <= SUFFIXES
    requires forall s :: 0 <= s < suffix ==> !HasHandlers(p, Class(component, s))
    ensures ComponentRecord(fm, component, suffix).None? ==> forall cls :: !Implements(p, component, cls)
    ensures var r := ComponentRecord(fm, component, suffix);
      r.Some? ==> exists cls :: Implements(p, component, cls) && cls in fm.components && r.value == fm.components[cls]
    decreases SUFFIXES - suffix
  {
    if suffix == SUFFIXES {
      forall cls: Class | cls.component == component && cls.suffix < SUFFIXES ensures !Implements(p, component, cls) {
        assert cls == Class(component, cls.suffix);
      }
    } else if Class(component, suffix) in fm.components {
      assert Implements(p, component, Class(component, suffix));
    } else {
      FirstRecord(p, fm, component, suffix + 1);
    }
  }

  /** Every definition of the handler in the component's class is fully resolved, and there is one. */
  ghost predicate Resolvable(p: Program, cls: Class, entry: Flow) {
    Defined(p, p.methods.Keys, cls, entry) && forall m :: Defines(p, m, cls, entry) ==> !Unresolved(p, Reached(p, m))
  }

  ghost predicate Invokes(p: Program, cls: Class, entry: Flow, port: Name) {
    exists m :: Defines(p, m, cls, entry) && Does(p, Reached(p, m), Port(port))
  }

  /** What the flow map has on a handler of a class: nothing, or its ports and whether they are complete. */
  ghost predicate IsRecordOf(p: Program, cls: Class, entry: Flow, r: Option<FlowRecord>) {
    && (r.Some? <==> Defined(p, p.methods.Keys, cls, entry))
    && (r.Some? ==> (!r.value.unresolvedCall <==> Resolvable(p, cls, entry))
                    && forall port :: port in r.value.ports <==> Invokes(p, cls, entry, port))
  }

  lemma PortIsInvoked(p: Program, cls: Class, entry: Flow, r: Record, port: Name)
    requires Recorded(p, p.methods.Keys, cls, entry, r)
    ensures port in PortsOf(r.facts) <==> Invokes(p, cls, entry, port)
  {
    assert port in PortsOf(r.facts) <==> Port(port) in r.facts;
    if m :| Defines(p, m, cls, entry) && Does(p, Reached(p, m), Port(port)) {
      assert m in p.methods.Keys && Contributes(p, m, cls, Port(port));
    }
  }

  lemma IsResolvable(p: Program, cls: Class, entry: Flow, r: Record)
    requires Recorded(p, p.methods.Keys, cls, entry, r) && Defined(p, p.methods.Keys, cls, entry)
    ensures !r.unresolvedCall <==> Resolvable(p, cls, entry)
  {
    forall m | Defines(p, m, cls, entry) ensures m in p.methods.Keys {
    }
  }

  lemma RecordOfIsExact(p: Program, cls: Class, entry: Flow, r: Record)
    requires Recorded(p, p.methods.Keys, cls, entry, r) && Defined(p, p.methods.Keys, cls, entry)
    ensures IsRecordOf(p, cls, entry, Some(RecordOf(r)))
  {
    IsResolvable(p, cls, entry, r);
    forall port ensures port in RecordOf(r).ports <==> Invokes(p, cls, entry, port) {
      PortIsInvoked(p, cls, entry, r, port);
    }
  }

  lemma RecordIsExact(p: Program, components: Components, strict: bool, cls: Class, entry: Flow)
    requires Covers(p, p.methods.Keys, components) && cls in components
    ensures var handlers := FlowMapOf(components, strict).components[cls];
      IsRecordOf(p, cls, entry, if entry in handlers then Some(handlers[entry]) else None)
  {
    assert HasRecord(components, cls, entry) <==> Defined(p, p.methods.Keys, cls, entry);
    if HasRecord(components, cls, entry) {
      RecordOfIsExact(p, cls, entry, components[cls][entry]);
    }
  }

  lemma OnlyOneClass(p: Program, component: Name, cls: Class)
    requires Implements(p, component, cls)
    ensures forall c :: Implements(p, component, c) ==> c == cls
  {
    forall c | Implements(p, component, c) ensures c == cls {
      assert c == Class(component, c.suffix) && cls == Class(component, cls.suffix);
    }
  }

  lemma RecordFound(p: Program, components: Components, strict: bool, component: Name, entry: Flow)
    requires Covers(p, p.methods.Keys, components)
    ensures var r := FindRecord(FlowMapOf(components, strict), component, entry);
      && (r.Some? ==> exists cls :: Implements(p, component, cls))
      && (forall cls :: Implements(p, component, cls) ==> IsRecordOf(p, cls, entry, r))
  {
    var fm := FlowMapOf(components, strict);
    forall c ensures c in fm.components <==> HasHandlers(p, c) {
      KnownClasses(p, components, c);
    }
    FirstRecord(p, fm, component, 0);
    if ComponentRecord(fm, component, 0).Some? {
      var cls :| Implements(p, component, cls) && cls in fm.components
                 && ComponentRecord(fm, component, 0).value == fm.components[cls];
      OnlyOneClass(p, component, cls);
      RecordIsExact(p, components, strict, cls, entry);
    }
  }

  /** Some class implements the component, and in it the handler is fully resolved. */
  ghost predicate Known(p: Program, component: Name, entry: Flow) {
    exists cls :: Implements(p, component, cls) && Resolvable(p, cls, entry)
  }

  lemma {:induction false} FilterAscends(s: seq<Name>, keep: Name -> bool)
    requires Ascending(s)
    ensures Ascending(Filter(s, keep))
  {
    if s != [] {
      assert s == [s[0]] + s[1..];
      FilterAscends(s[1..], keep);
      FilterCons(s[0], s[1..], keep);
      var rest := Filter(s[1..], keep);
      forall i | 0 <= i < |rest| ensures s[0] < rest[i] {
        assert rest[i] in rest;
      }
    }
  }

  ghost predicate AllAscend(handlers: map<Flow, FlowRecord>) {
    forall e :: e in handlers ==> Ascending(handlers[e].ports)
  }

  lemma {:induction false} RecordsAscend(fm: FlowMap, component: Name, suffix: nat)
    requires suffix <= SUFFIXES
    requires forall c :: c in fm.components ==> AllAscend(fm.components[c])
    ensures var r := ComponentRecord(fm, component, suffix); r.Some? ==> AllAscend(r.value)
    decreases SUFFIXES - suffix
  {
    if suffix < SUFFIXES && Class(component, suffix) !in fm.components {
      RecordsAscend(fm, component, suffix + 1);
    }
  }

  /** A record that is used gives each port once, in name order. */
  lemma OutputsAscend(components: Components, strict: bool, component: Name, entry: Flow, declared: seq<Name>)
    ensures var fm := FlowMapOf(components, strict);
      var found, r := FindRecord(fm, component, entry), OutputsFor(fm, component, entry, declared);
      found.Some? && !found.value.unresolvedCall && r.Outputs? ==> Ascending(r.ports)
  {
    var fm := FlowMapOf(components, strict);
    var found := FindRecord(fm, component, entry);
    if found.Some? && !found.value.unresolvedCall {
      RecordsAscend(fm, component, 0);
      assert Ascending(found.value.ports);
      var keep, r := (p: Name) => p in declared, OutputsFor(fm, component, entry, declared);
      FilterAscends(found.value.ports, keep);
      assert r.ports == Filter(found.value.ports, keep);
    }
  }

  /**
   * A strict lookup answers exactly for the handlers that are fully resolved, with exactly the declared ports
   * that some definition of the handler can reach; for any other handler it raises.
   */
  lemma StrictLookupIsExact(p: Program, components: Components, component: Name, entry: Flow, declared: seq<Name>)
    requires Covers(p, p.methods.Keys, components)
    ensures var r := OutputsFor(FlowMapOf(components, true), component, entry, declared);
      && (r.Outputs? <==> Known(p, component, entry))
      && (r.Outputs? ==> Ascending(r.ports) && forall cls, port :: Implements(p, component, cls) ==>
            (port in r.ports <==> port in declared && Invokes(p, cls, entry, port)))
  {
    OutputsAscend(components, true, component, entry, declared);
    RecordFound(p, components, true, component, entry);
    var r := FindRecord(FlowMapOf(components, true), component, entry);
    forall cls | Implements(p, component, cls)
      ensures r.Some? && !r.value.unresolvedCall <==> Resolvable(p, cls, entry)
    {
    }
  }

  /**
   * A permissive lookup always answers: for the handlers that are fully resolved with exactly the declared ports that
   * some definition can reach, as a strict one; for any other handler with all declared ports as they stand.
   */
  lemma PermissiveLookupIsExact(p: Program, components: Components, component: Name, entry: Flow, declared: seq<Name>)
    requires Covers(p, p.methods.Keys, components)
    ensures var r := OutputsFor(FlowMapOf(components, false), component, entry, declared);
      && r.Outputs? && (!Known(p, component, entry) ==> r.ports == declared)
      && (Known(p, component, entry) ==> Ascending(r.ports) && forall cls, port :: Implements(p, component, cls) ==>
            (port in r.ports <==> port in declared && Invokes(p, cls, entry, port)))
  {
    OutputsAscend(components, false, component, entry, declared);
    RecordFound(p, components, false, component, entry);
    var r := FindRecord(FlowMapOf(components, false), component, entry);
    forall cls | Implements(p, component, cls)
      ensures r.Some? && !r.value.unresolvedCall <==> Known(p, component, entry)
    {
      OnlyOneClass(p, component, cls);
      assert Known(p, component, entry) <==> Resolvable(p, cls, entry);
    }
  }

  // ---------------------------------------------------------------------------------------------
  // Reads and writes
  // ---------------------------------------------------------------------------------------------

  /** A merged record lists a field as read and as written exactly if one definition only reads what another writes. */
  lemma MergedReadsAndWrites(p: Program, components: Components, component: Class, entry: Flow, field: Field)
    requires Covers(p, p.methods.Keys, components) && HasRecord(components, component, entry)
    ensures Read(field) in components[component][entry].facts && Write(field) in components[component][entry].facts
            <==> exists reader, writer :: Defines(p, reader, component, entry) && Defines(p, writer, component, entry)
                   && Contributes(p, reader, component, Read(field)) && Contributes(p, writer, component, Write(field))
  {
  }

  // A handler defined twice: the base class reads a field, the implementation writes it.
  const TWICE := Class(0, 0)
  const SHARED := Field(Base(TWICE), 0)
  const READER := Method(Base(TWICE), 1)
  const WRITER := Method(Impl(TWICE), 1)

  const MIXED := Program(
    map[READER := Body({}, {Read(SHARED)}, false), WRITER := Body({}, {Write(SHARED)}, false)],
    map[1 := Handler(0)], map[])

  lemma CallsNothing(m: Method)
    requires m in MIXED.methods
    ensures Reached(MIXED, m) == {m}
  {
    assert Reaches(MIXED, m, m) by {
      assert Last([m]) == m && CallPath(MIXED, [m]);
    }
    SeenIsReached(MIXED, m, {m});
  }

  lemma DefinedTwice()
    ensures Defines(MIXED, READER, TWICE, Handler(0)) && Defines(MIXED, WRITER, TWICE, Handler(0))
    ensures Defined(MIXED, MIXED.methods.Keys, TWICE, Handler(0))
  {
    assert READER in MIXED.methods.Keys;
  }

  lemma BothContribute()
    ensures Contributes(MIXED, READER, TWICE, Read(SHARED)) && Contributes(MIXED, WRITER, TWICE, Write(SHARED))
  {
    CallsNothing(READER);
    CallsNothing(WRITER);
  }

  /** So the record of a handler can list one field as both read and written. */
  lemma MergeCanMixReadsAndWrites(components: Components)
    requires Covers(MIXED, MIXED.methods.Keys, components)
    ensures HasRecord(components, TWICE, Handler(0))
    ensures Read(SHARED) in components[TWICE][Handler(0)].facts && Write(SHARED) in components[TWICE][Handler(0)].facts
  {
    DefinedTwice();
    BothContribute();
  }
}
