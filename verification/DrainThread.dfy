/**
 * Which thread services an instance (async_queue_analyzer.py): a queued instance is drained by the caller of its
 * scheduling port, found by recursion with a shared cache and a cut for cycles.
 */
module DrainThreads {
  import opened Basics
  import opened Graph

  datatype Task = Active(priority: Option<int>) | Queued | Passive | Other

  // One end of a connection; the name printed is how the program prints it, and what it sorts by.
  datatype Source = Source(instance: Name, printed: Name)

  datatype Connection = Connection(source: Source, dest: PortKey)

  // `drainPorts` are the port names that drain a queue.
  datatype System = System(tasks: map<Name, Task>, connections: seq<Connection>, drainPorts: set<Name>)

  datatype Context =
    | NoSuchInstance
    | CycleCut
    | OwnThread(priority: Option<int>)
    | DrainUnknown
    | DrainedVia(source: Name, priority: Option<int>)
    | CallersThread
    | NoContext

  datatype Info = Info(context: Context, priority: Option<int>, source: Option<Name>)

  predicate Drains(c: Connection, s: System, name: Name) {
    c.dest.instance == name && c.dest.port in s.drainPorts
  }

  /** The first, in the order of printed names, of the connections that drain an instance. */
  function FirstDrain(s: System, name: Name, connections: seq<Connection>): (r: Option<Source>)
    ensures r.None? <==> forall c :: c in connections ==> !Drains(c, s, name)
    ensures r.Some? ==> (exists c :: c in connections && Drains(c, s, name) && c.source == r.value)
                        && forall c :: c in connections && Drains(c, s, name) ==> r.value.printed <= c.source.printed
  {
    if connections == [] then None
    else
      var c, rest := connections[0], FirstDrain(s, name, connections[1..]);
      assert forall x :: x in connections <==> x == c || x in connections[1..];
      if Drains(c, s, name) && (rest.None? || c.source.printed <= rest.value.printed) then Some(c.source) else rest
  }

  // ---------------------------------------------------------------------------------------------
  // The first-drain chain
  // ---------------------------------------------------------------------------------------------

  function Next(s: System, name: Name): Option<Name> {
    if name in s.tasks && s.tasks[name].Queued? then
      match FirstDrain(s, name, s.connections)
      case None => None
      case Some(source) => Some(source.instance)
    else None
  }

  /** The instance k drains up the chain, if the chain is that long. */
  ghost function Up(s: System, name: Name, k: nat): Option<Name>
    decreases k
  {
    if k == 0 then Some(name)
    else match Next(s, name) case None => None case Some(n) => Up(s, n, k - 1)
  }

  ghost predicate EndsAt(s: System, name: Name, k: nat, m: Name) {
    Up(s, name, k) == Some(m) && m in s.tasks && s.tasks[m].Active?
  }

  /** The priority of the task at the end of the chain; none if the chain never gets to a task. */
  ghost function ChainPriority(s: System, name: Name): Option<int> {
    if k: nat, m :| EndsAt(s, name, k, m) then s.tasks[m].priority else None
  }

  lemma {:induction false} UpAdds(s: System, name: Name, j: nat, k: nat)
    ensures Up(s, name, j + k) == match Up(s, name, j) case None => None case Some(m) => Up(s, m, k)
    decreases j
  {
    if j > 0 && Next(s, name).Some? {
      UpAdds(s, Next(s, name).value, j - 1, k);
    }
  }

  lemma EndIsUnique(s: System, name: Name, j: nat, m: Name, k: nat, n: Name)
    requires EndsAt(s, name, j, m) && EndsAt(s, name, k, n)
    ensures m == n
  {
    if j < k {
      UpAdds(s, name, j, k - j);
    } else if k < j {
      UpAdds(s, name, k, j - k);
    }
  }

  /** Going one drain up does not change where the chain ends. */
  lemma PriorityOfNext(s: System, name: Name)
    requires Next(s, name).Some?
    ensures ChainPriority(s, name) == ChainPriority(s, Next(s, name).value)
  {
    var n := Next(s, name).value;
    if k: nat, m :| EndsAt(s, n, k, m) {
      assert EndsAt(s, name, k + 1, m);
      var j: nat, x :| EndsAt(s, name, j, x) && ChainPriority(s, name) == s.tasks[x].priority;
      EndIsUnique(s, name, j, x, k + 1, m);
      var i: nat, y :| EndsAt(s, n, i, y) && ChainPriority(s, n) == s.tasks[y].priority;
      EndIsUnique(s, n, i, y, k, m);
    } else if k: nat, m :| EndsAt(s, name, k, m) {
      assert EndsAt(s, n, k - 1, m);
    }
  }

  /** A chain that comes back to where it started never gets to a task. */
  lemma CycleHasNoPriority(s: System, name: Name, k: nat)
    requires k > 0 && Up(s, name, k) == Some(name)
    ensures ChainPriority(s, name) == None
  {
    if j: nat, m :| EndsAt(s, name, j, m) {
      assert Next(s, m).None?;
      UpAdds(s, name, k, j);
      UpAdds(s, name, j, k);
    }
  }

  lemma PriorityAtTheEnd(s: System, name: Name)
    requires Next(s, name).None?
    ensures ChainPriority(s, name) == if name in s.tasks && s.tasks[name].Active? then s.tasks[name].priority else None
  {
    if name in s.tasks && s.tasks[name].Active? {
      assert EndsAt(s, name, 0, name);
      var k: nat, m :| EndsAt(s, name, k, m) && ChainPriority(s, name) == s.tasks[m].priority;
      EndIsUnique(s, name, 0, name, k, m);
    } else {
      forall k: nat, m ensures !EndsAt(s, name, k, m) {
        assert k == 0 || Up(s, name, k).None?;
      }
    }
  }

  /** The answer without any cache. */
  ghost function Answer(s: System, name: Name): Info {
    if name !in s.tasks then Info(NoSuchInstance, None, None)
    else
      match s.tasks[name]
      case Active(p) => Info(OwnThread(p), p, None)
      case Queued =>
        (match FirstDrain(s, name, s.connections)
         case None => Info(DrainUnknown, None, None)
         case Some(source) =>
           var p := ChainPriority(s, source.instance);
           Info(DrainedVia(source.printed, p), p, Some(source.printed)))
      case Passive => Info(CallersThread, None, None)
      case Other => Info(NoContext, None, None)
  }

  lemma AnswerPriority(s: System, name: Name)
    ensures Answer(s, name).priority == ChainPriority(s, name)
  {
    if Next(s, name).Some? {
      PriorityOfNext(s, name);
    } else {
      PriorityAtTheEnd(s, name);
    }
  }

  /** The first, by the printed name of its source, of the connections that end at a drain port of the instance. */
  ghost predicate DrainedBy(s: System, name: Name, printed: Name) {
    && (exists c :: c in s.connections && c.dest.instance == name && c.dest.port in s.drainPorts
                    && c.source.printed == printed)
    && forall c :: c in s.connections && c.dest.instance == name && c.dest.port in s.drainPorts ==>
         printed <= c.source.printed
  }

  ghost predicate Undrained(s: System, name: Name) {
    forall c :: c in s.connections && c.dest.instance == name ==> c.dest.port !in s.drainPorts
  }

  /** What the answer about an instance says of its task, of its drain, and of the priority at the end of the chain. */
  ghost predicate IsAnswer(s: System, name: Name, r: Info) {
    && r.priority == ChainPriority(s, name)
    && match r.context
       case NoSuchInstance => name !in s.tasks && r.source == None
       case CycleCut => false
       case OwnThread(p) => name in s.tasks && s.tasks[name] == Active(p) && r.priority == p && r.source == None
       case DrainUnknown => name in s.tasks && s.tasks[name] == Queued && Undrained(s, name) && r.source == None
       case DrainedVia(x, p) =>
         name in s.tasks && s.tasks[name] == Queued && DrainedBy(s, name, x) && r.priority == p && r.source == Some(x)
       case CallersThread => name in s.tasks && s.tasks[name] == Passive && r.source == None
       case NoContext => name in s.tasks && s.tasks[name] == Other && r.source == None
  }

  lemma AnswerIsRight(s: System, name: Name)
    ensures IsAnswer(s, name, Answer(s, name))
  {
    AnswerPriority(s, name);
    if name in s.tasks && s.tasks[name].Queued? {
      var first := FirstDrain(s, name, s.connections);
      if first.Some? {
        var c :| c in s.connections && Drains(c, s, name) && c.source == first.value;
        assert DrainedBy(s, name, first.value.printed);
      } else {
        assert forall c :: c in s.connections ==> !Drains(c, s, name);
      }
    }
  }

  // ---------------------------------------------------------------------------------------------
  // The cached recursion
  // ---------------------------------------------------------------------------------------------

  class DrainTable {
    const s: System
    var cache: map<Name, Info>
    var visiting: set<Name>

    /** Whatever is cached is the uncached answer. */
    ghost predicate Valid()
      reads this
    {
      && (forall n :: n in cache ==> n in s.tasks && cache[n] == Answer(s, n))
      && visiting <= s.tasks.Keys
    }

    /** The instances being visited all lead up to this one. */
    ghost predicate LedBy(name: Name)
      reads this
    {
      forall v :: v in visiting ==> LeadsTo(s, v, name)
    }

    constructor (s: System)
      ensures Valid() && this.s == s && cache == map[] && visiting == {}
    {
      this.s, cache, visiting := s, map[], {};
    }

    method Infer(name: Name) returns (r: Info)
      requires Valid() && LedBy(name)
      modifies this
      ensures Valid() && visiting == old(visiting)
      ensures r == Answer(s, name) || (name in visiting && r == Info(CycleCut, None, None))
      ensures r.priority == ChainPriority(s, name)
      decreases s.tasks.Keys - visiting, 1
    {
      AnswerPriority(s, name);
      if name !in s.tasks {
        return Info(NoSuchInstance, None, None);
      }
      if name in cache {
        return cache[name];
      }
      if name in visiting {
        ghost var k: nat :| k > 0 && Up(s, name, k) == Some(name);
        CycleHasNoPriority(s, name, k);
        return Info(CycleCut, None, None);
      }
      visiting := visiting + {name};
      match s.tasks[name] {
        case Active(p) => r := Info(OwnThread(p), p, None);
        case Queued => r := QueuedDrain(name);
        case Passive => r := Info(CallersThread, None, None);
        case Other => r := Info(NoContext, None, None);
      }
      visiting := visiting - {name};
      cache := cache[name := r];
    }

    method QueuedDrain(name: Name) returns (r: Info)
      requires Valid() && name in visiting && name in s.tasks && s.tasks[name].Queued?
      requires forall v :: v in visiting ==> v == name || LeadsTo(s, v, name)
      modifies this
      ensures Valid() && visiting == old(visiting) && r == Answer(s, name)
      decreases s.tasks.Keys - visiting, 2
    {
      var first := FirstDrain(s, name, s.connections);
      if first.None? {
        return Info(DrainUnknown, None, None);
      }
      var source := first.value;
      forall v | v in visiting ensures LeadsTo(s, v, source.instance) {
        LeadsFurther(s, v, name);
      }
      var caller := Infer(source.instance);
      r := Info(DrainedVia(source.printed, caller.priority), caller.priority, Some(source.printed));
    }
  }

  ghost predicate LeadsTo(s: System, v: Name, name: Name) {
    exists k: nat :: k > 0 && Up(s, v, k) == Some(name)
  }

  lemma LeadsFurther(s: System, v: Name, name: Name)
    requires Next(s, name).Some? && (v == name || LeadsTo(s, v, name))
    ensures LeadsTo(s, v, Next(s, name).value)
  {
    var k: nat :| (k == 0 && v == name) || (k > 0 && Up(s, v, k) == Some(name));
    UpAdds(s, v, k, 1);
    assert Up(s, name, 1) == Some(Next(s, name).value) by {
      assert Up(s, Next(s, name).value, 0) == Some(Next(s, name).value);
    }
  }

  /** Any sequence of queries that share one cache gets the uncached answers. */
  method InferAll(s: System, names: seq<Name>) returns (infos: seq<Info>)
    ensures |infos| == |names| && forall i :: 0 <= i < |names| ==> infos[i] == Answer(s, names[i])
    ensures forall i :: 0 <= i < |names| ==> IsAnswer(s, names[i], infos[i])
  {
    var table := new DrainTable(s);
    infos := [];
    for i := 0 to |names|
      invariant table.Valid() && table.visiting == {} && table.s == s && fresh(table)
      invariant |infos| == i && forall j :: 0 <= j < i ==> infos[j] == Answer(s, names[j])
    {
      var r := table.Infer(names[i]);
      infos := infos + [r];
    }
    forall i | 0 <= i < |names| ensures IsAnswer(s, names[i], infos[i]) {
      AnswerIsRight(s, names[i]);
    }
  }
}
