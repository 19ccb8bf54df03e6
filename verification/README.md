# Verified model of the F' topology analyses

This project models the analyses that `fprime_topology_analysis` runs over one F' deployment and proves what
their answers mean. An F' topology is a set of component instances whose ports are wired together. A handler of
an instance can call some of the instance's output ports; each call lands on an input port that is *sync* (runs on
the caller's thread), *guarded* (runs on the caller's thread under the instance's one, non-recursive mutex) or
*async* (queues a message for the instance's own thread). All analyses walk this one graph.

The centre is the guarded-port deadlock analysis: a depth-first walk from every guarded port with a stack of held
mutexes, memoised on the set of held mutexes, gives a lock-order graph; Tarjan's algorithm with an explicit work
stack splits it into components; the elementary cycles of each component are enumerated, and those that two
distinct real threads can drive are reported. The main results are:

* an operational model of the runtime (threads, call stacks, mutexes, queued messages) and the theorem that
  whatever circular wait any run of it gets into, an analysis that nothing cut short has reported that very circle;
  so without findings no set of threads ever deadlocks;
* the lock-order graph, the threads on its edges, the self-deadlocks and the cycles equal their declarative
  definitions, for every topology;
* the other direction, from the report back to the runtime: the threads a cycle is reported for can be brought, in
  some run, to own one of its mutexes and want the next one (or hang on themselves first), and a re-entered mutex
  hangs the thread that takes the chain, for ever; for cycles this holds if no thread's own instance has a port that is
  dispatched both async and guarded;
* the generic walk is sound and complete for every policy that respects its memoisation key, and what a smaller budget
  expands is a prefix of what a larger one does;
* at the cycle cap the analysis reports, for each component by itself, exactly the hazards among its earliest cycles;
* the two thread-origin algorithms (flooding and breadth-first search) agree, and the search is shortest;
* what is reported under suppressions, or with less precise knowledge of the C++ code, is related exactly to what
  is reported without;
* where the code promises more than it keeps, the project has the counterexample and the exact condition: an instance's
  own thread is credited with guarded calls it never makes when its command port takes both async and guarded commands,
  so that a cycle of one thread is reported as one of two (`Phantom`, `Attribution`); the note
  that the depth bound was hit is lost, so a run can end unflagged and lack even a self-deadlock (`DepthBound`, `Limits`),
  and a merged handler record can list one field both as read and as written (`CallGraphs.MergeCanMixReadsAndWrites`,
  exactly when `CallGraphs.MergedReadsAndWrites` says);
* the other analyses over the same graph: re-queue drops, drain threads, rate propagation, the C++ call-graph
  closure, pure sync cycles, queue fan-out and stack depth, each equal to its declarative definition.

Code that works on mutable state is imperative here too: the traversal, the origin table, the analyzer, the cycle
search, the drain table, the sync-cycle check and the fan-out count are classes; Tarjan, the breadth-first search,
the call-graph closure and the rate worklist are loops over a work list. Each is proved against a specification
function or a declarative predicate, and the theorems are about those.

Names of instances, ports, components and methods are natural numbers, because the program only compares and sorts
them. Iteration over a Python dictionary or set whose order does not show in the result takes elements in any order.

## Layout

| file | what it holds |
|---|---|
| `Basics.dfy`, `Graph.dfy` | sequences and names; the tagged graph and call chains on one thread |
| `Topology.dfy`, `CallGraph.dfy` | from a topology, a flow map and the C++ call graph to the tagged graph |
| `Walk.dfy`, `Traversal.dfy`, `Truncation.dfy` | the generic walk: its specification and theory, the imperative traversal, and what its budget buys |
| `Threads.dfy`, `OriginPath.dfy` | thread origins by flooding, and the breadth-first search that explains them |
| `LockOrder.dfy`, `Limits.dfy`, `LockGraph.dfy`, `Exactness.dfy` | the lock policy, its depth bound and budget, the accumulated edges and findings, and what they mean |
| `Components.dfy`, `Tarjan.dfy`, `LockGroups.dfy` | strongly connected components, and those of the lock-order edges |
| `CycleOrder.dfy`, `Cycles.dfy` | the order of cycles, and their enumeration |
| `Analyzer.dfy`, `Report.dfy` | the deadlock analyzer, and its report stated in terms of call chains and of what threads do at run time |
| `Runtime.dfy`, `Deadlock.dfy` | the runtime and the deadlock theorems |
| `Driving.dfy`, `Attribution.dfy`, `Phantom.dfy` | which threads drive an edge at run time, when the credited ones do, and a topology where they do not |
| `Refinement.dfy`, `DepthBound.dfy` | suppressions, coarser flow maps, and the depth bound |
| `Requeue.dfy`, `DrainThread.dfy` | re-queue drops and drain threads |
| `Rates.dfy` | rate propagation |
| `SyncCycle.dfy`, `Fanout.dfy`, `StackDepth.dfy` | three checks |

## Model

| member | source | states |
|---|---|---|
| Deadlock.DeadlockSound | src/fprime_topology_analysis/guarded_port_analyzer.py:8-29 | in every state of every run of the runtime, a circle of threads each waiting for a mutex the next one holds is reported: its exact lock cycle, from some mutex on, as an ABBA finding, or the mutex a single thread re-enters as a self-deadlock; for any analysis that suppresses nothing, whose flag stays false, and whose depth bound no chain of the topology hits |
| Deadlock.NoFindingsNoDeadlock | README.md:107-131 | such an analysis without findings proves that no run reaches a set of threads each waiting for a mutex owned within the set |
| Deadlock.NoFindingsNoDeadlockWithRoom | src/fprime_topology_analysis/guarded_port_analyzer.py:65-69 | the corollary for a depth bound of at least the number of guarded instances, which no chain can hit |
| Report.CyclesReportedAreExact | src/fprime_topology_analysis/guarded_port_analyzer.py:392-465 | stated without the analysis, for every graph in which a handler that calls a port calls it under each kind the port is dispatched under, as the graph of every topology is (`Attribution.TagCallsEveryKind`): whatever is cut short, a reported cycle is one whose mutexes nest all around on some call chains, starting at its smallest, with no pair suppressed, and with two of its edges two different real threads are credited: a credited thread drives its edge at run time (some run has it own the one mutex and wait for the other, or hang on itself on the way there) or owns a mixed port, dispatched both async and guarded, that leads to the edge; where these owners drive too, two different threads do; when no walk is truncated, no cap is reached and no chain hits the depth bound, every such cycle is reported |
| Report.CyclesAreDrivenByTwoThreads | src/fprime_topology_analysis/guarded_port_analyzer.py:21-32 | the code's promise, kept for every topology in which no instance with its own thread has a mixed port: two different threads drive two edges of a reported cycle at run time; and when nothing is cut short, every unsuppressed cycle that two threads drive is reported |
| Phantom.PhantomIsReported | src/fprime_topology_analysis/guarded_port_analyzer.py:392-413 | without that condition the promise fails: in a graph of this shape every analysis that nothing cuts short reports a cycle that no two threads drive |
| Phantom.TopologyHasPhantom | src/fprime_topology_analysis/topology_graph.py:462-474 | such a graph comes from a topology: an active instance whose command port takes one command async and another one guarded, a passive one that it calls and is called by, and a second active one that calls both |
| Phantom.AnAnalysisIsWrong | src/fprime_topology_analysis/guarded_port_analyzer.py:27-29 | there are such a topology, a strict flow map that knows all its handlers, and a finished analysis of it at any depth from 2 on that nothing cuts short |
| Phantom.QuietThreadTakesNothing | src/fprime_topology_analysis/guarded_port_analyzer.py:8-14 | in no state of any run does the thread of the first of these own a mutex or wait for one |
| Attribution.AttributionIsRealWhen | src/fprime_topology_analysis/topology_graph.py:840-874 | the exact condition, for every topology and flow map: each real thread labelled on a guarded port makes a guarded call into it on some chain of its own, if and only if each mixed port of an instance with its own thread is also called guarded from that thread |
| Attribution.AttributionIsRealWithoutMixedPorts | src/fprime_topology_analysis/topology_graph.py:462-474 | and in terms of the topology alone: attribution is real under every flow map if and only if no instance with its own thread has a mixed port |
| Driving.DriversAreCallers | src/fprime_topology_analysis/guarded_port_analyzer.py:21-32 | a thread drives an edge at run time if and only if it makes a guarded call, on a chain from one of its async ports, into a port from which the two mutexes nest |
| Driving.CreditedThreads | src/fprime_topology_analysis/topology_graph.py:840-874 | the origins of the ports from which a pair nests include a real thread if and only if it drives the pair or owns a mixed port from which the pair nests |
| Driving.WhoIsAttributed | src/fprime_topology_analysis/topology_graph.py:840-874 | the real threads labelled on a guarded port are those that make a guarded call into it, and the own thread of its instance if the port is mixed |
| Driving.Simulate | src/fprime_topology_analysis/guarded_port_analyzer.py:8-14 | every call chain from an async port of a thread is one that thread makes in some run, up to where it first asks for a mutex it already owns |
| Driving.ReentryHangs | src/fprime_topology_analysis/guarded_port_analyzer.py:18-20 | a thread that makes a guarded call into a port behind which a mutex is re-entered gets, in some run, to wait for a mutex it owns itself |
| Driving.HangsAreReentries | src/fprime_topology_analysis/guarded_port_analyzer.py:18-20 | a thread can wait for a mutex it owns itself if and only if it makes such a call |
| Report.ReportedSelfDeadlocksHang | src/fprime_topology_analysis/guarded_port_analyzer.py:249-287 | a self-deadlock reported with a real thread, whatever was cut short or suppressed, is one that thread hangs in in some run, if mixed ports are called guarded from their own instance's thread |
| Report.DriversHoldAndWant | src/fprime_topology_analysis/guarded_port_analyzer.py:18-24 | if an analysis that nothing cut short reports no self-deadlock, then every driver of an edge gets, in some run, to own the one mutex and wait for the other |
| Deadlock.DeadlockIsPermanent | src/fprime_topology_analysis/guarded_port_analyzer.py:18-20 | whatever the other threads do, threads that wait for mutexes owned within their set, or for one of their own, never take another step |
| Report.SelfDeadlocksReportedAreExact | src/fprime_topology_analysis/guarded_port_analyzer.py:249-287 | a reported self-deadlock is of a mutex some call chain, however deep, re-enters, unless suppressed; when no walk is truncated and no chain hits the depth bound, every such mutex is reported, whether or not the cap is reached |
| Report.ConflictIsTwoThreads | src/fprime_topology_analysis/guarded_port_analyzer.py:392-413 | the classification finds two different real threads on a cycle's edges only if two are credited with them, which are drivers at run time if the owners of mixed ports are; when no walk is cut short, it finds them exactly if two are credited |
| Report.HazardsAreExact | src/fprime_topology_analysis/guarded_port_analyzer.py:392-413 | the same for a whole cycle of the lock-order graph: edges and threads together |
| Deadlock.CircleIsHazard | src/fprime_topology_analysis/guarded_port_analyzer.py:392-413 | for such an analysis, the mutexes of a circle of two or more threads form, up to rotation, a cycle of the lock-order graph whose edges two different real threads drive |
| Deadlock.WaitIsRecorded | src/fprime_topology_analysis/guarded_port_analyzer.py:186-220 | a thread that owns one mutex and waits for another is on record: the pair is observed and the thread reaches an entry from which it nests |
| Deadlock.FollowBlockers | README.md:107-131 | every set of mutually blocked threads contains a circle |
| Runtime.StepKeepsConsistent | src/fprime_topology_analysis/guarded_port_analyzer.py:8-14 | every step of every thread keeps that a mutex is owned by exactly the thread whose call stack has taken it, that stacks are call chains, and that no stack holds a mutex twice |
| Runtime.RunStaysConsistent | src/fprime_topology_analysis/guarded_port_analyzer.py:8-14 | so every state of every run has these properties |
| Exactness.LockGraphIsExact | src/fprime_topology_analysis/guarded_port_analyzer.py:159-220 | an edge (holder, acquired) is there only if some async-free chain from a guarded entry, however deep, takes the second mutex while holding the first; when no walk is truncated and no chain of the topology hits the depth bound, exactly then, suppressed pairs aside |
| Exactness.SelfDeadlocksAreExact | src/fprime_topology_analysis/guarded_port_analyzer.py:249-287 | a self-deadlock is reported for a mutex only if some chain, however deep, re-enters it, and exactly then when no walk is cut short; one finding per mutex |
| Exactness.EdgeThreadsAreExact | src/fprime_topology_analysis/guarded_port_analyzer.py:222-247 | an origin is on an edge only if it reaches a guarded entry from which the pair nests, and exactly then when no walk is cut short |
| Exactness.LockGraphIsExactWithin | src/fprime_topology_analysis/guarded_port_analyzer.py:159-220 | where chains do hit the depth bound: the edges of untruncated walks are exactly the pairs taken by chains that hold no more mutexes than the bound |
| Exactness.SelfDeadlocksAreExactWithin | src/fprime_topology_analysis/guarded_port_analyzer.py:249-287 | and the self-deadlocks exactly the re-entries such chains make |
| Limits.HitsAreNoticed | src/fprime_topology_analysis/guarded_port_analyzer.py:211-216 | for every topology: when no walk is truncated, the callback notes the depth bound if and only if some chain that re-enters nothing holds as many mutexes as the bound and goes on to take one more |
| Limits.NoHitNothingLost | src/fprime_topology_analysis/guarded_port_analyzer.py:211-216 | where no chain does so, everything that nests at all, re-entries included, nests within the bound |
| Limits.RoomForAllIsNeverHit | src/fprime_topology_analysis/guarded_port_analyzer.py:65-69 | a bound of at least the number of guarded instances is never hit |
| Exactness.EdgesAreEvidenced | src/fprime_topology_analysis/guarded_port_analyzer.py:222-247 | every edge's witness is an async-free chain from its entry whose last call takes the acquired mutex while the holder's is held, no longer than any other chain shown for the pair; this holds also for truncated runs |
| Exactness.SelfFindingsAreEvidenced | src/fprime_topology_analysis/guarded_port_analyzer.py:249-287 | a self-deadlock's witness is a chain that re-enters its mutex, and its threads are exact like those of an edge |
| LockOrder.LockPolicyRespectsItsKey | src/fprime_topology_analysis/guarded_port_analyzer.py:176-184 | what the lock policy does depends only on the set of held mutexes, so memoising on the set loses nothing |
| LockOrder.FollowsIsLockChain | src/fprime_topology_analysis/guarded_port_analyzer.py:186-220 | the policy goes down exactly the async-free chains that never re-enter a mutex and stay within the depth bound, with the mutexes of the chain as its state |
| LockOrder.LockWalkIsSound | src/fprime_topology_analysis/guarded_port_analyzer.py:186-220 | every nested acquisition one entry's walk records is one that a chain makes |
| LockOrder.LockWalkIsComplete | src/fprime_topology_analysis/guarded_port_analyzer.py:176-184 | a walk that is not truncated records every nested acquisition any chain of the entry makes |
| LockOrder.BuildIsSound | src/fprime_topology_analysis/guarded_port_analyzer.py:159-184 | the same over all guarded entries that share one budget |
| LockOrder.BuildIsComplete | src/fprime_topology_analysis/guarded_port_analyzer.py:159-184 | the same over all guarded entries, when no walk is truncated |
| Limits.BuildIsAffordable | src/fprime_topology_analysis/guarded_port_analyzer.py:167-184 | every topology has a budget that its walks never exhaust: more than the handlers with every set of guarded instances, once for each guarded handler |
| LockGraph.EdgesSummarise | src/fprime_topology_analysis/guarded_port_analyzer.py:222-247 | after any sequence of observations an edge is there exactly for the observed, unsuppressed pairs, with the union of their threads and the first of the shortest witnesses |
| LockGraph.SelfFindingsAreExact | src/fprime_topology_analysis/guarded_port_analyzer.py:249-287 | after any sequence of observations there is one finding for each re-entered, unsuppressed mutex and no other |
| LockGraph.SelfFindingsSummarise | src/fprime_topology_analysis/guarded_port_analyzer.py:272-287 | a finding about a mutex shows the first of its re-entries and has the threads of all of them |
| LockGraph.SuppressionCommutes | src/fprime_topology_analysis/guarded_port_analyzer.py:231-259 | suppressing pairs while walking gives the unsuppressed map without those pairs, same witnesses and threads, and the unsuppressed findings without those mutexes, whatever was walked |
| Refinement.SuppressedHazards | src/fprime_topology_analysis/guarded_port_analyzer.py:445-465 | the reportable cycles of the edges under suppressions are exactly those of the unsuppressed edges that use no suppressed one |
| Refinement.SuppressedFindings | src/fprime_topology_analysis/guarded_port_analyzer.py:445-465 | two finished runs below the cap: the findings under suppressions are exactly the other run's cycles that use no suppressed edge and self-deadlocks that are not suppressed, with the same edges, witnesses and threads, even when walks are truncated |
| Refinement.CoarserFindsMore | src/fprime_topology_analysis/guarded_port_analyzer.py:402-413 | a graph with more calls has every edge, every real thread on an edge, every self-deadlock and every reportable cycle of the smaller one, if its own walks are not truncated |
| Refinement.CoarserReportsMore | src/fprime_topology_analysis/guarded_port_analyzer.py:402-413 | the same about the findings of two finished runs |
| Refinement.PermissiveFindsMore | src/fprime_topology_analysis/port_flow.py:153-183 | two finished runs, one on a precise flow map and one that resolves unknown handlers permissively or knows no handler at all: if the second ends with its flag false, it has every edge and every real thread on an edge of the first, and reports every cycle and self-deadlock the first reports |
| DepthBound.DepthBoundIsTight | src/fprime_topology_analysis/guarded_port_analyzer.py:176-216 | a run that ends with its flag false reports every pair that nests and every re-entry on any chain, in every topology of a given number of guarded instances, if and only if the depth bound is at least that number |
| DepthBound.EdgeBoundIsTight | src/fprime_topology_analysis/guarded_port_analyzer.py:176-216 | for the edges alone, self-deadlocks aside: if and only if the bound is at least one less than that number |
| DepthBound.RingIsMissed | src/fprime_topology_analysis/guarded_port_analyzer.py:176-216 | the counterexample: a ring of components each calling the next one's guarded port re-enters every mutex, but under a smaller bound, with sufficient other limits, every run ends with its flag false and no self-deadlock, because the flag the callback sets is overwritten |
| DepthBound.UnhitMissesNothing | src/fprime_topology_analysis/guarded_port_analyzer.py:211-216 | in one given topology nothing is missed if no chain hits the bound, whatever the number of guarded instances |
| DepthBound.EnoughIsEnough | src/fprime_topology_analysis/guarded_port_analyzer.py:110-131 | every topology has a budget and a cap with which every run ends with its flag false |
| Analyzer.GuardedPortAnalyzer.Run | src/fprime_topology_analysis/guarded_port_analyzer.py:635-648 | the whole analysis: edges and self-deadlocks are those of the observed acquisitions; of each component's cycles, or at the cap of the earliest of them, exactly the reportable ones are reported, with their edges; the flag is set exactly when a walk is truncated or some component has at least as many cycles as the cap |
| Analyzer.GuardedPortAnalyzer.BuildLockGraph | src/fprime_topology_analysis/guarded_port_analyzer.py:159-184 | the walks over all guarded entries in order, with one budget, observe exactly the specified acquisitions, and the truncation flag is that of the walks |
| Analyzer.GuardedPortAnalyzer.WalkEntry | src/fprime_topology_analysis/guarded_port_analyzer.py:171-184 | one entry's walk: the callback leaves the flag set exactly if it was set before or some hop hits the depth bound, and then the flag becomes what was read before the walk or the walk's own result |
| Analyzer.GuardedPortAnalyzer.OnHop | src/fprime_topology_analysis/guarded_port_analyzer.py:186-220 | the callback: what it records, what it returns for each kind of hop, and when it notes that the depth bound was hit |
| Analyzer.GuardedPortAnalyzer.RecordOne | src/fprime_topology_analysis/guarded_port_analyzer.py:222-287 | recording one observation keeps edges and findings equal to the specified accumulation |
| Analyzer.GuardedPortAnalyzer.DetectIn | src/fprime_topology_analysis/guarded_port_analyzer.py:445-465 | of the cycles of one component, or if they are more than the cap of that many earliest ones in name order, exactly those that two real threads can drive are reported, once, with their edges, shortest first and then in name order; the flag is set if and only if the component has at least as many cycles as the cap |
| Analyzer.GuardedPortAnalyzer.DetectCycles | src/fprime_topology_analysis/guarded_port_analyzer.py:445-465 | the same for every component of at least two members, whether or not another one reaches the cap, and nothing else is added |
| Analyzer.EveryComponentIsServed | src/fprime_topology_analysis/guarded_port_analyzer.py:445-465 | the same about the findings of any finished run, the components being the sets of at least two names linked both ways by lock-order edges |
| LockGroups.ComponentIsGroup | src/fprime_topology_analysis/guarded_port_analyzer.py:293-348 | these are exactly the groups of two or more that the component search returns |
| LockGroups.CycleHasComponent | src/fprime_topology_analysis/guarded_port_analyzer.py:445-450 | every elementary cycle lies in one of them |
| LockGroups.CycleLiesInOneComponent | src/fprime_topology_analysis/guarded_port_analyzer.py:445-450 | every elementary cycle of the lock-order graph lies inside one strongly connected component of at least two members, so searching component by component loses none |
| Analyzer.CycleEdgesAreAll | src/fprime_topology_analysis/guarded_port_analyzer.py:436-443 | the edges reported with a cycle are those between its neighbours, in order, none left out |
| Tarjan.StronglyConnected | src/fprime_topology_analysis/guarded_port_analyzer.py:293-348 | for every finite graph the loop with the explicit work stack ends, and the groups it emits partition the nodes, are mutually reachable inside, and come out with no call to a later one |
| Components.ComponentsAreMaximal | src/fprime_topology_analysis/guarded_port_analyzer.py:293-348 | two nodes are in one emitted group exactly when each reaches the other |
| Components.ReachesEarlierGroup | src/fprime_topology_analysis/guarded_port_analyzer.py:293-348 | whatever a node reaches is in its own group or one emitted before: reverse topological order |
| Components.EnterKeeps | src/fprime_topology_analysis/guarded_port_analyzer.py:312-317 | numbering a new node keeps the search invariant (numbers, links between waiting and open nodes, low links, emitted groups) |
| Components.ScanKeeps | src/fprime_topology_analysis/guarded_port_analyzer.py:319-329 | looking at a child that has a number keeps it |
| Components.LeaveKeeps | src/fprime_topology_analysis/guarded_port_analyzer.py:343-346 | leaving a node whose low link is below its number keeps it |
| Components.EmitKeeps | src/fprime_topology_analysis/guarded_port_analyzer.py:333-341 | emitting the group of a node whose low link is its own number keeps it: the group is complete |
| Tarjan.PopGroup | src/fprime_topology_analysis/guarded_port_analyzer.py:333-341 | the group is what was on the stack from the node up, last in first out |
| Cycles.ElementaryCycles | src/fprime_topology_analysis/guarded_port_analyzer.py:350-390 | every cycle listed is elementary, starts at its smallest member and is listed once, shortest first and then in name order; they are all cycles of the component, or as many as the cap and then with each also every cycle that comes earlier in name order; the cap is reported if and only if there are that many |
| Cycles.FirstCyclesAreUnique | src/fprime_topology_analysis/guarded_port_analyzer.py:366-388 | so the cap leaves no choice which cycles are listed |
| CycleOrder.EarlierTotal | src/fprime_topology_analysis/guarded_port_analyzer.py:389 | of two different cycles exactly one comes earlier in name order, which is how cycles of one length are listed |
| Cycles.CycleSearch.Dfs | src/fprime_topology_analysis/guarded_port_analyzer.py:364-384 | the depth-first search pushes and pops its path and finds each continuation of it to a cycle once, or stops at the cap |
| Cycles.CanonicalRotation | src/fprime_topology_analysis/guarded_port_analyzer.py:350-384 | every elementary cycle has a rotation that starts at its smallest member, so listing only those loses none |
| Walk.WalkIsSound | src/fprime_topology_analysis/topology_graph.py:968-1074 | whatever the policy and the budget, a walk shows only hops at the end of chains the policy allows, with the state of that chain |
| Walk.WalkIsComplete | src/fprime_topology_analysis/topology_graph.py:968-1074 | for any policy that respects its state key, a walk that is not truncated shows every call out of every handler and key that any allowed chain reaches |
| Walk.DescentIsFrugal | src/fprime_topology_analysis/topology_graph.py:1025-1074 | for every policy and budget, every marker expanded is reached by a chain and expanded once, each call out of it is shown once, and the budget falls by exactly the number of markers |
| Walk.DescentFits | src/fprime_topology_analysis/topology_graph.py:1025-1074 | with a budget above a finite set of markers that the policy never leaves, a descent is never truncated |
| Walk.WalkIsAffordable | src/fprime_topology_analysis/topology_graph.py:968-1023 | the same over all entry handlers of a port that share the budget |
| Walk.Descend | src/fprime_topology_analysis/topology_graph.py:1025-1074 | the specification only ever extends its log and its markers, never repeats a marker, pays one budget unit for each while there is any, never goes below zero, and is truncated only with nothing left |
| Truncation.FollowingUnpaidTruncates | src/fprime_topology_analysis/topology_graph.py:1039-1045 | following a hop into any handler once the budget is gone truncates the walk, even if that handler has been expanded before |
| Truncation.EnteringUnpaidTruncates | src/fprime_topology_analysis/topology_graph.py:1039-1045 | the same for the next of several handlers behind one port |
| Truncation.BudgetBuysTheFirstMarkers | src/fprime_topology_analysis/guarded_port_analyzer.py:167-184 | the whole analysis: if truncated it has expanded exactly max_states markers; they are the first ones of what any larger budget expands; if not truncated a larger budget observes the same; it is truncated if a larger one expands more than max_states markers, and not if fewer |
| LockOrder.GuardedEntriesAreInOrder | src/fprime_topology_analysis/guarded_port_analyzer.py:168-170 | the walks start from every guarded port, once, in the order of instances and ports |
| Traversals.Traversal.Descend | src/fprime_topology_analysis/topology_graph.py:1025-1074 | the imperative descent with its visited set and shared budget computes the specification |
| Traversals.Traversal.WalkChains | src/fprime_topology_analysis/topology_graph.py:968-1023 | so does the walk over all entry handlers, with a new visited set for each |
| Threads.OriginTable.ThreadsReaching | src/fprime_topology_analysis/topology_graph.py:876-886 | the origins of an input port are those of exactly the seeds whose thread invokes it before any async hop; if no seed's does, and only then, the answer is unknown and nothing else; it is never empty |
| Threads.OriginTable.EnsureThreadOrigins | src/fprime_topology_analysis/topology_graph.py:796-838 | the table is filled once, from every seed |
| Threads.OriginTable.PropagateOrigin | src/fprime_topology_analysis/topology_graph.py:840-874 | flooding one seed adds its origin to exactly the ports it reaches and changes no other label |
| Threads.Seeds | src/fprime_topology_analysis/topology_graph.py:796-835 | the seeds are the async ports of own-thread instances and the undriven ports of every other kind |
| Threads.HitIsExact | src/fprime_topology_analysis/topology_graph.py:840-874 | once the worklist is empty the ports hit are exactly those the seed reaches |
| OriginPaths.OriginCallPath | src/fprime_topology_analysis/topology_graph.py:912-962 | a path returned is a call chain from a seed of the origin to the entry, and none is shorter; none is returned only if there is none |
| OriginPaths.SearchAgreesWithFlood | src/fprime_topology_analysis/topology_graph.py:840-962 | an origin is among those reaching a port exactly when it names a thread of control that exists and a path leads there; unknown is exactly when no such thread has a path there |
| OriginPaths.Search | src/fprime_topology_analysis/topology_graph.py:940-962 | the queue loop finds the nearest call into the entry |
| OriginPaths.Retrace | src/fprime_topology_analysis/topology_graph.py:946-955 | following the recorded parents back gives the chain by which the handler was found |
| OriginPaths.OriginSeeds | src/fprime_topology_analysis/topology_graph.py:888-910 | the seeding ports of an origin token, and their kinds |
| Topologies.CallsFrom | src/fprime_topology_analysis/topology_graph.py:757-782 | the hops out of some output ports are all their wired destinations, under every kind of each |
| Topologies.HopsAreCounted | src/fprime_topology_analysis/topology_graph.py:757-782 | and each as often as there are connections along it |
| Topologies.EntriesAreExact | src/fprime_topology_analysis/topology_graph.py:229-252 | one dispatch of a port runs its own handler, or for the command port those of the commands of that kind, each once |
| Attribution.SeedsOfTopology | src/fprime_topology_analysis/topology_graph.py:810-838 | in terms of the topology: the seeds are the async ports of active and queued instances, and under each other kind the ports no connection leads to |
| Topologies.StrictIsPermissiveWhenResolved | src/fprime_topology_analysis/port_flow.py:169-183 | a strict map that resolves every handler gives the same graph as the permissive one: strictness only ever aborts |
| Topologies.PermissiveIsCoarser | src/fprime_topology_analysis/port_flow.py:153-183 | a permissive map, or an empty one, resolves every handler to at least what the given map does |
| Topologies.FinerIsIncluded | src/fprime_topology_analysis/port_flow.py:153-183 | a pointwise smaller flow map gives the same graph with fewer calls |
| CallGraphs.Resolve | src/fprime_topology_analysis/component_call_graph.py:1006-1052 | the closure is the union over exactly the methods reachable from the handler, reads less anything written, opaque exactly if one of them is, with their number |
| CallGraphs.BuildFlowMap | src/fprime_topology_analysis/component_call_graph.py:1054-1114 | there is a record for exactly the handlers some method defines, and it is the union over all definitions, own fields only, opaque if any is |
| CallGraphs.StrictLookupIsExact | src/fprime_topology_analysis/port_flow.py:134-183 | a strict lookup answers exactly when the component's class defines the handler and no definition is opaque, with exactly the declared ports some definition can reach, each once; otherwise it raises |
| CallGraphs.PermissiveLookupIsExact | src/fprime_topology_analysis/port_flow.py:134-183 | a permissive lookup always answers: for those handlers the same, and for any other, opaque or unknown, with all declared ports |
| CallGraphs.MergeCanMixReadsAndWrites | src/fprime_topology_analysis/component_call_graph.py:1106-1114 | the counterexample: a base class and an implementation for which that happens |
| Requeue.FindRequeueDrops | src/fprime_topology_analysis/async_queue_analyzer.py:703-751 | every drop listed is one that a chain from its async port makes to a port of the same instance whose priority (0 if not declared) is strictly lower, with both priorities and the chain that the walk shows first, each pair of ports once and in order; when no walk is truncated, every such pair is listed |
| Requeue.SmallTopologiesAreUntruncated | src/fprime_topology_analysis/topology_graph.py:998-1023 | no walk is truncated where the handlers behind each async port times all handlers are fewer than the default budget |
| Requeue.FollowsIsChain | src/fprime_topology_analysis/async_queue_analyzer.py:723-747 | the stateless policy goes down exactly the async-free chains |
| Requeue.RecordDrops | src/fprime_topology_analysis/async_queue_analyzer.py:723-747 | the callback adds a drop for exactly the pairs shown that are not listed yet |
| DrainThreads.InferAll | src/fprime_topology_analysis/async_queue_analyzer.py:568-613 | any sequence of queries that share one cache gets the uncached answers; each tells the task of the instance, for a queued one the first drain by printed name or that there is none, and the priority at the end of the chain |
| DrainThreads.DrainTable.Infer | src/fprime_topology_analysis/async_queue_analyzer.py:568-613 | one query with any cache and any instances being visited: the uncached answer, or the cut of a cycle, and then the priority is none as it would be without the cut; what is cached stays right |
| DrainThreads.DrainTable.QueuedDrain | src/fprime_topology_analysis/async_queue_analyzer.py:541-565 | a queued instance has the priority at the end of its first-drain chain |
| DrainThreads.FirstDrain | src/fprime_topology_analysis/async_queue_analyzer.py:548-563 | the drain taken is the first by printed name, and none only if no connection drains the instance |
| DrainThreads.CycleHasNoPriority | src/fprime_topology_analysis/async_queue_analyzer.py:586-590 | a drain chain that returns to where it started never gets to a task |
| DrainThreads.PriorityOfNext | src/fprime_topology_analysis/async_queue_analyzer.py:559-565 | going one drain up does not change the priority |
| Rates.PropagateMemberRates | src/fprime_topology_analysis/rate_groups.py:183-242 | each output port that handler flow reaches gets the sum of the frequencies of the distinct roots that reach it, the frequency itself if there is one; the end of a connection out of a group's member port keeps its group's frequency unless its port is reached itself, every other entry is unchanged, and entry rates are the same sums for input ports |
| Rates.RateIsTheSum | src/fprime_topology_analysis/rate_groups.py:236-241 | the sum starts from 0 and takes each root's group frequency once |
| Rates.RatesAdd | src/fprime_topology_analysis/rate_groups.py:236-241 | and is additive over disjoint sets of roots |
| Rates.Roots | src/fprime_topology_analysis/rate_groups.py:192-203 | the roots are exactly the ends of connections out of the member port of a group's instance |
| Rates.Propagate | src/fprime_topology_analysis/rate_groups.py:189-235 | the worklist ends, and the roots that contribute to a port are exactly those a tick of which reaches it before any later async hop, however many paths lead there |
| Rates.RunsIsVisited | src/fprime_topology_analysis/rate_groups.py:213-235 | when the worklist is empty, a root has visited exactly the handlers its ticks run |
| Rates.TotalLess | src/fprime_topology_analysis/rate_groups.py:237-241 | the sum over contributions does not depend on their order |
| Rates.SumTable | src/fprime_topology_analysis/rate_groups.py:237-241 | summing the contributions gives each port the rate of its roots, each counted once |
| SyncCycles.Check.Run | src/fprime_topology_analysis/checks.py:255-266 | there is a finding exactly when there is an elementary cycle of at most 24 handlers whose hops all land on purely sync ports; the findings are one for each set of areas that a path coming back to itself covers, and show the end of such a path |
| SyncCycles.Check.Walk | src/fprime_topology_analysis/checks.py:268-310 | the walk from one handler reports exactly the sets of areas of the paths through it that come back to themselves |
| SyncCycles.FindingsMeanCycles | src/fprime_topology_analysis/checks.py:268-310 | paths that come back to themselves within the bound exist exactly when such a cycle does |
| Fanout.CountFrom | src/fprime_topology_analysis/checks.py:863-886 | the count for a target is the size of the set of routes of at most 12 calls on the handler's thread that repeat no handler and end in a message to it, parallel connections counted apart; a target is marked as reached through an array exactly when a route ends there through one |
| Fanout.NumberIsExact | src/fprime_topology_analysis/checks.py:863-886 | the recursion counts no route twice and leaves none out |
| Fanout.RoutesAreExact | src/fprime_topology_analysis/checks.py:863-886 | the finite set that is counted holds every such route and nothing else |
| Fanout.Tally.Count | src/fprime_topology_analysis/checks.py:863-886 | the recursion with shared counters adds exactly that number for every target |
| StackDepths.DeepestIsLongest | src/fprime_topology_analysis/checks.py:647-663 | the chain found is a chain of calls on the thread in which only the last handler may repeat, cut one step beyond 24, and no such chain is longer |
| StackDepths.NoDiveIsDeeper | src/fprime_topology_analysis/checks.py:647-663 | the same from any handler with any path behind it: nothing is missed |

## Left out

- Loading the FPP model, classifying port kinds and indexing connections (topology_graph.py:329-743): a topology is the input here. Input ports exist for every instance named by a connection.
- libclang parsing, the regular expressions that recognise handlers, rate dividers and timers, disk caches and process pools: a map of method bodies, a table of handler names and a list of rate-group frequencies are the inputs.
- infer_rate_groups itself (rate_groups.py:245-309): the frequencies of the groups and the consumption rates of queued instances are sums over what is modelled.
- The command line, Markdown, Mermaid, DOT and JSON output, message text and severities.
- The other checks (data races, ping coverage, buffer ownership, FATAL paths, telemetry, CPU affinity, rate-group budget, priority windows, unconnected ports): single-pass reports without an algorithm of their own.
- Topologies.StrictIsPermissiveWhenResolved: does not model that a strict flow map aborts the whole program at an unresolved handler; here such a handler calls nothing, and CallGraphs.StrictLookupIsExact says when the lookup raises.
- Analyzer.GuardedPortAnalyzer.WalkEntry: does not call the callback from inside the traversal; the traversal takes the callback's decision as a function and logs the hops, and the analyzer then runs the callback over the log in the same order, which the callback cannot tell apart because it never reads what the traversal changes.
- Deadlock.DeadlockSound: does not model messages that block the sender on a full queue, because the program treats every async call as a hop that leaves the thread.
- Runtime.StepKeepsConsistent: does not model the contents of message queues; a thread may take any message at any time, which only adds runs. External callers of undriven ports and unknown threads are no threads of the runtime, as the program counts only own-thread instances as real.
- Exactness.EdgesAreEvidenced: the entry label at the head of a printed witness is left out; entry and calls determine it.
- Cycles.ElementaryCycles: the built-in sort is an insertion sort here.
- Rates.PropagateMemberRates: sums are over real numbers, not floating point.
- DrainThreads.InferAll: the context is a value, not the text printed for it.
- CallGraphs.BuildFlowMap: the class name and the number of visited functions stored with a record are left out.
- SyncCycles.Check.Run: says nothing about the number of findings per cycle, because findings are told apart only by the first component of the instances' names.
- Fanout.CountFrom: does not model the verdict drawn from the count against the queue size. The mark for arrays looks only at the last call of a route, so a route that passes through an array earlier is not marked.
- StackDepths.DeepestIsLongest: one handler's recursion; taking the longest over the async ports of an instance is left out.
- Python's recursion limit.
