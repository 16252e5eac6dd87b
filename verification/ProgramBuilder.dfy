/** Merging the translation units of a program: which tasks the top reaches, whether their invocations form a
    tree, and which of them an AI Engine upper task drags onto the AI Engine. */
module ProgramBuilders {
  import opened Wrappers
  import opened Graphs

  type Key = string

  datatype SynthTarget = XilinxHls | XilinxVitis | XilinxSlash | Ignore | Aie

  /** The facts of the first sighting of a definition. */
  datatype Def = Def(isSpec: bool, internal: bool, upper: bool, explicitTarget: bool, target: SynthTarget)

  datatype MergedTask = MergedTask(invoker: Option<Key>, upper: bool, target: SynthTarget)

  datatype Verdict = Accepted | InvocationCycle | TargetConflict

  /** Caller key to the callee keys of its invokes, one entry per invoke, in recorded order. */
  type InvokeEdges = map<Key, seq<Key>>

  function Callees(edges: InvokeEdges, k: Key): seq<Key> {
    if k in edges then edges[k] else []
  }

  ghost function Elems(work: seq<Key>): set<Key> {
    set k | k in work
  }

  lemma ElemsGrow(work: seq<Key>, i: nat)
    requires i < |work|
    ensures Elems(work[..i + 1]) == Elems(work[..i]) + {work[i]}
  {
    assert work[..i + 1] == work[..i] + [work[i]];
  }

  ghost function Arcs(edges: InvokeEdges): Graph<Key> {
    map k | k in edges :: set c | c in edges[k]
  }

  lemma ArcsAreCallees(edges: InvokeEdges, k: Key, c: Key)
    ensures c in Succ(Arcs(edges), k) <==> c in Callees(edges, k)
  {
  }

  /** The arcs that leave upper tasks: the only ones discovery and propagation descend. */
  ghost function UpperArcs(defs: map<Key, Def>, edges: InvokeEdges): Graph<Key> {
    map k | k in edges && k in defs && defs[k].upper :: set c | c in edges[k]
  }

  // ----- three-colour search

  datatype Colour = Gray | Black

  type Colouring = map<Key, Colour>

  ghost function Grays(state: Colouring): set<Key> {
    set k | k in state && state[k] == Gray
  }

  ghost function Blacks(state: Colouring): set<Key> {
    set k | k in state && state[k] == Black
  }

  /** Finished keys lead only to finished keys and lie on no cycle. */
  ghost predicate BlackInv(g: Graph<Key>, state: Colouring) {
    Closed(g, Blacks(state)) && forall k :: k in Blacks(state) ==> !OnCycle(g, k)
  }

  class CycleSearch {
    /** Uncoloured keys are absent. */
    var state: Colouring

    constructor ()
      ensures state == map[]
    {
      state := map[];
    }

    /** Searches from `key`; `stack` is the chain of calls in progress. */
    method HasCycle(edges: InvokeEdges, key: Key, ghost stack: seq<Key>, ghost all: set<Key>) returns (found: bool)
      requires Closed(Arcs(edges), all) && key in all && state.Keys <= all
      requires key !in state
      requires IsPath(Arcs(edges), stack + [key])
      requires forall k :: k in stack <==> k in Grays(state)
      requires BlackInv(Arcs(edges), state)
      modifies this
      ensures found ==> exists c :: Reaches(Arcs(edges), key, c) && OnCycle(Arcs(edges), c)
      ensures !found ==> BlackInv(Arcs(edges), state) && key in Blacks(state)
      ensures !found ==> Grays(state) == Grays(old(state)) && Blacks(old(state)) <= Blacks(state)
      ensures old(state.Keys) <= state.Keys <= all
      decreases all - state.Keys
    {
      ghost var g := Arcs(edges);
      StartKeepsInv(g, state, key);
      state := state[key := Gray];
      ghost var grays := Grays(state);
      var callees := Callees(edges, key);
      for i := 0 to |callees|
        invariant old(state.Keys) + {key} <= state.Keys <= all
        invariant Grays(state) == grays && Blacks(old(state)) <= Blacks(state)
        invariant BlackInv(g, state)
        invariant Elems(callees[..i]) <= Blacks(state)
      {
        var child := callees[i];
        ArcsAreCallees(edges, key, child);
        if child in state && state[child] == Gray {
          GrayChildClosesCycle(g, stack + [key], child);
          return true;
        }
        if child !in state {
          assert IsPath(g, stack + [key] + [child]);
          var inner := HasCycle(edges, child, stack + [key], all);
          if inner {
            ghost var c :| Reaches(g, child, c) && OnCycle(g, c);
            EdgeReaches(g, key, child);
            ReachesTransitive(g, key, child, c);
            return true;
          }
        }
        assert child in Blacks(state);
        ElemsGrow(callees, i);
      }
      assert callees[..|callees|] == callees;
      FinishedIsClean(edges, state, key);
      state := state[key := Black];
      return false;
    }

    /** Searches from every key of `roots`; `Some` names a root from which a cycle was found. */
    method FindCycle(edges: InvokeEdges, roots: set<Key>) returns (r: Option<Key>)
      requires state == map[]
      modifies this
      ensures r.Some? ==> r.value in roots && !AcyclicFrom(Arcs(edges), r.value)
      ensures r.None? ==> forall k :: k in roots ==> AcyclicFrom(Arcs(edges), k)
    {
      ghost var g := Arcs(edges);
      ghost var all := Nodes(g) + roots;
      var todo := roots;
      while todo != {}
        invariant todo <= roots && state.Keys <= all
        invariant Grays(state) == {} && BlackInv(g, state)
        invariant roots - todo <= Blacks(state)
      {
        var key :| key in todo;
        todo := todo - {key};
        if key !in state {
          assert IsPath(g, [] + [key]);
          var found := HasCycle(edges, key, [], all);
          if found {
            return Some(key);
          }
        } else {
          assert state[key] == Black by {
            assert key !in Grays(state);
          }
        }
      }
      forall k, c | k in roots && Reaches(g, k, c)
        ensures !OnCycle(g, c)
      {
        ClosedKeeps(g, Blacks(state), k, c);
      }
      return None;
    }
  }

  lemma StartKeepsInv(g: Graph<Key>, state: Colouring, key: Key)
    requires key !in state && BlackInv(g, state)
    ensures var state' := state[key := Gray];
            BlackInv(g, state') && Blacks(state') == Blacks(state) && Grays(state') == Grays(state) + {key}
  {
    assert Blacks(state[key := Gray]) == Blacks(state);
  }

  /** An edge from the end of a path back into it closes a cycle. */
  lemma GrayChildClosesCycle(g: Graph<Key>, path: seq<Key>, child: Key)
    requires IsPath(g, path) && child in path && child in Succ(g, path[|path| - 1])
    ensures Reaches(g, path[|path| - 1], child) && OnCycle(g, child)
  {
    var n := |path| - 1;
    var i :| 0 <= i < |path| && path[i] == child;
    EdgeReaches(g, path[n], child);
    assert PathFromTo(g, path[i..], child, path[n]);
    ReachesSucc(g, child, path[n], child);
  }

  /** A key whose callees are all finished lies on no cycle, and can be finished itself. */
  lemma FinishedIsClean(edges: InvokeEdges, state: Colouring, key: Key)
    requires BlackInv(Arcs(edges), state) && key in Grays(state)
    requires Elems(Callees(edges, key)) <= Blacks(state)
    ensures var state' := state[key := Black];
            && BlackInv(Arcs(edges), state')
            && Blacks(state') == Blacks(state) + {key}
            && Grays(state') == Grays(state) - {key}
  {
    var g := Arcs(edges);
    assert Succ(g, key) == Elems(Callees(edges, key));
    if OnCycle(g, key) {
      var c :| c in Succ(g, key) && Reaches(g, c, key);
      ClosedKeeps(g, Blacks(state), c, key);
    }
    assert Blacks(state[key := Black]) == Blacks(state) + {key};
  }

  // ----- path counts: the measure of the propagation worklist

  /** Number of paths that start at `k`, an invoke repeated n times counting n times. */
  ghost function PathCount(edges: InvokeEdges, k: Key): nat
    requires AcyclicFrom(Arcs(edges), k)
    decreases |Descendants(Arcs(edges), k)|, 1, 0
  {
    1 + CalleeCounts(edges, k, Callees(edges, k))
  }

  ghost function CalleeCounts(edges: InvokeEdges, k: Key, cs: seq<Key>): nat
    requires AcyclicFrom(Arcs(edges), k)
    requires forall c :: c in cs ==> c in Callees(edges, k)
    decreases |Descendants(Arcs(edges), k)|, 0, |cs|
  {
    if cs == [] then 0 else
      ArcsAreCallees(edges, k, cs[0]);
      AcyclicSucc(Arcs(edges), k, cs[0]);
      ReachesSelf(Arcs(edges), cs[0]);
      DescendantsShrink(Arcs(edges), k, cs[0]);
      PathCount(edges, cs[0]) + CalleeCounts(edges, k, cs[1..])
  }

  ghost predicate AllAcyclic(edges: InvokeEdges, work: seq<Key>) {
    forall k :: k in work ==> AcyclicFrom(Arcs(edges), k)
  }

  ghost function QueueCount(edges: InvokeEdges, work: seq<Key>): nat
    requires AllAcyclic(edges, work)
  {
    if work == [] then 0 else PathCount(edges, work[0]) + QueueCount(edges, work[1..])
  }

  lemma {:induction false} QueueCountAppend(edges: InvokeEdges, work: seq<Key>, k: Key)
    requires AllAcyclic(edges, work + [k])
    ensures AllAcyclic(edges, work) && AcyclicFrom(Arcs(edges), k)
    ensures QueueCount(edges, work + [k]) == QueueCount(edges, work) + PathCount(edges, k)
  {
    assert k in work + [k];
    assert forall x :: x in work ==> x in work + [k];
    if work != [] {
      assert (work + [k])[1..] == work[1..] + [k];
      assert forall x :: x in work[1..] + [k] ==> x in work + [k];
      QueueCountAppend(edges, work[1..], k);
    }
  }

  // ----- discovery and propagation

  /** `k` is an AI Engine upper task before propagation. */
  ghost predicate Seed(tasks: map<Key, MergedTask>, k: Key) {
    k in tasks && tasks[k].upper && tasks[k].target == Aie
  }

  /** An invoke chain through upper tasks leads from an AI Engine upper task to `k`. */
  ghost predicate Dragged(g: Graph<Key>, tasks: map<Key, MergedTask>, k: Key) {
    exists u :: Seed(tasks, u) && ReachesPlus(g, u, k)
  }

  ghost predicate Contradicts(defs: map<Key, Def>, k: Key) {
    k in defs && defs[k].explicitTarget && defs[k].target != Aie
  }

  class ProgramBuilder {
    const defs: map<Key, Def>
    const edges: InvokeEdges
    var tasks: map<Key, MergedTask>

    constructor (defs: map<Key, Def>, edges: InvokeEdges)
      ensures this.defs == defs && this.edges == edges && tasks == map[]
    {
      this.defs, this.edges, tasks := defs, edges, map[];
    }

    ghost function Upper(): Graph<Key> {
      UpperArcs(defs, edges)
    }

    /** Every invoke of a reached upper task resolves to a definition with external linkage. */
    ghost predicate Resolves(top: Key) {
      forall k, c :: Reaches(Upper(), top, k) && c in Succ(Upper(), k) ==> c in defs && !defs[c].internal
    }

    /** The task that discovery records for `k`. */
    ghost predicate Records(k: Key, t: MergedTask, top: Key) {
      && k in defs && t.upper == defs[k].upper && t.target == defs[k].target
      && (t.invoker.Some? <==> defs[k].isSpec && k != top)
      && (t.invoker.Some? ==> Reaches(Upper(), top, t.invoker.value) && k in Succ(Upper(), t.invoker.value))
    }

    /** The tasks are closed under the invokes of upper tasks, and carry the facts of their definitions. */
    ghost predicate Discovered()
      reads this
    {
      && (forall k :: k in tasks ==> k in defs && tasks[k].upper == defs[k].upper)
      && (forall k, c :: k in tasks && tasks[k].upper && c in Callees(edges, k) ==> c in tasks)
    }

    /** Every callee of `k` is known and externally linked. */
    ghost predicate Spent(found: map<Key, MergedTask>, k: Key) {
      forall c :: c in Succ(Upper(), k) ==> c in found && c in defs && !defs[c].internal
    }

    /** Everything found is reached; what is found and no longer queued has all its callees found. */
    ghost predicate FoundInv(found: map<Key, MergedTask>, top: Key, pending: set<Key>) {
      && top in found
      && pending <= found.Keys
      && (forall k :: k in found ==> Reaches(Upper(), top, k) && Records(k, found[k], top))
      && (forall k :: k in found ==> k in pending || Spent(found, k))
    }

    lemma FoundStart(top: Key)
      requires top in defs
      ensures FoundInv(map[top := MergedTask(None, defs[top].upper, defs[top].target)], top, {top})
    {
      ReachesSelf(Upper(), top);
    }

    lemma FoundOneMore(found: map<Key, MergedTask>, top: Key, pending: set<Key>, c: Key, t: MergedTask)
      requires FoundInv(found, top, pending) && c !in found
      requires Reaches(Upper(), top, c) && Records(c, t, top)
      ensures FoundInv(found[c := t], top, pending + {c})
    {
      var found' := found[c := t];
      forall k | k in found'
        ensures k in pending + {c} || Spent(found', k)
      {
        if k != c && k !in pending {
          assert Spent(found, k);
        }
      }
    }

    lemma FoundCallee(found: map<Key, MergedTask>, top: Key, key: Key, c: Key)
      requires key in found && Reaches(Upper(), top, key) && Records(key, found[key], top)
      requires found[key].upper && c in Callees(edges, key)
      ensures c in Succ(Upper(), key) && Reaches(Upper(), top, c)
      ensures c in defs ==> c == top || Records(c, NewTask(key, c), top)
      ensures c !in defs || defs[c].internal ==> !Resolves(top)
    {
      ReachesSucc(Upper(), top, key, c);
    }

    lemma FoundAll(found: map<Key, MergedTask>, top: Key, key: Key, pending: set<Key>)
      requires FoundInv(found, top, {key} + pending)
      requires found[key].upper ==> forall c :: c in Callees(edges, key) ==> c in found && c in defs && !defs[c].internal
      ensures FoundInv(found, top, pending)
    {
      assert Spent(found, key);
    }

    function NewTask(invoker: Key, c: Key): MergedTask
      requires c in defs
    {
      MergedTask(if defs[c].isSpec then Some(invoker) else None, defs[c].upper, defs[c].target)
    }

    /** Breadth-first over the merged invoke edges. */
    method Discover(top: Key) returns (ok: bool)
      requires tasks == map[] && top in defs
      modifies `tasks
      ensures ok <==> Resolves(top)
      ensures ok ==> forall k :: k in tasks <==> Reaches(Upper(), top, k)
      ensures ok ==> forall k :: k in tasks ==> Records(k, tasks[k], top)
      ensures ok ==> Discovered()
    {
      tasks := map[top := MergedTask(None, defs[top].upper, defs[top].target)];
      var work := [top];
      FoundStart(top);
      while work != []
        invariant FoundInv(tasks, top, Elems(work))
        decreases |defs.Keys - tasks.Keys|, |work|
      {
        var key := work[0];
        assert Elems(work) == {key} + Elems(work[1..]);
        if tasks[key].upper {
          ok, work := DiscoverCallees(top, key, work[1..]);
          if !ok {
            return false;
          }
        } else {
          FoundAll(tasks, top, key, Elems(work[1..]));
          work := work[1..];
        }
      }
      assert Elems([]) == {};
      EmptyQueueIsComplete(top);
      return true;
    }

    lemma EmptyQueueIsComplete(top: Key)
      requires FoundInv(tasks, top, {})
      ensures Resolves(top) && Discovered()
      ensures forall k :: k in tasks <==> Reaches(Upper(), top, k)
    {
      forall k, c | k in tasks && tasks[k].upper && c in Callees(edges, k)
        ensures c in tasks
      {
        assert Spent(tasks, k) && c in Succ(Upper(), k);
      }
      forall k, c | k in tasks && c in Succ(Upper(), k)
        ensures c in tasks
      {
        assert Spent(tasks, k);
      }
      forall k | Reaches(Upper(), top, k)
        ensures k in tasks
      {
        ClosedKeeps(Upper(), tasks.Keys, top, k);
      }
      forall k, c | Reaches(Upper(), top, k) && c in Succ(Upper(), k)
        ensures c in defs && !defs[c].internal
      {
        assert Spent(tasks, k);
      }
    }

    /** Resolves one invoke of `key`, queueing a callee seen for the first time. */
    method DiscoverCallee(top: Key, key: Key, callee: Key, work: seq<Key>) returns (ok: bool, work': seq<Key>)
      requires FoundInv(tasks, top, {key} + Elems(work)) && tasks[key].upper && callee in Callees(edges, key)
      modifies `tasks
      ensures !ok ==> !Resolves(top)
      ensures ok ==> FoundInv(tasks, top, {key} + Elems(work')) && tasks[key].upper
      ensures ok ==> callee in tasks && callee in defs && !defs[callee].internal
      ensures ok ==> tasks.Keys == old(tasks.Keys) + {callee} && (tasks.Keys == old(tasks.Keys) ==> work' == work)
    {
      FoundCallee(tasks, top, key, callee);
      if callee !in defs {
        return false, work;
      }
      if defs[callee].internal {
        return false, work;
      }
      if callee in tasks {
        return true, work;
      }
      FoundOneMore(tasks, top, {key} + Elems(work), callee, NewTask(key, callee));
      assert {key} + Elems(work) + {callee} == {key} + Elems(work + [callee]);
      tasks := tasks[callee := NewTask(key, callee)];
      return true, work + [callee];
    }

    method DiscoverCallees(top: Key, key: Key, rest: seq<Key>) returns (ok: bool, work: seq<Key>)
      requires FoundInv(tasks, top, {key} + Elems(rest)) && tasks[key].upper
      modifies `tasks
      ensures !ok ==> !Resolves(top)
      ensures ok ==> FoundInv(tasks, top, Elems(work))
      ensures ok ==> if tasks.Keys == old(tasks.Keys) then work == rest
                     else |defs.Keys - tasks.Keys| < |defs.Keys - old(tasks.Keys)|
    {
      work := rest;
      var callees := Callees(edges, key);
      for i := 0 to |callees|
        invariant FoundInv(tasks, top, {key} + Elems(work)) && tasks[key].upper
        invariant old(tasks.Keys) <= tasks.Keys && (tasks.Keys == old(tasks.Keys) ==> work == rest)
        invariant forall j :: 0 <= j < i ==> callees[j] in tasks && callees[j] in defs && !defs[callees[j]].internal
      {
        ok, work := DiscoverCallee(top, key, callees[i], work);
        if !ok {
          return false, work;
        }
      }
      FoundAll(tasks, top, key, Elems(work));
      if tasks.Keys != old(tasks.Keys) {
        assert tasks.Keys <= defs.Keys;
        SubsetSize(defs.Keys - tasks.Keys, defs.Keys - old(tasks.Keys));
      }
      return true, work;
    }

    /** Rejects invocation cycles, then puts the subtree of every AI Engine upper task on the AI Engine. */
    method PropagateAie() returns (r: Verdict)
      requires Discovered()
      modifies `tasks
      ensures r == InvocationCycle <==> exists k :: k in tasks && !AcyclicFrom(Arcs(edges), k)
      ensures r == TargetConflict <==>
              r != InvocationCycle && exists k :: Dragged(Upper(), old(tasks), k) && Contradicts(defs, k)
      ensures tasks.Keys == old(tasks).Keys
      ensures forall k :: k in tasks ==> tasks[k] == old(tasks)[k].(target := tasks[k].target)
      ensures r == Accepted ==> forall k :: k in tasks ==>
                tasks[k].target == if Dragged(Upper(), old(tasks), k) then Aie else old(tasks)[k].target
    {
      var search := new CycleSearch();
      var cyclic := search.FindCycle(edges, tasks.Keys);
      if cyclic.Some? {
        return InvocationCycle;
      }
      r := Drag();
    }

    /** The propagation worklist: a first-in first-out queue with no visited set. */
    method Drag() returns (r: Verdict)
      requires Discovered()
      requires forall k :: k in tasks ==> AcyclicFrom(Arcs(edges), k)
      modifies `tasks
      ensures r != InvocationCycle
      ensures r == TargetConflict <==> exists k :: Dragged(Upper(), old(tasks), k) && Contradicts(defs, k)
      ensures tasks.Keys == old(tasks).Keys
      ensures forall k :: k in tasks ==> tasks[k] == old(tasks)[k].(target := tasks[k].target)
      ensures r == Accepted ==> forall k :: k in tasks ==>
                tasks[k].target == if Dragged(Upper(), old(tasks), k) then Aie else old(tasks)[k].target
    {
      var work := Seeds();
      while work != []
        invariant Discovered() && AllAcyclic(edges, work)
        invariant MarkInv(old(tasks), tasks, Elems(work))
        decreases QueueCount(edges, work)
      {
        var key := work[0];
        assert work == [key] + work[1..] && Elems(work) == {key} + Elems(work[1..]);
        var ok;
        UpperOnesCost(key, Callees(edges, key), work[1..]);
        ok, work := MarkCallees(old(tasks), key, work[1..]);
        if !ok {
          return TargetConflict;
        }
      }
      assert Elems([]) == {};
      MarkedIsDragged(old(tasks), tasks);
      return Accepted;
    }

    /** The AI Engine upper tasks, in any order. */
    method Seeds() returns (work: seq<Key>)
      ensures forall k :: k in work <==> Seed(tasks, k)
    {
      work := [];
      var todo := tasks.Keys;
      while todo != {}
        invariant todo <= tasks.Keys
        invariant forall k :: k in work <==> k !in todo && Seed(tasks, k)
      {
        var k :| k in todo;
        todo := todo - {k};
        if tasks[k].target == Aie && tasks[k].upper {
          work := work + [k];
        }
      }
    }

    /** `init` with some dragged tasks retargeted; an AI Engine upper task outside `work` is done with. */
    ghost predicate MarkInv(init: map<Key, MergedTask>, now: map<Key, MergedTask>, pending: set<Key>) {
      && now.Keys == init.Keys
      && (forall k :: k in now ==> now[k] == init[k].(target := now[k].target))
      && (forall k :: k in now && now[k].target != init[k].target ==> now[k].target == Aie && Dragged(Upper(), init, k))
      && (forall k :: k in pending ==> Seed(now, k))
      && (forall k :: Seed(now, k) ==> k in pending || Done(now, k))
    }

    ghost predicate Marked(now: map<Key, MergedTask>, c: Key) {
      c in now && now[c].target == Aie && !Contradicts(defs, c)
    }

    ghost function MarkedOnes(now: map<Key, MergedTask>): set<Key> {
      set c | c in now && Marked(now, c)
    }

    ghost predicate Done(now: map<Key, MergedTask>, k: Key) {
      Elems(Callees(edges, k)) <= MarkedOnes(now)
    }

    /** A callee of a marked upper task is dragged by whatever marked that task. */
    lemma MarkedCalleeIsDragged(init: map<Key, MergedTask>, now: map<Key, MergedTask>, pending: set<Key>, key: Key, c: Key)
      requires MarkInv(init, now, pending) && key in pending && c in Callees(edges, key)
      requires key in defs && defs[key].upper
      ensures Dragged(Upper(), init, c)
    {
      assert c in Succ(Upper(), key);
      if Seed(init, key) {
        ReachesSelf(Upper(), c);
        assert ReachesPlus(Upper(), key, c);
      } else {
        var u :| Seed(init, u) && ReachesPlus(Upper(), u, key);
        PlusReaches(Upper(), u, key);
        ReachesSucc(Upper(), u, key, c);
      }
    }

    lemma MarkOneMore(init: map<Key, MergedTask>, now: map<Key, MergedTask>, pending: set<Key>, c: Key)
      requires MarkInv(init, now, pending) && c in now && Dragged(Upper(), init, c)
      ensures var now' := now[c := now[c].(target := Aie)];
              MarkInv(init, now', if now[c].upper then pending + {c} else pending)
    {
      var now' := now[c := now[c].(target := Aie)];
      forall k | Seed(now', k) && k != c && k !in pending
        ensures Done(now', k)
      {
        assert Done(now, k);
        assert MarkedOnes(now) <= MarkedOnes(now');
      }
    }

    lemma MarkAll(init: map<Key, MergedTask>, now: map<Key, MergedTask>, key: Key, pending: set<Key>)
      requires MarkInv(init, now, {key} + pending) && Done(now, key)
      ensures MarkInv(init, now, pending)
    {
    }

    /** Retargets one callee of a queued task, queueing it again if it is an upper task. */
    method MarkCallee(ghost init: map<Key, MergedTask>, key: Key, callee: Key, work: seq<Key>)
      returns (ok: bool, work': seq<Key>)
      requires Discovered() && MarkInv(init, tasks, {key} + Elems(work)) && callee in Callees(edges, key)
      modifies `tasks
      ensures !ok ==> Dragged(Upper(), init, callee) && Contradicts(defs, callee)
      ensures !ok ==> tasks == old(tasks)
      ensures ok ==> MarkInv(init, tasks, {key} + Elems(work')) && Marked(tasks, callee)
      ensures ok ==> tasks == old(tasks)[callee := old(tasks)[callee].(target := Aie)]
      ensures ok ==> MarkedOnes(old(tasks)) + {callee} <= MarkedOnes(tasks)
      ensures ok ==> work' == work + if callee in defs && defs[callee].upper then [callee] else []
      ensures callee in old(tasks)
    {
      MarkedCalleeIsDragged(init, tasks, {key} + Elems(work), key, callee);
      if defs[callee].explicitTarget && defs[callee].target != Aie {
        return false, work;
      }
      MarkOneMore(init, tasks, {key} + Elems(work), callee);
      assert {key} + Elems(work) + {callee} == {key} + Elems(work + [callee]);
      tasks := tasks[callee := tasks[callee].(target := Aie)];
      return true, if tasks[callee].upper then work + [callee] else work + [];
    }

    /** The upper tasks among `cs`, in order. */
    ghost function UpperOnes(cs: seq<Key>): seq<Key> {
      if cs == [] then [] else
        var c := cs[|cs| - 1];
        UpperOnes(cs[..|cs| - 1]) + if c in defs && defs[c].upper then [c] else []
    }

    lemma UpperOnesGrow(rest: seq<Key>, cs: seq<Key>, i: nat)
      requires i < |cs|
      ensures rest + UpperOnes(cs[..i + 1]) ==
              (rest + UpperOnes(cs[..i])) + if cs[i] in defs && defs[cs[i]].upper then [cs[i]] else []
    {
      assert cs[..i + 1][..i] == cs[..i];
    }

    lemma OneMoreQueued(queue: seq<Key>, c: Key, upper: bool)
      requires AllAcyclic(edges, queue) && AcyclicFrom(Arcs(edges), c)
      ensures AllAcyclic(edges, queue + if upper then [c] else [])
      ensures QueueCount(edges, queue + if upper then [c] else []) <= QueueCount(edges, queue) + PathCount(edges, c)
    {
      if upper {
        QueueCountAppend(edges, queue, c);
      } else {
        assert queue + [] == queue;
      }
    }

    lemma UpperOnesAppend(front: seq<Key>, c: Key)
      ensures UpperOnes(front + [c]) == UpperOnes(front) + if c in defs && defs[c].upper then [c] else []
    {
      assert (front + [c])[..|front|] == front;
    }

    lemma OneCalleeCosts(key: Key, front: seq<Key>, c: Key, queue: seq<Key>, more: seq<Key>)
      requires AcyclicFrom(Arcs(edges), key) && AcyclicFrom(Arcs(edges), c) && AllAcyclic(edges, queue)
      requires c in Callees(edges, key) && forall d :: d in front ==> d in Callees(edges, key)
      requires more == queue + if c in defs && defs[c].upper then [c] else []
      ensures AllAcyclic(edges, more)
      ensures QueueCount(edges, more) + CalleeCounts(edges, key, front) <=
              QueueCount(edges, queue) + CalleeCounts(edges, key, front + [c])
    {
      OneMoreQueued(queue, c, c in defs && defs[c].upper);
      CalleeCountsAppend(key, front, c);
    }

    /** Queueing the upper ones among the callees of `key` costs less than queueing `key` did. */
    lemma {:induction false} UpperOnesCost(key: Key, cs: seq<Key>, rest: seq<Key>)
      requires AcyclicFrom(Arcs(edges), key) && AllAcyclic(edges, rest)
      requires forall c :: c in cs ==> c in Callees(edges, key)
      ensures AllAcyclic(edges, rest + UpperOnes(cs))
      ensures QueueCount(edges, rest + UpperOnes(cs)) <= QueueCount(edges, rest) + CalleeCounts(edges, key, cs)
      decreases |cs|
    {
      if cs == [] {
        assert rest + UpperOnes(cs) == rest;
      } else {
        var front, c := cs[..|cs| - 1], cs[|cs| - 1];
        assert cs == front + [c];
        UpperOnesCost(key, front, rest);
        ArcsAreCallees(edges, key, c);
        AcyclicSucc(Arcs(edges), key, c);
        UpperOnesAppend(front, c);
        OneCalleeCosts(key, front, c, rest + UpperOnes(front), rest + UpperOnes(cs));
      }
    }

    lemma {:induction false} CalleeCountsAppend(key: Key, cs: seq<Key>, c: Key)
      requires AcyclicFrom(Arcs(edges), key) && AcyclicFrom(Arcs(edges), c)
      requires c in Callees(edges, key) && forall d :: d in cs ==> d in Callees(edges, key)
      ensures CalleeCounts(edges, key, cs + [c]) == CalleeCounts(edges, key, cs) + PathCount(edges, c)
    {
      if cs != [] {
        assert (cs + [c])[1..] == cs[1..] + [c];
        CalleeCountsAppend(key, cs[1..], c);
      }
    }

    /** One pass over the callees of a queued task. */
    method MarkCallees(ghost init: map<Key, MergedTask>, key: Key, rest: seq<Key>) returns (ok: bool, work: seq<Key>)
      requires Discovered() && MarkInv(init, tasks, {key} + Elems(rest))
      modifies `tasks
      ensures Discovered() && tasks.Keys == init.Keys
      ensures forall k :: k in tasks ==> tasks[k] == init[k].(target := tasks[k].target)
      ensures !ok ==> exists k :: Dragged(Upper(), init, k) && Contradicts(defs, k)
      ensures ok ==> MarkInv(init, tasks, Elems(work)) && work == rest + UpperOnes(Callees(edges, key))
    {
      work := rest;
      var callees := Callees(edges, key);
      for i := 0 to |callees|
        invariant Discovered() && MarkInv(init, tasks, {key} + Elems(work))
        invariant work == rest + UpperOnes(callees[..i])
        invariant Elems(callees[..i]) <= MarkedOnes(tasks)
      {
        UpperOnesGrow(rest, callees, i);
        ElemsGrow(callees, i);
        ok, work := MarkCallee(init, key, callees[i], work);
        if !ok {
          return false, work;
        }
      }
      assert callees[..|callees|] == callees;
      MarkAll(init, tasks, key, Elems(work));
      return true, work;
    }

    /** When the queue is empty the marked tasks are exactly the dragged ones, none of them contradicting. */
    lemma MarkedIsDragged(init: map<Key, MergedTask>, now: map<Key, MergedTask>)
      requires MarkInv(init, now, {})
      requires forall k :: k in now ==> k in defs && now[k].upper == defs[k].upper
      ensures forall k :: Dragged(Upper(), init, k) ==> !Contradicts(defs, k)
      ensures forall k :: k in now ==> now[k].target == if Dragged(Upper(), init, k) then Aie else init[k].target
    {
      var marked := set k | k in now && now[k].target == Aie;
      forall k, c | k in marked && c in Succ(Upper(), k)
        ensures c in marked
      {
        assert Seed(now, k) && Done(now, k) && c in MarkedOnes(now);
      }
      forall k | Dragged(Upper(), init, k)
        ensures k in marked && !Contradicts(defs, k)
      {
        var u :| Seed(init, u) && ReachesPlus(Upper(), u, k);
        assert u in marked;
        var pred := PlusHasLastEdge(Upper(), u, k);
        ClosedKeeps(Upper(), marked, u, pred);
        assert Seed(now, pred) && Done(now, pred) && k in MarkedOnes(now);
      }
    }

    /** Discovery followed by propagation: what the later phase needs is what the earlier one leaves. */
    method MergeAndDiscover(top: Key) returns (r: Option<Verdict>)
      requires tasks == map[] && top in defs
      modifies `tasks
      ensures r.None? <==> !Resolves(top)
      ensures r.Some? ==> forall k :: k in tasks <==> Reaches(Upper(), top, k)
      ensures r == Some(InvocationCycle) <==> Resolves(top) && exists k :: k in tasks && !AcyclicFrom(Arcs(edges), k)
      ensures r == Some(TargetConflict) <==>
                && Resolves(top) && r != Some(InvocationCycle)
                && exists k :: UnderAie(top, k) && Contradicts(defs, k)
      ensures r == Some(Accepted) ==>
                forall k :: k in tasks ==> && k in defs && tasks[k].upper == defs[k].upper
                                           && tasks[k].target == if UnderAie(top, k) then Aie else defs[k].target
    {
      var ok := Discover(top);
      if !ok {
        return None;
      }
      ghost var found := tasks;
      var verdict := PropagateAie();
      forall k
        ensures Dragged(Upper(), found, k) <==> UnderAie(top, k)
      {
        UnderAieIsDragged(found, top, k);
      }
      return Some(verdict);
    }

    /** Some reached upper task marked for the AI Engine invokes `k`, directly or through upper tasks. */
    ghost predicate UnderAie(top: Key, k: Key) {
      exists u :: Reaches(Upper(), top, u) && u in defs && defs[u].upper && defs[u].target == Aie && ReachesPlus(Upper(), u, k)
    }

    lemma UnderAieIsDragged(found: map<Key, MergedTask>, top: Key, k: Key)
      requires forall u :: u in found <==> Reaches(Upper(), top, u)
      requires forall u :: u in found ==> Records(u, found[u], top)
      ensures Dragged(Upper(), found, k) <==> UnderAie(top, k)
    {
      if Dragged(Upper(), found, k) {
        var u :| Seed(found, u) && ReachesPlus(Upper(), u, k);
        assert Records(u, found[u], top);
      }
      if UnderAie(top, k) {
        var u :| Reaches(Upper(), top, u) && u in defs && defs[u].upper && defs[u].target == Aie && ReachesPlus(Upper(), u, k);
        assert Seed(found, u);
      }
    }
  }
}
