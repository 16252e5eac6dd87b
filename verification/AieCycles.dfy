/** Marking the kernels that a cycle of streams runs through. */
module AieCycles {
  import opened Wrappers
  import opened Graphs
  import opened AieModel
  import opened AieFlatten

  /** A node of the stream graph: a kernel, or an instance of a PL task that the top invokes. */
  datatype Node = KernelNode(kernel: nat) | PlNode(task: string, index: nat)

  // ----- the stream graph, as a relation

  predicate PortJoins(p: KernelPort, input: bool, s: nat) {
    p.Streams? && p.input == input && s in p.streams
  }

  /** `k` reads (`input`) or writes stream `s`. */
  predicate Joins(k: Kernel, input: bool, s: nat) {
    exists j :: 0 <= j < |k.ports| && PortJoins(k.ports[j], input, s)
  }

  /** The last of the first `n` kernels on the given side of stream `s`. */
  function LastKernel(kernels: seq<Kernel>, n: nat, input: bool, s: nat): Option<Node>
    requires n <= |kernels|
  {
    if n == 0 then None
    else if Joins(kernels[n - 1], input, s) then Some(KernelNode(n - 1))
    else LastKernel(kernels, n - 1, input, s)
  }

  function PlEnd(g: TaskGraph, e: Option<Endpoint>): Option<Node> {
    if e.Some? && e.value.task in g.tasks && !g.tasks[e.value.task].aie then Some(PlNode(e.value.task, e.value.index))
    else None
  }

  /** The end of stream `s` on one side: a kernel if one has it, else the PL end of the top FIFO of that name. */
  function EndOf(g: TaskGraph, top: Task, kernel: Option<Node>, input: bool, fifo: string): Option<Node> {
    if kernel.Some? then kernel
    else if fifo !in top.fifos then None
    else PlEnd(g, if input then top.fifos[fifo].consumedBy else top.fifos[fifo].producedBy)
  }

  ghost predicate StreamArc(g: TaskGraph, top: Task, kernels: seq<Kernel>, streams: seq<AieStream>, s: nat, a: Node, b: Node)
    requires s < |streams|
  {
    && EndOf(g, top, LastKernel(kernels, |kernels|, false, s), false, streams[s].fifo) == Some(a)
    && EndOf(g, top, LastKernel(kernels, |kernels|, true, s), true, streams[s].fifo) == Some(b)
  }

  ghost predicate FifoArc(g: TaskGraph, top: Task, n: string, a: Node, b: Node) {
    n in top.fifos && PlEnd(g, top.fifos[n].producedBy) == Some(a) && PlEnd(g, top.fifos[n].consumedBy) == Some(b)
  }

  /** `a` feeds `b` over an AI Engine stream, or over a FIFO of the top between two PL instances. */
  ghost predicate Feeds(g: TaskGraph, top: Task, kernels: seq<Kernel>, streams: seq<AieStream>, a: Node, b: Node) {
    || (exists s :: 0 <= s < |streams| && StreamArc(g, top, kernels, streams, s, a, b))
    || (exists n :: FifoArc(g, top, n, a, b))
  }

  ghost predicate IsStreamGraph(
    g: TaskGraph, top: Task, kernels: seq<Kernel>, streams: seq<AieStream>, edges: Graph<Node>)
  {
    forall a, b :: b in Succ(edges, a) <==> Feeds(g, top, kernels, streams, a, b)
  }

  /** A non-empty walk along stream arcs leads from kernel `i` back to it. */
  ghost predicate OnStreamCycle(g: TaskGraph, top: Task, kernels: seq<Kernel>, streams: seq<AieStream>, i: nat) {
    exists walk :: IsWalk(g, top, kernels, streams, walk) && walk[0] == walk[|walk| - 1] == KernelNode(i)
  }

  ghost predicate IsWalk(g: TaskGraph, top: Task, kernels: seq<Kernel>, streams: seq<AieStream>, walk: seq<Node>) {
    |walk| >= 2 && forall j :: 0 <= j < |walk| - 1 ==> Feeds(g, top, kernels, streams, walk[j], walk[j + 1])
  }

  lemma CycleIsWalk(g: TaskGraph, top: Task, kernels: seq<Kernel>, streams: seq<AieStream>, edges: Graph<Node>, i: nat)
    requires IsStreamGraph(g, top, kernels, streams, edges)
    ensures OnCycle(edges, KernelNode(i)) <==> OnStreamCycle(g, top, kernels, streams, i)
  {
    var n := KernelNode(i);
    if OnCycle(edges, n) {
      var c :| c in Succ(edges, n) && Reaches(edges, c, n);
      var p :| PathFromTo(edges, p, c, n);
      var walk := [n] + p;
      forall j | 0 <= j < |walk| - 1
        ensures Feeds(g, top, kernels, streams, walk[j], walk[j + 1])
      {
        assert walk[j + 1] in Succ(edges, walk[j]);
      }
    }
    if OnStreamCycle(g, top, kernels, streams, i) {
      var walk :| IsWalk(g, top, kernels, streams, walk) && walk[0] == walk[|walk| - 1] == n;
      assert PathFromTo(edges, walk[1..], walk[1], n);
    }
  }

  // ----- searching it

  method Elements(s: set<Node>) returns (q: seq<Node>)
    ensures forall n :: n in q <==> n in s
  {
    q := [];
    var todo := s;
    while todo != {}
      invariant todo <= s
      invariant forall n :: n in q <==> n in s - todo
    {
      var n :| n in todo;
      todo := todo - {n};
      q := q + [n];
    }
  }

  /** `seen` together with `stack` holds all that leaves `start` and `seen`. */
  ghost predicate Frontier(edges: Graph<Node>, start: Node, seen: set<Node>, stack: set<Node>) {
    && start !in seen
    && Succ(edges, start) <= seen + stack
    && forall n :: n in seen ==> Succ(edges, n) <= seen + stack
  }

  lemma EmptyFrontier(edges: Graph<Node>, start: Node, seen: set<Node>)
    requires Frontier(edges, start, seen, {})
    ensures !OnCycle(edges, start)
  {
    if OnCycle(edges, start) {
      var c :| c in Succ(edges, start) && Reaches(edges, c, start);
      ClosedKeeps(edges, seen, c, start);
    }
  }

  lemma ExpandFrontier(edges: Graph<Node>, start: Node, seen: set<Node>, stack: set<Node>, node: Node)
    requires Frontier(edges, start, seen, stack + {node}) && node != start
    ensures Frontier(edges, start, seen + {node}, stack + Succ(edges, node))
  {
  }

  lemma DescendantsClosed(edges: Graph<Node>, start: Node, node: Node)
    requires node == start || node in Descendants(edges, start)
    ensures Succ(edges, node) <= Descendants(edges, start)
  {
    if node == start {
      ReachesSelf(edges, start);
    } else {
      PlusReaches(edges, start, node);
    }
    forall n | n in Succ(edges, node)
      ensures n in Descendants(edges, start)
    {
      ReachesSucc(edges, start, node, n);
    }
  }

  ghost function AsSet(stack: seq<Node>): set<Node> {
    set n | n in stack
  }

  /** Everything met so far descends from `start`, and the frontier is kept. */
  ghost predicate Searching(edges: Graph<Node>, start: Node, seen: set<Node>, stack: seq<Node>) {
    && Frontier(edges, start, seen, AsSet(stack))
    && seen <= Descendants(edges, start) && AsSet(stack) <= Descendants(edges, start)
  }

  lemma SearchStarts(edges: Graph<Node>, start: Node, stack: seq<Node>)
    requires AsSet(stack) == Succ(edges, start)
    ensures Searching(edges, start, {}, stack)
  {
    DescendantsClosed(edges, start, start);
  }

  lemma LastOfStack(stack: seq<Node>)
    requires stack != []
    ensures AsSet(stack) == AsSet(stack[..|stack| - 1]) + {stack[|stack| - 1]}
  {
    assert stack == stack[..|stack| - 1] + [stack[|stack| - 1]];
  }

  lemma SkipSeen(edges: Graph<Node>, start: Node, seen: set<Node>, stack: seq<Node>)
    requires Searching(edges, start, seen, stack) && stack != [] && stack[|stack| - 1] in seen
    ensures Searching(edges, start, seen, stack[..|stack| - 1])
  {
    LastOfStack(stack);
  }

  lemma VisitNew(edges: Graph<Node>, start: Node, seen: set<Node>, stack: seq<Node>, more: seq<Node>)
    requires Searching(edges, start, seen, stack) && stack != [] && stack[|stack| - 1] != start
    requires AsSet(more) == Succ(edges, stack[|stack| - 1])
    ensures stack[|stack| - 1] in Descendants(edges, start)
    ensures Searching(edges, start, seen + {stack[|stack| - 1]}, stack[..|stack| - 1] + more)
  {
    var node, rest := stack[|stack| - 1], stack[..|stack| - 1];
    LastOfStack(stack);
    DescendantsClosed(edges, start, node);
    ExpandFrontier(edges, start, seen, AsSet(rest), node);
    assert AsSet(rest + more) == AsSet(rest) + Succ(edges, node);
  }

  lemma MetAgain(edges: Graph<Node>, start: Node, seen: set<Node>, stack: seq<Node>)
    requires Searching(edges, start, seen, stack) && stack != [] && stack[|stack| - 1] == start
    ensures OnCycle(edges, start)
  {
    LastOfStack(stack);
  }

  /** Depth-first from the successors of `start`: is `start` met again? */
  method ReachesItself(edges: Graph<Node>, start: Node) returns (r: bool)
    ensures r <==> OnCycle(edges, start)
  {
    var seen: set<Node> := {};
    var stack := Elements(Succ(edges, start));
    SearchStarts(edges, start, stack);
    while stack != []
      invariant Searching(edges, start, seen, stack)
      decreases Descendants(edges, start) - seen, |stack|
    {
      var node := stack[|stack| - 1];
      if node == start {
        MetAgain(edges, start, seen, stack);
        return true;
      }
      if node in seen {
        SkipSeen(edges, start, seen, stack);
        stack := stack[..|stack| - 1];
      } else {
        var more := Elements(Succ(edges, node));
        VisitNew(edges, start, seen, stack, more);
        seen := seen + {node};
        stack := stack[..|stack| - 1] + more;
      }
    }
    assert AsSet(stack) == {};
    EmptyFrontier(edges, start, seen);
    return false;
  }

  // ----- building it

  function AddEdge(edges: Graph<Node>, a: Option<Node>, b: Option<Node>): (r: Graph<Node>)
    ensures forall x, y :: y in Succ(r, x) <==> y in Succ(edges, x) || (a == Some(x) && b == Some(y))
  {
    if a.Some? && b.Some? then edges[a.value := Succ(edges, a.value) + {b.value}] else edges
  }

  ghost predicate IndicesInRange(kernels: seq<Kernel>, n: nat) {
    forall i :: 0 <= i < |kernels| ==> PortsInRange(kernels[i], n)
  }

  ghost predicate PortsInRange(k: Kernel, n: nat) {
    forall j :: 0 <= j < |k.ports| && k.ports[j].Streams? ==> forall s :: s in k.ports[j].streams ==> s < n
  }

  /** Overwrites the ends of the streams that port `p` of kernel `node` has. */
  method MarkPort(p: KernelPort, node: Node, ends: seq<(Option<Node>, Option<Node>)>)
    returns (r: seq<(Option<Node>, Option<Node>)>)
    requires p.Streams? ==> forall s :: s in p.streams ==> s < |ends|
    ensures |r| == |ends|
    ensures forall s :: 0 <= s < |ends| ==> r[s].0 == if PortJoins(p, false, s) then Some(node) else ends[s].0
    ensures forall s :: 0 <= s < |ends| ==> r[s].1 == if PortJoins(p, true, s) then Some(node) else ends[s].1
  {
    r := ends;
    if p.Streams? {
      for c := 0 to |p.streams|
        invariant |r| == |ends|
        invariant forall s :: 0 <= s < |ends| ==>
                    r[s] == if s !in p.streams[..c] then ends[s]
                            else if p.input then (ends[s].0, Some(node)) else (Some(node), ends[s].1)
      {
        var s := p.streams[c];
        assert s in p.streams;
        assert p.streams[..c + 1] == p.streams[..c] + [s];
        r := r[s := if p.input then (r[s].0, Some(node)) else (Some(node), r[s].1)];
      }
      assert p.streams[..|p.streams|] == p.streams;
    }
  }

  method MarkKernel(k: Kernel, node: Node, ends: seq<(Option<Node>, Option<Node>)>)
    returns (r: seq<(Option<Node>, Option<Node>)>)
    requires PortsInRange(k, |ends|)
    ensures |r| == |ends|
    ensures forall s :: 0 <= s < |ends| ==> r[s].0 == if Joins(k, false, s) then Some(node) else ends[s].0
    ensures forall s :: 0 <= s < |ends| ==> r[s].1 == if Joins(k, true, s) then Some(node) else ends[s].1
  {
    r := ends;
    for j := 0 to |k.ports|
      invariant |r| == |ends|
      invariant forall s :: 0 <= s < |ends| ==>
                  r[s].0 == if exists i :: 0 <= i < j && PortJoins(k.ports[i], false, s) then Some(node) else ends[s].0
      invariant forall s :: 0 <= s < |ends| ==>
                  r[s].1 == if exists i :: 0 <= i < j && PortJoins(k.ports[i], true, s) then Some(node) else ends[s].1
    {
      r := MarkPort(k.ports[j], node, r);
    }
  }

  /** The kernel ends of every stream, producer then consumer. */
  method KernelEnds(kernels: seq<Kernel>, n: nat) returns (ends: seq<(Option<Node>, Option<Node>)>)
    requires IndicesInRange(kernels, n)
    ensures |ends| == n
    ensures forall s :: 0 <= s < n ==> ends[s].0 == LastKernel(kernels, |kernels|, false, s)
    ensures forall s :: 0 <= s < n ==> ends[s].1 == LastKernel(kernels, |kernels|, true, s)
  {
    ends := seq(n, _ => (None, None));
    for i := 0 to |kernels|
      invariant |ends| == n
      invariant forall s :: 0 <= s < n ==> ends[s].0 == LastKernel(kernels, i, false, s)
      invariant forall s :: 0 <= s < n ==> ends[s].1 == LastKernel(kernels, i, true, s)
    {
      ends := MarkKernel(kernels[i], KernelNode(i), ends);
    }
  }

  method StreamGraph(g: TaskGraph, top: Task, kernels: seq<Kernel>, streams: seq<AieStream>) returns (edges: Graph<Node>)
    requires IndicesInRange(kernels, |streams|)
    ensures IsStreamGraph(g, top, kernels, streams, edges)
  {
    var ends := KernelEnds(kernels, |streams|);
    edges := map[];
    for s := 0 to |streams|
      invariant forall a, b :: b in Succ(edges, a) <==>
                  exists t :: 0 <= t < s && StreamArc(g, top, kernels, streams, t, a, b)
    {
      var from := EndOf(g, top, ends[s].0, false, streams[s].fifo);
      var to := EndOf(g, top, ends[s].1, true, streams[s].fifo);
      assert forall a, b :: StreamArc(g, top, kernels, streams, s, a, b) <==> from == Some(a) && to == Some(b);
      edges := AddEdge(edges, from, to);
    }
    var todo := top.fifos.Keys;
    while todo != {}
      invariant todo <= top.fifos.Keys
      invariant forall a, b :: b in Succ(edges, a) <==>
                  || (exists s :: 0 <= s < |streams| && StreamArc(g, top, kernels, streams, s, a, b))
                  || (exists n :: n !in todo && FifoArc(g, top, n, a, b))
    {
      var n :| n in todo;
      todo := todo - {n};
      edges := AddEdge(edges, PlEnd(g, top.fifos[n].producedBy), PlEnd(g, top.fifos[n].consumedBy));
    }
  }

  /** A kernel comes out ordered exactly when a non-empty path of the stream graph leads from it back to it. */
  method MarkCycles(g: TaskGraph, top: Task, kernels: seq<Kernel>, streams: seq<AieStream>) returns (r: seq<Kernel>)
    requires IndicesInRange(kernels, |streams|)
    ensures SameButMarks(kernels, r)
    ensures forall i :: 0 <= i < |r| ==> (r[i].ordered <==> OnStreamCycle(g, top, kernels, streams, i))
  {
    var edges := StreamGraph(g, top, kernels, streams);
    r := kernels;
    for i := 0 to |kernels|
      invariant SameButMarks(kernels, r)
      invariant forall j :: 0 <= j < i ==> (r[j].ordered <==> OnStreamCycle(g, top, kernels, streams, j))
    {
      var cyclic := ReachesItself(edges, KernelNode(i));
      CycleIsWalk(g, top, kernels, streams, edges, i);
      r := r[i := r[i].(ordered := cyclic)];
    }
  }

  // ----- the marks are no part of the graph they are computed from

  ghost predicate SameButMarks(kernels: seq<Kernel>, marked: seq<Kernel>) {
    && |marked| == |kernels|
    && forall i :: 0 <= i < |marked| ==> marked[i] == kernels[i].(ordered := marked[i].ordered)
  }

  lemma {:induction false} LastKernelIgnoresMarks(kernels: seq<Kernel>, marked: seq<Kernel>, n: nat, input: bool, s: nat)
    requires SameButMarks(kernels, marked) && n <= |kernels|
    ensures LastKernel(kernels, n, input, s) == LastKernel(marked, n, input, s)
  {
    if n > 0 {
      LastKernelIgnoresMarks(kernels, marked, n - 1, input, s);
      assert Joins(kernels[n - 1], input, s) == Joins(marked[n - 1], input, s);
    }
  }

  lemma FeedsIgnoresMarks(g: TaskGraph, top: Task, kernels: seq<Kernel>, marked: seq<Kernel>, streams: seq<AieStream>, a: Node, b: Node)
    requires SameButMarks(kernels, marked) && Feeds(g, top, kernels, streams, a, b)
    ensures Feeds(g, top, marked, streams, a, b)
  {
    if s :| 0 <= s < |streams| && StreamArc(g, top, kernels, streams, s, a, b) {
      LastKernelIgnoresMarks(kernels, marked, |kernels|, false, s);
      LastKernelIgnoresMarks(kernels, marked, |kernels|, true, s);
      assert StreamArc(g, top, marked, streams, s, a, b);
    }
  }

  lemma CycleIgnoresMarks(g: TaskGraph, top: Task, kernels: seq<Kernel>, marked: seq<Kernel>, streams: seq<AieStream>, i: nat)
    requires SameButMarks(kernels, marked) && OnStreamCycle(g, top, kernels, streams, i)
    ensures OnStreamCycle(g, top, marked, streams, i)
  {
    var walk :| IsWalk(g, top, kernels, streams, walk) && walk[0] == walk[|walk| - 1] == KernelNode(i);
    forall j | 0 <= j < |walk| - 1
      ensures Feeds(g, top, marked, streams, walk[j], walk[j + 1])
    {
      FeedsIgnoresMarks(g, top, kernels, marked, streams, walk[j], walk[j + 1]);
    }
    assert IsWalk(g, top, marked, streams, walk);
  }

  lemma CyclesIgnoreMarks(g: TaskGraph, top: Task, kernels: seq<Kernel>, marked: seq<Kernel>, streams: seq<AieStream>)
    requires SameButMarks(kernels, marked)
    ensures forall i: nat :: OnStreamCycle(g, top, kernels, streams, i) <==> OnStreamCycle(g, top, marked, streams, i)
  {
    forall i: nat
      ensures OnStreamCycle(g, top, kernels, streams, i) <==> OnStreamCycle(g, top, marked, streams, i)
    {
      if OnStreamCycle(g, top, kernels, streams, i) {
        CycleIgnoresMarks(g, top, kernels, marked, streams, i);
      }
      if OnStreamCycle(g, top, marked, streams, i) {
        CycleIgnoresMarks(g, top, marked, kernels, streams, i);
      }
    }
  }
}
