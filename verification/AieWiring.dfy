/** The stream graph as it is wired, and when the cycle marks agree with it. */
module AieWiring {
  import opened Wrappers
  import opened AieModel
  import opened AieFlatten
  import opened AieCycles
  import opened AieDerive

  // ----- wiring, from the task graph alone

  /** Channel `c` of port `p` of the leaf at `path` leads to FIFO `n` of the instance at `scope`. */
  ghost predicate PortTouches(g: TaskGraph, path: Path, p: Port, input: bool, scope: Path, n: string, c: nat)
    requires InstancePath(g, path) && path != []
  {
    && p.cat.IsStream() && p.cat.IsInput() == input
    && c < |Channels(p)| && Resolve(g, path, Channels(p)[c]) == FifoAt(scope, n)
  }

  /** The leaf at `path` reads (`input`) or writes that FIFO. */
  ghost predicate Touches(g: TaskGraph, path: Path, input: bool, scope: Path, n: string) {
    && IsLeaf(g, path)
    && var ports := g.tasks[TaskAt(g, path)].ports;
    exists j: nat, c: nat :: j < |ports| && PortTouches(g, path, ports[j], input, scope, n, c)
  }

  /** The PL instance recorded on one side of the top's FIFO `n`. */
  function TopPlEnd(g: TaskGraph, n: string, input: bool): Option<Node> {
    if g.top !in g.tasks || n !in g.tasks[g.top].fifos then None
    else PlEnd(g, if input then g.tasks[g.top].fifos[n].consumedBy else g.tasks[g.top].fifos[n].producedBy)
  }

  /** `x` is on the given side of FIFO `n` of the instance at `scope`. */
  ghost predicate IsEnd(g: TaskGraph, kernels: seq<Kernel>, scope: Path, n: string, input: bool, x: Node) {
    match x
    case KernelNode(i) => i < |kernels| && Touches(g, kernels[i].path, input, scope, n)
    case PlNode(_, _) => scope == [] && TopPlEnd(g, n, input) == Some(x)
  }

  ghost predicate Via(g: TaskGraph, kernels: seq<Kernel>, scope: Path, n: string, a: Node, b: Node) {
    IsEnd(g, kernels, scope, n, false, a) && IsEnd(g, kernels, scope, n, true, b)
  }

  /** Some FIFO leads from `a` to `b`. */
  ghost predicate Wire(g: TaskGraph, kernels: seq<Kernel>, a: Node, b: Node) {
    exists scope, n :: Via(g, kernels, scope, n, a, b)
  }

  ghost predicate IsWireWalk(g: TaskGraph, kernels: seq<Kernel>, walk: seq<Node>) {
    |walk| >= 2 && forall j :: 0 <= j < |walk| - 1 ==> Wire(g, kernels, walk[j], walk[j + 1])
  }

  /** A non-empty walk along FIFOs leads from kernel `i` back to it. */
  ghost predicate OnWireCycle(g: TaskGraph, kernels: seq<Kernel>, i: nat) {
    exists walk :: IsWireWalk(g, kernels, walk) && walk[0] == walk[|walk| - 1] == KernelNode(i)
  }

  // ----- one stream

  lemma JoinsIffTouches(g: TaskGraph, kernels: seq<Kernel>, streams: seq<AieStream>, i: nat, input: bool, s: nat)
    requires PartitionOk(g, kernels, streams) && i < |kernels| && s < |streams|
    ensures Joins(kernels[i], input, s) <==> Touches(g, kernels[i].path, input, streams[s].scope, streams[s].fifo)
  {
    assert KernelOk(g, streams, kernels[i]);
    if Joins(kernels[i], input, s) {
      JoinsTouches(g, kernels[i], streams, input, s);
    }
    if Touches(g, kernels[i].path, input, streams[s].scope, streams[s].fifo) {
      var t := TouchesJoins(g, kernels[i], streams, input, streams[s].scope, streams[s].fifo);
      assert t == s;
    }
  }

  lemma JoinsTouches(g: TaskGraph, k: Kernel, streams: seq<AieStream>, input: bool, s: nat)
    requires KernelOk(g, streams, k) && Joins(k, input, s) && s < |streams|
    ensures Touches(g, k.path, input, streams[s].scope, streams[s].fifo)
  {
    var ports := g.tasks[k.task].ports;
    var j :| 0 <= j < |k.ports| && PortJoins(k.ports[j], input, s);
    assert PortWired(g, streams, k.path, ports[j], k.ports[j]);
    var c :| 0 <= c < |k.ports[j].streams| && k.ports[j].streams[c] == s;
    assert PortTouches(g, k.path, ports[j], input, streams[s].scope, streams[s].fifo, c);
  }

  /** A FIFO that a kernel touches is a stream that the kernel joins. */
  lemma TouchesJoins(g: TaskGraph, k: Kernel, streams: seq<AieStream>, input: bool, scope: Path, n: string) returns (s: nat)
    requires KernelOk(g, streams, k) && Touches(g, k.path, input, scope, n)
    ensures Joins(k, input, s) && s < |streams| && streams[s].scope == scope && streams[s].fifo == n
  {
    var ports := g.tasks[k.task].ports;
    var j: nat, c: nat :| j < |ports| && PortTouches(g, k.path, ports[j], input, scope, n, c);
    assert PortWired(g, streams, k.path, ports[j], k.ports[j]);
    s := k.ports[j].streams[c];
    assert Denotes(streams, StreamAt(s), FifoAt(scope, n));
    assert PortJoins(k.ports[j], input, s);
  }

  lemma {:induction false} LastKernelJoins(kernels: seq<Kernel>, n: nat, input: bool, s: nat)
    requires n <= |kernels|
    ensures match LastKernel(kernels, n, input, s)
            case None => forall i :: 0 <= i < n ==> !Joins(kernels[i], input, s)
            case Some(x) => x.KernelNode? && x.kernel < n && Joins(kernels[x.kernel], input, s)
  {
    if n > 0 {
      LastKernelJoins(kernels, n - 1, input, s);
    }
  }

  ghost predicate HasEnd(g: TaskGraph, kernels: seq<Kernel>, st: AieStream, input: bool) {
    exists x :: IsEnd(g, kernels, st.scope, st.fifo, input, x)
  }

  ghost predicate OneEnd(g: TaskGraph, kernels: seq<Kernel>, st: AieStream, input: bool) {
    forall x, y :: IsEnd(g, kernels, st.scope, st.fifo, input, x) && IsEnd(g, kernels, st.scope, st.fifo, input, y) ==> x == y
  }

  /** What the code takes for the end of a stream on one side. */
  ghost function CodeEnd(g: TaskGraph, kernels: seq<Kernel>, streams: seq<AieStream>, s: nat, input: bool): Option<Node>
    requires g.top in g.tasks && s < |streams|
  {
    EndOf(g, g.tasks[g.top], LastKernel(kernels, |kernels|, input, s), input, streams[s].fifo)
  }

  /** It is a real end wherever there is one. Where there is none, it is the PL end of the top FIFO of that name, which
      for a nested net is a FIFO that has nothing to do with it. */
  lemma CodeEndIs(g: TaskGraph, kernels: seq<Kernel>, streams: seq<AieStream>, s: nat, input: bool)
    requires g.top in g.tasks && PartitionOk(g, kernels, streams) && s < |streams|
    ensures var st, end := streams[s], CodeEnd(g, kernels, streams, s, input);
            if HasEnd(g, kernels, st, input) then end.Some? && IsEnd(g, kernels, st.scope, st.fifo, input, end.value)
            else end == TopPlEnd(g, st.fifo, input) && (st.scope == [] ==> end.None?)
  {
    var st, last := streams[s], LastKernel(kernels, |kernels|, input, s);
    LastKernelJoins(kernels, |kernels|, input, s);
    forall i | 0 <= i < |kernels|
      ensures Joins(kernels[i], input, s) <==> IsEnd(g, kernels, st.scope, st.fifo, input, KernelNode(i))
    {
      JoinsIffTouches(g, kernels, streams, i, input, s);
    }
    if last.None? && st.scope == [] && TopPlEnd(g, st.fifo, input).Some? {
      assert IsEnd(g, kernels, [], st.fifo, input, TopPlEnd(g, st.fifo, input).value);
    }
  }

  /** With ends on both sides there is one on each; without, the code finds none on some side either. */
  ghost predicate IsPlain(g: TaskGraph, kernels: seq<Kernel>, st: AieStream) {
    if HasEnd(g, kernels, st, false) && HasEnd(g, kernels, st, true) then
      OneEnd(g, kernels, st, false) && OneEnd(g, kernels, st, true)
    else
      || st.scope == []
      || (exists input :: !HasEnd(g, kernels, st, input) && TopPlEnd(g, st.fifo, input).None?)
  }

  /** The arcs the code takes a stream for are those of its FIFO exactly when the stream is plain. */
  lemma ArcsAreWiredIffPlain(g: TaskGraph, kernels: seq<Kernel>, streams: seq<AieStream>, s: nat)
    requires g.top in g.tasks && PartitionOk(g, kernels, streams) && s < |streams|
    ensures (forall a, b :: StreamArc(g, g.tasks[g.top], kernels, streams, s, a, b) <==>
                            Via(g, kernels, streams[s].scope, streams[s].fifo, a, b))
            <==> IsPlain(g, kernels, streams[s])
  {
    var st := streams[s];
    CodeEndIs(g, kernels, streams, s, false);
    CodeEndIs(g, kernels, streams, s, true);
    var from, to := CodeEnd(g, kernels, streams, s, false), CodeEnd(g, kernels, streams, s, true);
    assert forall a, b :: StreamArc(g, g.tasks[g.top], kernels, streams, s, a, b) <==> from == Some(a) && to == Some(b);
    if HasEnd(g, kernels, st, false) && HasEnd(g, kernels, st, true) {
      BothSidesHaveEnds(g, kernels, st, from.value, to.value);
    } else {
      OneSideHasNone(g, kernels, st, from, to);
    }
  }

  lemma OneSideHasNone(g: TaskGraph, kernels: seq<Kernel>, st: AieStream, from: Option<Node>, to: Option<Node>)
    requires !HasEnd(g, kernels, st, false) || !HasEnd(g, kernels, st, true)
    requires if HasEnd(g, kernels, st, false) then from.Some? else
               from == TopPlEnd(g, st.fifo, false) && (st.scope == [] ==> from.None?)
    requires if HasEnd(g, kernels, st, true) then to.Some? else
               to == TopPlEnd(g, st.fifo, true) && (st.scope == [] ==> to.None?)
    ensures (forall a, b :: from == Some(a) && to == Some(b) <==> Via(g, kernels, st.scope, st.fifo, a, b)) <==>
            IsPlain(g, kernels, st)
  {
    forall a, b
      ensures !Via(g, kernels, st.scope, st.fifo, a, b)
    {
    }
    if from.Some? && to.Some? {
      assert from == Some(from.value) && to == Some(to.value);
    }
  }

  lemma BothSidesHaveEnds(g: TaskGraph, kernels: seq<Kernel>, st: AieStream, from: Node, to: Node)
    requires Via(g, kernels, st.scope, st.fifo, from, to)
    ensures (forall a, b :: a == from && b == to <==> Via(g, kernels, st.scope, st.fifo, a, b)) <==>
            OneEnd(g, kernels, st, false) && OneEnd(g, kernels, st, true)
  {
    if forall a, b :: a == from && b == to <==> Via(g, kernels, st.scope, st.fifo, a, b) {
      forall x | IsEnd(g, kernels, st.scope, st.fifo, false, x)
        ensures x == from
      {
        assert Via(g, kernels, st.scope, st.fifo, x, to);
      }
      forall x | IsEnd(g, kernels, st.scope, st.fifo, true, x)
        ensures x == to
      {
        assert Via(g, kernels, st.scope, st.fifo, from, x);
      }
    }
  }

  // ----- the whole graph

  ghost predicate AllPlain(g: TaskGraph, kernels: seq<Kernel>, streams: seq<AieStream>) {
    forall s :: 0 <= s < |streams| ==> IsPlain(g, kernels, streams[s])
  }

  lemma FedIsWired(g: TaskGraph, kernels: seq<Kernel>, streams: seq<AieStream>, a: Node, b: Node)
    requires g.top in g.tasks && PartitionOk(g, kernels, streams) && AllPlain(g, kernels, streams)
    requires Feeds(g, g.tasks[g.top], kernels, streams, a, b)
    ensures Wire(g, kernels, a, b)
  {
    var top := g.tasks[g.top];
    if s :| 0 <= s < |streams| && StreamArc(g, top, kernels, streams, s, a, b) {
      ArcsAreWiredIffPlain(g, kernels, streams, s);
    } else {
      var n :| FifoArc(g, top, n, a, b);
      assert Via(g, kernels, [], n, a, b);
    }
  }

  lemma WiredIsFed(g: TaskGraph, kernels: seq<Kernel>, streams: seq<AieStream>, a: Node, b: Node)
    requires g.top in g.tasks && PartitionOk(g, kernels, streams) && AllPlain(g, kernels, streams)
    requires Wire(g, kernels, a, b)
    ensures Feeds(g, g.tasks[g.top], kernels, streams, a, b)
  {
    var scope, n :| Via(g, kernels, scope, n, a, b);
    if a.KernelNode? {
      var s := TouchesJoins(g, kernels[a.kernel], streams, false, scope, n);
      ArcsAreWiredIffPlain(g, kernels, streams, s);
    } else if b.KernelNode? {
      var s := TouchesJoins(g, kernels[b.kernel], streams, true, scope, n);
      ArcsAreWiredIffPlain(g, kernels, streams, s);
    } else {
      assert FifoArc(g, g.tasks[g.top], n, a, b);
    }
  }

  lemma FeedsIffWire(g: TaskGraph, kernels: seq<Kernel>, streams: seq<AieStream>, a: Node, b: Node)
    requires g.top in g.tasks && PartitionOk(g, kernels, streams) && AllPlain(g, kernels, streams)
    ensures Feeds(g, g.tasks[g.top], kernels, streams, a, b) <==> Wire(g, kernels, a, b)
  {
    if Feeds(g, g.tasks[g.top], kernels, streams, a, b) {
      FedIsWired(g, kernels, streams, a, b);
    }
    if Wire(g, kernels, a, b) {
      WiredIsFed(g, kernels, streams, a, b);
    }
  }

  /** Where every stream is plain, a kernel of the partition is ordered if and only if a cycle of FIFOs runs through it. */
  lemma OrderedIffOnWireCycle(g: TaskGraph, kernels: seq<Kernel>, streams: seq<AieStream>, i: nat)
    requires IsPartition(g, kernels, streams) && AllPlain(g, kernels, streams) && i < |kernels|
    ensures kernels[i].ordered <==> OnWireCycle(g, kernels, i)
  {
    var top := g.tasks[g.top];
    forall a, b
      ensures Feeds(g, top, kernels, streams, a, b) <==> Wire(g, kernels, a, b)
    {
      FeedsIffWire(g, kernels, streams, a, b);
    }
    if OnStreamCycle(g, top, kernels, streams, i) {
      var walk :| IsWalk(g, top, kernels, streams, walk) && walk[0] == walk[|walk| - 1] == KernelNode(i);
      assert IsWireWalk(g, kernels, walk);
    }
    if OnWireCycle(g, kernels, i) {
      var walk :| IsWireWalk(g, kernels, walk) && walk[0] == walk[|walk| - 1] == KernelNode(i);
      assert IsWalk(g, top, kernels, streams, walk);
    }
  }
}
