/** Deriving the AI Engine partition of a task graph. */
module AieDerive {
  import opened Graphs
  import opened ByteOrder
  import opened AieModel
  import opened AieFlatten
  import AieCycles

  datatype Derivation = Rejected | NoAie | Derived(kernels: seq<Kernel>, streams: seq<AieStream>)

  ghost predicate HasAie(g: TaskGraph) {
    exists t :: t in g.tasks && g.tasks[t].aie
  }

  /** PL tasks other than the top invoke no AI Engine task. */
  ghost predicate AieOnlyUnderTop(g: TaskGraph) {
    forall t :: t in g.tasks ==> PlTaskOk(g, t)
  }

  ghost predicate PlTaskOk(g: TaskGraph, t: string)
    requires t in g.tasks
  {
    t == g.top || g.tasks[t].aie || forall c :: c in g.tasks[t].children && c in g.tasks ==> !g.tasks[c].aie
  }

  /** Exactly the graphs that have a partition: the top and its children exist, no other PL task invokes the AI
      Engine, every instance below the top is acceptable, and the first port to use a FIFO of the top can carry it. */
  ghost predicate Derivable(g: TaskGraph) {
    && g.top in g.tasks
    && AieOnlyUnderTop(g)
    && g.tasks[g.top].children.Keys <= g.tasks.Keys
    && SubtreeOk(g, []) && FirstUsesCarry(g)
  }

  /** What a derived partition is: one kernel per AI Engine leaf instance, every port joined to what its name
      resolves to, streams that stand for distinct FIFOs, and cycle marks. */
  ghost predicate IsPartition(g: TaskGraph, kernels: seq<Kernel>, streams: seq<AieStream>) {
    && Derivable(g)
    && PartitionOk(g, kernels, streams)
    && Covered(g, kernels, [])
    && TopSourced(g, streams)
    && (forall h :: Descends(g, [], h) ==> UsesListed(g, streams, h))
    && (forall i :: 0 <= i < |kernels| ==>
          (kernels[i].ordered <==> AieCycles.OnStreamCycle(g, g.tasks[g.top], kernels, streams, i)))
  }

  method AnyAie(g: TaskGraph) returns (r: bool)
    ensures r <==> HasAie(g)
  {
    var todo := g.tasks.Keys;
    while todo != {}
      invariant todo <= g.tasks.Keys
      invariant forall t :: t in g.tasks && t !in todo ==> !g.tasks[t].aie
    {
      var t :| t in todo;
      todo := todo - {t};
      if g.tasks[t].aie {
        return true;
      }
    }
    return false;
  }

  method CheckPlTask(g: TaskGraph, t: string) returns (ok: bool)
    requires t in g.tasks
    ensures ok <==> PlTaskOk(g, t)
  {
    if t == g.top || g.tasks[t].aie {
      return true;
    }
    var todo := g.tasks[t].children.Keys;
    while todo != {}
      invariant todo <= g.tasks[t].children.Keys
      invariant forall c :: c in g.tasks[t].children && c !in todo && c in g.tasks ==> !g.tasks[c].aie
    {
      var c :| c in todo;
      todo := todo - {c};
      if c in g.tasks && g.tasks[c].aie {
        return false;
      }
    }
    return true;
  }

  method CheckPlTasks(g: TaskGraph) returns (ok: bool)
    ensures ok <==> AieOnlyUnderTop(g)
  {
    var todo := g.tasks.Keys;
    while todo != {}
      invariant todo <= g.tasks.Keys
      invariant forall t :: t in g.tasks && t !in todo ==> PlTaskOk(g, t)
    {
      var t :| t in todo;
      todo := todo - {t};
      var fine := CheckPlTask(g, t);
      if !fine {
        return false;
      }
    }
    return true;
  }

  /** The state of the top-level walk: the instances `done` are flattened and their uses listed. */
  ghost predicate TopInv(g: TaskGraph, kernels: seq<Kernel>, streams: seq<AieStream>, topStreams: map<string, nat>, done: set<Hop>) {
    && ChildrenInv(g, kernels, streams, [], done)
    && ListsUsed(g, topStreams, done)
    && forall h :: h in done ==> Carried(g, h)
  }

  lemma UsesAreListed(g: TaskGraph, streams: seq<AieStream>, topStreams: map<string, nat>, done: set<Hop>)
    requires g.top in g.tasks && TopIndexed(g.tasks[g.top], streams, topStreams) && ListsUsed(g, topStreams, done)
    requires forall h :: Descends(g, [], h) ==> h in done
    ensures TopSourced(g, streams) && forall h :: Descends(g, [], h) ==> UsesListed(g, streams, h)
  {
    forall h, port, n | TopUse(g, h, port, n)
      ensures HasStream(streams, [], n)
    {
      assert UsedBy(g, done, n);
      assert streams[topStreams[n]].fifo == n;
    }
    forall i | 0 <= i < |streams| && streams[i].scope == []
      ensures exists h, port :: TopUse(g, h, port, streams[i].fifo)
    {
      assert UsedBy(g, done, streams[i].fifo);
    }
  }

  method VisitTop(b: Builder, h: Hop, ghost done: set<Hop>) returns (ok: bool)
    requires b.Inv() && TopInv(b.g, b.kernels, b.streams, b.topStreams, done)
    requires Descends(b.g, [], h) && Reached(b.g, done, h)
    requires AcyclicFrom(Hierarchy(b.g), h.task)
    modifies b
    ensures !ok ==> !(SubtreeOk(b.g, []) && FirstUsesCarry(b.g))
    ensures ok ==> b.Inv() && TopInv(b.g, b.kernels, b.streams, b.topStreams, done + {h})
  {
    var g := b.g;
    ChildPath(g, [], h);
    assert [] + [h] == [h];
    NotYetDone(g, done, h);
    if InstanceAt(g, [h]).step > 0 {
      ChildFails(g, [], h);
      return false;
    }
    var scope := b.TopScope(h, done);
    if scope.None? {
      if !CallOk(g, [h]) {
        ChildFails(g, [], h);
      }
      return false;
    }
    ghost var mid := b.streams;
    ghost var kernels := b.kernels;
    TopStreamsKeepChildren(g, b.kernels, old(b.streams), b.streams, done);
    ok := b.Visit([h], scope.value);
    if !ok {
      ChildFails(g, [], h);
      return false;
    }
    ChildrenStep(g, kernels, mid, b.kernels, b.streams, [], done, h);
  }

  lemma NotYetDone(g: TaskGraph, done: set<Hop>, h: Hop)
    requires Descends(g, [], h) && Reached(g, done, h)
    ensures h !in done
  {
    NotBeforeItself(h.task);
  }

  /** The instances done are those of the tasks not in `todo`. */
  ghost predicate DoneTo(g: TaskGraph, done: set<Hop>, todo: set<string>) {
    forall d :: Descends(g, [], d) ==> (d in done <==> d.task !in todo)
  }

  /** The same, and the first `i` of `child`. */
  ghost predicate DoneInto(g: TaskGraph, done: set<Hop>, todo: set<string>, child: string, i: nat) {
    forall d :: Descends(g, [], d) ==> (d in done <==> d.task !in todo || (d.task == child && d.index < i))
  }

  lemma DoneStarts(g: TaskGraph, done: set<Hop>, todo: set<string>, child: string)
    requires DoneTo(g, done, todo)
    ensures DoneInto(g, done, todo, child, 0)
  {
  }

  lemma DoneStep(g: TaskGraph, done: set<Hop>, todo: set<string>, child: string, i: nat)
    requires DoneInto(g, done, todo, child, i)
    ensures DoneInto(g, done + {Hop(child, i)}, todo, child, i + 1)
  {
  }

  lemma DoneEnds(g: TaskGraph, done: set<Hop>, todo: set<string>, child: string, n: nat)
    requires child in todo && DoneInto(g, done, todo, child, n)
    requires forall d :: Descends(g, [], d) && d.task == child ==> d.index < n
    ensures DoneTo(g, done, todo - {child})
  {
  }

  /** Going through the tasks in order and through the instances of each in order, the turn of each comes. */
  lemma HopInTurn(g: TaskGraph, all: set<string>, todo: set<string>, done: set<Hop>, h: Hop)
    requires forall d :: Descends(g, [], d) ==> d.task in all
    requires PortReached(all, all - todo, h.task) && DoneInto(g, done, todo, h.task, h.index)
    ensures Reached(g, done, h)
  {
  }

  lemma ChildAcyclic(g: TaskGraph, c: string)
    requires g.top in g.tasks && AcyclicFrom(Hierarchy(g), g.top) && c in g.tasks[g.top].children
    ensures AcyclicFrom(Hierarchy(g), c)
  {
    AcyclicSucc(Hierarchy(g), g.top, c);
  }

  /** Flattens every AI Engine instance of the top. */
  method FlattenTop(b: Builder) returns (ok: bool)
    requires b.Inv() && b.kernels == [] && b.streams == []
    requires AcyclicFrom(Hierarchy(b.g), b.g.top)
    modifies b
    ensures ok <==>
            && b.g.tasks[b.g.top].children.Keys <= b.g.tasks.Keys
            && SubtreeOk(b.g, []) && FirstUsesCarry(b.g)
    ensures ok ==> b.Inv() && Covered(b.g, b.kernels, []) && TopSourced(b.g, b.streams)
    ensures ok ==> forall h :: Descends(b.g, [], h) ==> UsesListed(b.g, b.streams, h)
  {
    var g := b.g;
    var top := g.tasks[g.top];
    ghost var done: set<Hop> := {};
    var todo := top.children.Keys;
    while todo != {}
      invariant b.Inv() && TopInv(g, b.kernels, b.streams, b.topStreams, done)
      invariant todo <= top.children.Keys && top.children.Keys - todo <= g.tasks.Keys
      invariant AllBefore(top.children.Keys - todo, todo) && DoneTo(g, done, todo)
    {
      var child := FindLeast(todo);
      if child !in g.tasks {
        return false;
      }
      InTurn(top.children.Keys, todo, child);
      DoneStarts(g, done, todo, child);
      if g.tasks[child].aie {
        ChildAcyclic(g, child);
        ok, done := FlattenAll(b, child, todo, done);
        if !ok {
          return false;
        }
        DoneEnds(g, done, todo, child, |top.children[child]|);
      } else {
        DoneEnds(g, done, todo, child, 0);
      }
      todo := todo - {child};
    }
    ChildrenDone(g, b.kernels, b.streams, [], done);
    UsesAreListed(g, b.streams, b.topStreams, done);
    return true;
  }

  /** Flattens every instance of one task of the top, the turn of the task having come. */
  method FlattenAll(b: Builder, child: string, ghost todo: set<string>, ghost done0: set<Hop>) returns (ok: bool, ghost done: set<Hop>)
    requires b.Inv() && TopInv(b.g, b.kernels, b.streams, b.topStreams, done0)
    requires child in b.g.tasks && b.g.tasks[child].aie && child in b.g.tasks[b.g.top].children
    requires PortReached(b.g.tasks[b.g.top].children.Keys, b.g.tasks[b.g.top].children.Keys - todo, child)
    requires DoneInto(b.g, done0, todo, child, 0) && AcyclicFrom(Hierarchy(b.g), child)
    modifies b
    ensures !ok ==> !(SubtreeOk(b.g, []) && FirstUsesCarry(b.g))
    ensures ok ==> b.Inv() && TopInv(b.g, b.kernels, b.streams, b.topStreams, done)
    ensures ok ==> DoneInto(b.g, done, todo, child, |b.g.tasks[b.g.top].children[child]|)
  {
    var g := b.g;
    var top := g.tasks[g.top];
    done := done0;
    for i := 0 to |top.children[child]|
      invariant b.Inv() && TopInv(g, b.kernels, b.streams, b.topStreams, done) && DoneInto(g, done, todo, child, i)
    {
      HopInTurn(g, top.children.Keys, todo, done, Hop(child, i));
      var fine := VisitTop(b, Hop(child, i), done);
      if !fine {
        return false, done;
      }
      DoneStep(g, done, todo, child, i);
      done := done + {Hop(child, i)};
    }
    return true, done;
  }

  lemma WiredIndicesInRange(g: TaskGraph, kernels: seq<Kernel>, streams: seq<AieStream>)
    requires PartitionOk(g, kernels, streams)
    ensures AieCycles.IndicesInRange(kernels, |streams|)
  {
    forall i, j | 0 <= i < |kernels| && 0 <= j < |kernels[i].ports| && kernels[i].ports[j].Streams?
      ensures forall s :: s in kernels[i].ports[j].streams ==> s < |streams|
    {
      var k := kernels[i];
      assert KernelOk(g, streams, k);
      assert PortWired(g, streams, k.path, g.tasks[k.task].ports[j], k.ports[j]);
    }
  }

  lemma MarksKeepPartition(g: TaskGraph, kernels: seq<Kernel>, marked: seq<Kernel>, streams: seq<AieStream>)
    requires PartitionOk(g, kernels, streams) && Covered(g, kernels, []) && AieCycles.SameButMarks(kernels, marked)
    ensures PartitionOk(g, marked, streams) && Covered(g, marked, [])
  {
    forall i | 0 <= i < |marked|
      ensures KernelOk(g, streams, marked[i])
    {
      assert KernelOk(g, streams, kernels[i]);
    }
    forall p | IsLeaf(g, p)
      ensures HasKernel(marked, p)
    {
      assert Under([], p);
      var i :| 0 <= i < |kernels| && kernels[i].path == p;
      assert marked[i].path == p;
    }
  }

  method Derive(g: TaskGraph) returns (r: Derivation)
    requires g.top in g.tasks ==> AcyclicFrom(Hierarchy(g), g.top)
    ensures r.NoAie? <==> !HasAie(g)
    ensures r.Rejected? <==> HasAie(g) && !Derivable(g)
    ensures r.Derived? ==> IsPartition(g, r.kernels, r.streams)
  {
    var aie := AnyAie(g);
    if !aie {
      return NoAie;
    }
    if g.top !in g.tasks {
      return Rejected;
    }
    var pl := CheckPlTasks(g);
    if !pl {
      return Rejected;
    }
    var b := new Builder(g);
    var ok := FlattenTop(b);
    if !ok {
      return Rejected;
    }
    WiredIndicesInRange(g, b.kernels, b.streams);
    var kernels := AieCycles.MarkCycles(g, g.tasks[g.top], b.kernels, b.streams);
    MarksKeepPartition(g, b.kernels, kernels, b.streams);
    AieCycles.CyclesIgnoreMarks(g, g.tasks[g.top], b.kernels, kernels, b.streams);
    return Derived(kernels, b.streams);
  }

  // ----- what the numbering preserves

  /** The instance path, the port and the channel that one stream reference of a kernel belongs to. */
  datatype Pin = Pin(kernel: nat, port: nat, channel: nat)

  predicate IsPin(kernels: seq<Kernel>, p: Pin) {
    && p.kernel < |kernels| && p.port < |kernels[p.kernel].ports|
    && kernels[p.kernel].ports[p.port].Streams?
    && p.channel < |kernels[p.kernel].ports[p.port].streams|
  }

  function StreamOf(kernels: seq<Kernel>, p: Pin): nat
    requires IsPin(kernels, p)
  {
    kernels[p.kernel].ports[p.port].streams[p.channel]
  }

  /** The FIFO that the pin's name leads to through all enclosing scopes. */
  ghost function FifoOf(g: TaskGraph, kernels: seq<Kernel>, streams: seq<AieStream>, p: Pin): Target
    requires PartitionOk(g, kernels, streams) && IsPin(kernels, p)
  {
    var k := kernels[p.kernel];
    assert KernelOk(g, streams, k);
    assert PortWired(g, streams, k.path, g.tasks[k.task].ports[p.port], k.ports[p.port]);
    Resolve(g, k.path, Channels(g.tasks[k.task].ports[p.port])[p.channel])
  }

  /** Flattening preserves connectivity: two stream references get the same number exactly when their names lead
      to the same FIFO of the same instance. */
  lemma SameStreamIffSameFifo(g: TaskGraph, kernels: seq<Kernel>, streams: seq<AieStream>, p: Pin, q: Pin)
    requires IsPartition(g, kernels, streams) && IsPin(kernels, p) && IsPin(kernels, q)
    ensures FifoOf(g, kernels, streams, p).FifoAt?
    ensures StreamOf(kernels, p) == StreamOf(kernels, q) <==>
            FifoOf(g, kernels, streams, p) == FifoOf(g, kernels, streams, q)
  {
    PinDenotes(g, kernels, streams, p);
    PinDenotes(g, kernels, streams, q);
  }

  lemma PinDenotes(g: TaskGraph, kernels: seq<Kernel>, streams: seq<AieStream>, p: Pin)
    requires PartitionOk(g, kernels, streams) && IsPin(kernels, p)
    ensures Denotes(streams, StreamAt(StreamOf(kernels, p)), FifoOf(g, kernels, streams, p))
  {
    var k := kernels[p.kernel];
    assert KernelOk(g, streams, k);
    assert PortWired(g, streams, k.path, g.tasks[k.task].ports[p.port], k.ports[p.port]);
  }

  /** Each AI Engine leaf instance has exactly one kernel, and every kernel is one. */
  lemma OneKernelPerLeaf(g: TaskGraph, kernels: seq<Kernel>, streams: seq<AieStream>, path: Path)
    requires IsPartition(g, kernels, streams)
    ensures IsLeaf(g, path) <==> exists i :: 0 <= i < |kernels| && kernels[i].path == path
    ensures forall i, j :: 0 <= i < |kernels| && 0 <= j < |kernels| && kernels[i].path == kernels[j].path == path ==> i == j
  {
    if IsLeaf(g, path) {
      assert Under([], path) && HasKernel(kernels, path);
    }
    if i :| 0 <= i < |kernels| && kernels[i].path == path {
      assert KernelOk(g, streams, kernels[i]);
    }
  }
}
