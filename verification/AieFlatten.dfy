/** Flattening the AI Engine half of a task graph into kernels joined by numbered streams. */
module AieFlatten {
  import opened Wrappers
  import opened Graphs
  import opened AieModel
  import opened ByteOrder

  datatype StreamKind = Plio(input: bool) | Net

  /** A stream of the partition: the FIFO `fifo` of the instance at `scope` (`[]` is the top task). */
  datatype AieStream = AieStream(scope: Path, fifo: string, kind: StreamKind)

  /** Stream indices, one per channel, or a scalar's value. */
  datatype KernelPort = Streams(input: bool, plural: bool, streams: seq<nat>) | ScalarPort(value: ScalarBinding)

  datatype Kernel = Kernel(path: Path, task: string, ports: seq<KernelPort>, ordered: bool)

  /** What a name in a task's scope is bound to, as the builder carries it. */
  datatype Binding = StreamAt(index: nat) | ScalarOf(value: ScalarBinding)

  predicate EndpointIsAie(g: TaskGraph, e: Option<Endpoint>) {
    e.Some? && e.value.task in g.tasks && g.tasks[e.value.task].aie
  }

  /** A FIFO of the top between two AI Engine tasks is a net, any other is a PLIO; all inner FIFOs are nets. */
  function KindOf(g: TaskGraph, scope: Path, fifo: string): StreamKind {
    if scope == [] && g.top in g.tasks && fifo in g.tasks[g.top].fifos then
      var f := g.tasks[g.top].fifos[fifo];
      var producerAie := EndpointIsAie(g, f.producedBy);
      if producerAie && EndpointIsAie(g, f.consumedBy) then Net else Plio(!producerAie)
    else Net
  }

  // ----- what the builder's numbering means

  /** The number `b` carries is that of the FIFO, or the value that of the scalar, which `t` names. */
  ghost predicate Denotes(streams: seq<AieStream>, b: Binding, t: Target) {
    match b
    case StreamAt(i) => i < |streams| && t == FifoAt(streams[i].scope, streams[i].fifo)
    case ScalarOf(v) => t == ScalarAt(v)
  }

  ghost predicate ScopeOk(g: TaskGraph, streams: seq<AieStream>, path: Path, scope: map<string, Binding>) {
    && InstancePath(g, path) && path != []
    && scope.Keys == InstanceAt(g, path).args.Keys
    && forall port :: port in scope ==> Denotes(streams, scope[port], Resolve(g, path, port))
  }

  ghost predicate PortWired(g: TaskGraph, streams: seq<AieStream>, path: Path, p: Port, k: KernelPort)
    requires InstancePath(g, path) && path != []
  {
    if p.cat.IsStream() then
      && k.Streams? && k.input == p.cat.IsInput() && k.plural == p.cat.IsPlural()
      && |k.streams| == |Channels(p)|
      && forall c :: 0 <= c < |k.streams| ==> Denotes(streams, StreamAt(k.streams[c]), Resolve(g, path, Channels(p)[c]))
    else
      p.cat.Scalar? && k.ScalarPort? && Denotes(streams, ScalarOf(k.value), Resolve(g, path, p.name))
  }

  /** A kernel stands for one leaf instance, each of its ports joined to what the port's name resolves to. */
  ghost predicate KernelOk(g: TaskGraph, streams: seq<AieStream>, k: Kernel) {
    && IsLeaf(g, k.path) && k.task == TaskAt(g, k.path)
    && var ports := g.tasks[k.task].ports;
    && |k.ports| == |ports|
    && forall i :: 0 <= i < |ports| ==> PortWired(g, streams, k.path, ports[i], k.ports[i])
  }

  ghost predicate DistinctStreams(streams: seq<AieStream>) {
    forall i, j :: 0 <= i < j < |streams| ==> streams[i].scope != streams[j].scope || streams[i].fifo != streams[j].fifo
  }

  ghost predicate DistinctKernels(kernels: seq<Kernel>) {
    forall i, j :: 0 <= i < j < |kernels| ==> kernels[i].path != kernels[j].path
  }

  ghost predicate PartitionOk(g: TaskGraph, kernels: seq<Kernel>, streams: seq<AieStream>) {
    && DistinctStreams(streams) && DistinctKernels(kernels)
    && (forall i :: 0 <= i < |streams| ==> streams[i].kind == KindOf(g, streams[i].scope, streams[i].fifo))
    && (forall i :: 0 <= i < |kernels| ==> KernelOk(g, streams, kernels[i]))
  }

  /** `path` lies at or below `at`. */
  predicate Under(at: Path, path: Path) {
    at <= path
  }

  ghost predicate UntouchedStreams(streams: seq<AieStream>, at: Path) {
    forall i :: 0 <= i < |streams| ==> !Under(at, streams[i].scope)
  }

  ghost predicate UntouchedKernels(kernels: seq<Kernel>, at: Path) {
    forall i :: 0 <= i < |kernels| ==> !Under(at, kernels[i].path)
  }

  /** Only streams of the top were added. */
  ghost predicate TopGrew(was: seq<AieStream>, now: seq<AieStream>) {
    was <= now && forall i :: |was| <= i < |now| ==> now[i].scope == []
  }

  ghost predicate StreamsGrew(was: seq<AieStream>, now: seq<AieStream>, at: Path) {
    was <= now && forall i :: |was| <= i < |now| ==> Under(at, now[i].scope)
  }

  ghost predicate KernelsGrew(was: seq<Kernel>, now: seq<Kernel>, at: Path) {
    was <= now && forall i :: |was| <= i < |now| ==> Under(at, now[i].path)
  }

  ghost predicate HasKernel(kernels: seq<Kernel>, path: Path) {
    exists i :: 0 <= i < |kernels| && kernels[i].path == path
  }

  /** Every leaf at or below `at` has a kernel. */
  ghost predicate Covered(g: TaskGraph, kernels: seq<Kernel>, at: Path) {
    forall p :: IsLeaf(g, p) && Under(at, p) ==> HasKernel(kernels, p)
  }

  // ----- numbering is stable: what held of a shorter list of streams holds of a longer one

  lemma ScopeOkGrows(g: TaskGraph, was: seq<AieStream>, now: seq<AieStream>, path: Path, scope: map<string, Binding>)
    requires was <= now && ScopeOk(g, was, path, scope)
    ensures ScopeOk(g, now, path, scope)
  {
  }

  lemma KernelOkGrows(g: TaskGraph, was: seq<AieStream>, now: seq<AieStream>, k: Kernel)
    requires was <= now && KernelOk(g, was, k)
    ensures KernelOk(g, now, k)
  {
    var ports := g.tasks[k.task].ports;
    forall i | 0 <= i < |ports|
      ensures PortWired(g, now, k.path, ports[i], k.ports[i])
    {
      assert PortWired(g, was, k.path, ports[i], k.ports[i]);
    }
  }

  lemma CoveredGrows(g: TaskGraph, was: seq<Kernel>, now: seq<Kernel>, at: Path)
    requires was <= now && Covered(g, was, at)
    ensures Covered(g, now, at)
  {
    forall p | IsLeaf(g, p) && Under(at, p)
      ensures HasKernel(now, p)
    {
      var i :| 0 <= i < |was| && was[i].path == p;
      assert now[i].path == p;
    }
  }

  lemma PushStreamKeeps(g: TaskGraph, kernels: seq<Kernel>, streams: seq<AieStream>, s: AieStream)
    requires PartitionOk(g, kernels, streams) && s.kind == KindOf(g, s.scope, s.fifo)
    requires forall i :: 0 <= i < |streams| ==> streams[i].scope != s.scope || streams[i].fifo != s.fifo
    ensures PartitionOk(g, kernels, streams + [s])
  {
    forall i | 0 <= i < |kernels|
      ensures KernelOk(g, streams + [s], kernels[i])
    {
      KernelOkGrows(g, streams, streams + [s], kernels[i]);
    }
  }

  // ----- leaves

  method ChannelStreams(g: TaskGraph, ghost streams: seq<AieStream>, ghost path: Path, scope: map<string, Binding>, names: seq<string>)
    returns (r: Option<seq<nat>>)
    requires ScopeOk(g, streams, path, scope)
    ensures r.Some? <==> forall c :: 0 <= c < |names| ==> Resolve(g, path, names[c]).FifoAt?
    ensures r.Some? ==> |r.value| == |names|
    ensures r.Some? ==>
              forall c :: 0 <= c < |names| ==> Denotes(streams, StreamAt(r.value[c]), Resolve(g, path, names[c]))
  {
    var indices := [];
    for c := 0 to |names|
      invariant |indices| == c
      invariant forall d :: 0 <= d < c ==> Denotes(streams, StreamAt(indices[d]), Resolve(g, path, names[d]))
    {
      if names[c] !in scope || !scope[names[c]].StreamAt? {
        assert !Resolve(g, path, names[c]).FifoAt?;
        return None;
      }
      indices := indices + [scope[names[c]].index];
    }
    return Some(indices);
  }

  method KernelPortOf(g: TaskGraph, ghost streams: seq<AieStream>, ghost path: Path, scope: map<string, Binding>, p: Port)
    returns (r: Option<KernelPort>)
    requires ScopeOk(g, streams, path, scope)
    ensures r.Some? <==> PortOk(g, path, p)
    ensures r.Some? ==> PortWired(g, streams, path, p, r.value)
  {
    if p.cat.IsStream() {
      var s := ChannelStreams(g, streams, path, scope, Channels(p));
      if s.None? {
        return None;
      }
      return Some(Streams(p.cat.IsInput(), p.cat.IsPlural(), s.value));
    }
    if !p.cat.Scalar? || p.name !in scope || !scope[p.name].ScalarOf? {
      return None;
    }
    return Some(ScalarPort(scope[p.name].value));
  }

  /** The kernel of the leaf instance at `path` whose ports are bound by `scope`. */
  method KernelOf(g: TaskGraph, ghost streams: seq<AieStream>, path: Path, scope: map<string, Binding>) returns (r: Option<Kernel>)
    requires ScopeOk(g, streams, path, scope) && IsLeaf(g, path)
    ensures r.Some? <==> TaskOk(g, path)
    ensures r.Some? ==> KernelOk(g, streams, r.value) && r.value.path == path
  {
    var def := g.tasks[TaskAt(g, path)];
    var ports := [];
    for i := 0 to |def.ports|
      invariant |ports| == i
      invariant forall j :: 0 <= j < i ==> PortOk(g, path, def.ports[j]) && PortWired(g, streams, path, def.ports[j], ports[j])
    {
      var k := KernelPortOf(g, streams, path, scope, def.ports[i]);
      if k.None? {
        return None;
      }
      ports := ports + [k.value];
    }
    return Some(Kernel(path, TaskAt(g, path), ports, false));
  }

  // ----- one level of the hierarchy

  lemma SiblingsApart(path: Path, h: Hop, h': Hop, p: Path)
    requires Under(path + [h], p) && Under(path + [h'], p)
    ensures h == h'
  {
    assert p[|path|] == (path + [h])[|path|] == (path + [h'])[|path|];
  }

  lemma ChildPath(g: TaskGraph, path: Path, h: Hop)
    requires InstancePath(g, path) && Descends(g, path, h)
    ensures InstancePath(g, path + [h]) && TaskAt(g, path + [h]) == h.task
    ensures (path + [h])[..|path|] == path
  {
    assert (path + [h])[..|path|] == path;
  }

  /** A child instance fully dealt with. */
  ghost predicate Settled(g: TaskGraph, kernels: seq<Kernel>, p: Path) {
    p != [] && InstancePath(g, p) && CallOk(g, p) && SubtreeOk(g, p) && Covered(g, kernels, p)
  }

  /** The children `done` are settled, the others not yet begun. */
  ghost predicate ChildrenInv(g: TaskGraph, kernels: seq<Kernel>, streams: seq<AieStream>, path: Path, done: set<Hop>) {
    && (forall h :: h in done ==> Descends(g, path, h) && Settled(g, kernels, path + [h]))
    && (forall h :: h !in done && Descends(g, path, h) ==>
          UntouchedStreams(streams, path + [h]) && UntouchedKernels(kernels, path + [h]))
  }

  lemma ChildrenStart(g: TaskGraph, kernels: seq<Kernel>, was: seq<AieStream>, now: seq<AieStream>, path: Path)
    requires UntouchedStreams(was, path) && UntouchedKernels(kernels, path) && was <= now
    requires forall i :: |was| <= i < |now| ==> now[i].scope == path
    ensures ChildrenInv(g, kernels, now, path, {})
  {
    forall h | Descends(g, path, h)
      ensures UntouchedStreams(now, path + [h]) && UntouchedKernels(kernels, path + [h])
    {
      forall i | 0 <= i < |now|
        ensures !Under(path + [h], now[i].scope)
      {
        if i < |was| {
          assert !Under(path, was[i].scope);
        }
      }
      forall i | 0 <= i < |kernels|
        ensures !Under(path + [h], kernels[i].path)
      {
        assert !Under(path, kernels[i].path);
      }
    }
  }

  lemma ChildrenStep(g: TaskGraph, kernels: seq<Kernel>, streams: seq<AieStream>, kernels': seq<Kernel>, streams': seq<AieStream>,
                     path: Path, done: set<Hop>, h: Hop)
    requires ChildrenInv(g, kernels, streams, path, done)
    requires StreamsGrew(streams, streams', path + [h]) && KernelsGrew(kernels, kernels', path + [h])
    requires Descends(g, path, h) && Settled(g, kernels', path + [h])
    ensures ChildrenInv(g, kernels', streams', path, done + {h})
  {
    forall d | d in done
      ensures Settled(g, kernels', path + [d])
    {
      CoveredGrows(g, kernels, kernels', path + [d]);
    }
    forall d | d !in done + {h} && Descends(g, path, d)
      ensures UntouchedStreams(streams', path + [d]) && UntouchedKernels(kernels', path + [d])
    {
      forall i | 0 <= i < |streams'|
        ensures !Under(path + [d], streams'[i].scope)
      {
        if i >= |streams| && Under(path + [d], streams'[i].scope) {
          SiblingsApart(path, h, d, streams'[i].scope);
        }
      }
      forall i | 0 <= i < |kernels'|
        ensures !Under(path + [d], kernels'[i].path)
      {
        if i >= |kernels| && Under(path + [d], kernels'[i].path) {
          SiblingsApart(path, h, d, kernels'[i].path);
        }
      }
    }
  }

  /** Everything strictly below `path` lies below one of its children. */
  lemma BelowIsUnderChild(g: TaskGraph, path: Path, p: Path) returns (h: Hop)
    requires InstancePath(g, p) && Under(path, p) && p != path
    ensures Descends(g, path, h) && Under(path + [h], p)
  {
    h := p[|path|];
    PrefixIsPath(g, p, |path| + 1);
    assert p[..|path| + 1] == path + [h];
    assert p[..|path| + 1][..|path|] == path;
  }

  lemma ChildrenDone(g: TaskGraph, kernels: seq<Kernel>, streams: seq<AieStream>, path: Path, done: set<Hop>)
    requires ChildrenInv(g, kernels, streams, path, done)
    requires forall h :: Descends(g, path, h) ==> h in done
    requires path != [] ==> InstancePath(g, path) && TaskOk(g, path) && g.tasks[TaskAt(g, path)].upper
    ensures SubtreeOk(g, path) && Covered(g, kernels, path)
  {
    forall p | InstancePath(g, p) && path <= p && p != []
      ensures TaskOk(g, p) && (p != path ==> CallOk(g, p))
    {
      if p != path {
        var h := BelowIsUnderChild(g, path, p);
        assert Settled(g, kernels, path + [h]);
      }
    }
    forall p | IsLeaf(g, p) && Under(path, p)
      ensures HasKernel(kernels, p)
    {
      if p != path {
        var h := BelowIsUnderChild(g, path, p);
        assert Settled(g, kernels, path + [h]);
      }
    }
  }

  lemma ChildFails(g: TaskGraph, path: Path, h: Hop)
    requires InstancePath(g, path) && Descends(g, path, h) && InstancePath(g, path + [h])
    requires !CallOk(g, path + [h]) || !SubtreeOk(g, path + [h])
    ensures !SubtreeOk(g, path)
  {
    var c := path + [h];
    if CallOk(g, c) {
      var p :| InstancePath(g, p) && c <= p && p != [] && !(TaskOk(g, p) && (p != c ==> CallOk(g, p)));
      assert path <= p && p != path;
    } else {
      assert path <= c && c != path;
    }
  }

  // ----- the builder

  ghost predicate TopIndexed(top: Task, streams: seq<AieStream>, topStreams: map<string, nat>) {
    && (forall n :: n in topStreams ==> n in top.fifos && top.fifos[n].depth.Some?)
    && (forall n :: n in topStreams ==>
          topStreams[n] < |streams| && streams[topStreams[n]].scope == [] && streams[topStreams[n]].fifo == n)
    && (forall i :: 0 <= i < |streams| && streams[i].scope == [] ==> streams[i].fifo in topStreams)
  }

  /** An AI Engine instance of the top passes FIFO `n` of the top to its port `port`. */
  ghost predicate TopUse(g: TaskGraph, h: Hop, port: string, n: string) {
    && InstancePath(g, [h]) && Descends(g, [], h)
    && port in InstanceAt(g, [h]).args && Resolve(g, [h], port) == FifoAt([], n)
  }

  /** Every stream of the top is there because some AI Engine instance of the top uses it. */
  ghost predicate TopSourced(g: TaskGraph, streams: seq<AieStream>) {
    forall i :: 0 <= i < |streams| && streams[i].scope == [] ==> exists h, port :: TopUse(g, h, port, streams[i].fifo)
  }

  ghost predicate HasStream(streams: seq<AieStream>, scope: Path, n: string) {
    exists i :: 0 <= i < |streams| && streams[i].scope == scope && streams[i].fifo == n
  }

  /** Every FIFO of the top that the AI Engine instance `h` uses is a stream. */
  ghost predicate UsesListed(g: TaskGraph, streams: seq<AieStream>, h: Hop) {
    forall port, n :: TopUse(g, h, port, n) ==> HasStream(streams, [], n)
  }

  lemma TopStreamsKeepChildren(g: TaskGraph, kernels: seq<Kernel>, was: seq<AieStream>, now: seq<AieStream>, done: set<Hop>)
    requires ChildrenInv(g, kernels, was, [], done) && TopGrew(was, now)
    ensures ChildrenInv(g, kernels, now, [], done)
  {
  }

  // ----- the first use of a FIFO of the top

  const WORD_BITS: nat := 32

  /** The widest element between the PL and the AI Engine. */
  const MAX_PLIO_BITS: nat := 128

  function Words(width: nat): nat {
    (width + WORD_BITS - 1) / WORD_BITS
  }

  /** The order in which the instances of the top are gone through; their ports go by name. */
  predicate HopBefore(a: Hop, b: Hop) {
    Before(a.task, b.task) || (a.task == b.task && a.index < b.index)
  }

  ghost predicate FirstUse(g: TaskGraph, h: Hop, port: string, n: string) {
    && TopUse(g, h, port, n)
    && forall h', port' :: TopUse(g, h', port', n) ==> !HopBefore(h', h) && !(h' == h && Before(port', port))
  }

  /** Task of `h` has the port, and an element of it fits between the PL and the AI Engine if it has to. */
  predicate Carries(g: TaskGraph, h: Hop, port: string, n: string) {
    && h.task in g.tasks
    && var p := PortOf(g.tasks[h.task], port);
    p.Some? && (KindOf(g, [], n).Plio? ==> Words(p.value.width) * WORD_BITS <= MAX_PLIO_BITS)
  }

  ghost predicate Carried(g: TaskGraph, h: Hop) {
    forall port, n :: FirstUse(g, h, port, n) ==> Carries(g, h, port, n)
  }

  /** A FIFO of the top is measured once, at the port that is gone through first. */
  ghost predicate FirstUsesCarry(g: TaskGraph) {
    forall h :: Descends(g, [], h) ==> Carried(g, h)
  }

  ghost predicate UsedBy(g: TaskGraph, done: set<Hop>, n: string) {
    exists h, port :: h in done && TopUse(g, h, port, n)
  }

  ghost predicate UsedAt(g: TaskGraph, h: Hop, bound: set<string>, n: string) {
    exists port :: port in bound && TopUse(g, h, port, n)
  }

  /** The FIFOs numbered are those used by the instances `done`. */
  ghost predicate ListsUsed(g: TaskGraph, topStreams: map<string, nat>, done: set<Hop>) {
    forall n :: n in topStreams <==> UsedBy(g, done, n)
  }

  /** The same halfway through instance `h`, its ports `bound` done. */
  ghost predicate ListsBound(g: TaskGraph, topStreams: map<string, nat>, done: set<Hop>, h: Hop, bound: set<string>) {
    forall n :: n in topStreams <==> UsedBy(g, done, n) || UsedAt(g, h, bound, n)
  }

  /** The turn of instance `h` has come. */
  ghost predicate Reached(g: TaskGraph, done: set<Hop>, h: Hop) {
    forall d :: Descends(g, [], d) ==> (d in done <==> HopBefore(d, h))
  }

  /** The turn of port `port` has come. */
  ghost predicate PortReached(args: set<string>, bound: set<string>, port: string) {
    bound <= args && forall p :: p in args ==> (p in bound <==> Before(p, port))
  }

  lemma FirstIffNew(g: TaskGraph, topStreams: map<string, nat>, done: set<Hop>, h: Hop, bound: set<string>, port: string, n: string)
    requires TopUse(g, h, port, n) && ListsBound(g, topStreams, done, h, bound)
    requires Reached(g, done, h) && PortReached(InstanceAt(g, [h]).args.Keys, bound, port)
    ensures FirstUse(g, h, port, n) <==> n !in topStreams
  {
    if n in topStreams {
      if UsedBy(g, done, n) {
        var d, p :| d in done && TopUse(g, d, p, n);
        assert HopBefore(d, h);
      } else {
        var p :| p in bound && TopUse(g, h, p, n);
        assert Before(p, port);
      }
    }
  }

  lemma TopResolve(g: TaskGraph, h: Hop, port: string)
    requires Descends(g, [], h) && InstancePath(g, [h]) && port in InstanceAt(g, [h]).args
    ensures Resolve(g, [h], port) == TopTarget(g.tasks[g.top], InstanceAt(g, [h]).args[port])
    ensures forall n :: TopUse(g, h, port, n) <==> Resolve(g, [h], port) == FifoAt([], n)
  {
    assert [h][..0] == [];
  }

  lemma UsesOne(g: TaskGraph, h: Hop, port: string, n: string)
    requires TopUse(g, h, port, n)
    ensures forall m :: TopUse(g, h, port, m) <==> m == n
  {
  }

  lemma UseIsDeclared(g: TaskGraph, h: Hop, port: string, n: string)
    requires TopUse(g, h, port, n)
    ensures g.top in g.tasks && n in g.tasks[g.top].fifos && g.tasks[g.top].fifos[n].depth.Some?
  {
    assert [h][..0] == [];
  }

  ghost predicate AllBefore(done: set<string>, todo: set<string>) {
    forall p, q :: p in done && q in todo ==> Before(p, q)
  }

  /** Each of the arguments bound so far denotes what its name resolves to, and carries what it is first to use. */
  ghost predicate BoundOk(g: TaskGraph, streams: seq<AieStream>, h: Hop, scope: map<string, Binding>)
    requires InstancePath(g, [h])
  {
    && (forall port :: port in scope ==> Denotes(streams, scope[port], Resolve(g, [h], port)))
    && (forall port, n :: port in scope && FirstUse(g, h, port, n) ==> Carries(g, h, port, n))
  }

  /** The arguments of one instance of the top halfway, those of `todo` yet to come. */
  ghost predicate TopScopeSoFar(g: TaskGraph, was: seq<AieStream>, now: seq<AieStream>, topStreams: map<string, nat>,
                                done: set<Hop>, h: Hop, todo: set<string>, scope: map<string, Binding>)
    requires InstancePath(g, [h])
  {
    var keys := InstanceAt(g, [h]).args.Keys;
    && TopGrew(was, now) && todo <= keys && scope.Keys == keys - todo && AllBefore(keys - todo, todo)
    && ListsBound(g, topStreams, done, h, scope.Keys) && BoundOk(g, now, h, scope)
  }

  lemma OneMoreBound(g: TaskGraph, was: seq<AieStream>, mid: seq<AieStream>, now: seq<AieStream>, before: map<string, nat>,
                     topStreams: map<string, nat>, done: set<Hop>, h: Hop, todo: set<string>,
                     scope: map<string, Binding>, port: string, b: Binding)
    requires InstancePath(g, [h]) && TopScopeSoFar(g, was, mid, before, done, h, todo, scope) && IsLeast(todo, port)
    requires TopGrew(mid, now) && ListsBound(g, topStreams, done, h, scope.Keys + {port})
    requires Denotes(now, b, Resolve(g, [h], port)) && forall n :: FirstUse(g, h, port, n) ==> Carries(g, h, port, n)
    ensures TopScopeSoFar(g, was, now, topStreams, done, h, todo - {port}, scope[port := b])
  {
    InTurn(InstanceAt(g, [h]).args.Keys, todo, port);
    BoundStays(g, mid, now, h, scope, port, b);
    assert scope[port := b].Keys == scope.Keys + {port};
  }

  lemma BoundStays(g: TaskGraph, was: seq<AieStream>, now: seq<AieStream>, h: Hop, scope: map<string, Binding>, port: string,
                   b: Binding)
    requires InstancePath(g, [h]) && was <= now && BoundOk(g, was, h, scope)
    requires Denotes(now, b, Resolve(g, [h], port)) && forall n :: FirstUse(g, h, port, n) ==> Carries(g, h, port, n)
    ensures BoundOk(g, now, h, scope[port := b])
  {
  }

  /** The least of what is left comes right after all that is done. */
  lemma InTurn(all: set<string>, todo: set<string>, next: string)
    requires todo <= all && IsLeast(todo, next) && AllBefore(all - todo, todo)
    ensures PortReached(all, all - todo, next)
    ensures AllBefore(all - (todo - {next}), todo - {next})
  {
    LeastIsBefore(todo, next);
  }

  lemma BoundGrows(g: TaskGraph, topStreams: map<string, nat>, done: set<Hop>, h: Hop, bound: set<string>, port: string,
                   topStreams': map<string, nat>)
    requires ListsBound(g, topStreams, done, h, bound)
    requires forall n :: n in topStreams' <==> n in topStreams || TopUse(g, h, port, n)
    ensures ListsBound(g, topStreams', done, h, bound + {port})
  {
    forall n
      ensures UsedAt(g, h, bound + {port}, n) <==> UsedAt(g, h, bound, n) || TopUse(g, h, port, n)
    {
      if p :| p in bound && TopUse(g, h, p, n) {
        assert p in bound + {port};
      }
      assert port in bound + {port};
    }
  }

  lemma InstanceListed(g: TaskGraph, topStreams: map<string, nat>, done: set<Hop>, h: Hop)
    requires InstancePath(g, [h]) && ListsBound(g, topStreams, done, h, InstanceAt(g, [h]).args.Keys)
    ensures ListsUsed(g, topStreams, done + {h})
  {
    forall n
      ensures UsedBy(g, done + {h}, n) <==> UsedBy(g, done, n) || UsedAt(g, h, InstanceAt(g, [h]).args.Keys, n)
    {
      if d, p :| d in done + {h} && TopUse(g, d, p, n) {
        assert d in done || p in InstanceAt(g, [h]).args.Keys;
      }
      if d, p :| d in done && TopUse(g, d, p, n) {
        assert d in done + {h};
      }
      if p :| p in InstanceAt(g, [h]).args.Keys && TopUse(g, h, p, n) {
        assert h in done + {h};
      }
    }
  }

  lemma NothingBoundYet(g: TaskGraph, topStreams: map<string, nat>, done: set<Hop>, h: Hop)
    requires ListsUsed(g, topStreams, done)
    ensures ListsBound(g, topStreams, done, h, {})
  {
  }

  /** The nets an upper task declares, numbered. */
  ghost predicate NetsOk(g: TaskGraph, streams: seq<AieStream>, path: Path, inner: map<string, Binding>) {
    && TaskAt(g, path) in g.tasks
    && (forall n :: n in inner <==> DeclaresNet(g.tasks[TaskAt(g, path)], n))
    && (forall n :: n in inner ==> Denotes(streams, inner[n], FifoAt(path, n)))
  }

  /** FIFO `n` halfway, the FIFOs `todo` yet to come. */
  ghost predicate NetAt(g: TaskGraph, now: seq<AieStream>, path: Path, todo: set<string>, inner: map<string, Binding>,
                        n: string)
    requires TaskAt(g, path) in g.tasks
  {
    var def := g.tasks[TaskAt(g, path)];
    && (n in todo ==> !HasStream(now, path, n))
    && (n in inner <==> n !in todo && DeclaresNet(def, n))
    && (n in inner ==> NetNamed(g, def, n) && Denotes(now, inner[n], FifoAt(path, n)))
  }

  ghost predicate NetsSoFar(g: TaskGraph, was: seq<AieStream>, now: seq<AieStream>, path: Path, todo: set<string>,
                            inner: map<string, Binding>)
    requires TaskAt(g, path) in g.tasks
  {
    && was <= now && (forall i :: |was| <= i < |now| ==> now[i].scope == path)
    && forall n :: NetAt(g, now, path, todo, inner, n)
  }

  lemma OneMoreNet(g: TaskGraph, was: seq<AieStream>, now: seq<AieStream>, path: Path, todo: set<string>,
                   inner: map<string, Binding>, n: string, b: Binding)
    requires TaskAt(g, path) in g.tasks && NetsSoFar(g, was, now, path, todo, inner) && n in todo
    requires NetNamed(g, g.tasks[TaskAt(g, path)], n) && Denotes(now + [AieStream(path, n, Net)], b, FifoAt(path, n))
    ensures NetsSoFar(g, was, now + [AieStream(path, n, Net)], path, todo - {n}, inner[n := b])
  {
    var more, left, bound := now + [AieStream(path, n, Net)], todo - {n}, inner[n := b];
    forall m
      ensures NetAt(g, more, path, left, bound, m)
    {
      assert NetAt(g, now, path, todo, inner, m);
      if m != n {
        OtherNet(g, now, AieStream(path, n, Net), path, todo, inner, m, b);
      }
    }
  }

  lemma OtherNet(g: TaskGraph, now: seq<AieStream>, s: AieStream, path: Path, todo: set<string>,
                 inner: map<string, Binding>, m: string, b: Binding)
    requires TaskAt(g, path) in g.tasks && NetAt(g, now, path, todo, inner, m) && m != s.fifo
    ensures NetAt(g, now + [s], path, todo - {s.fifo}, inner[s.fifo := b], m)
  {
    assert HasStream(now + [s], path, m) ==> HasStream(now, path, m);
  }

  lemma UnusedNet(g: TaskGraph, was: seq<AieStream>, now: seq<AieStream>, path: Path, todo: set<string>,
                  inner: map<string, Binding>, n: string)
    requires TaskAt(g, path) in g.tasks && NetsSoFar(g, was, now, path, todo, inner) && n in todo
    requires !DeclaresNet(g.tasks[TaskAt(g, path)], n)
    ensures NetsSoFar(g, was, now, path, todo - {n}, inner)
  {
    var left := todo - {n};
    forall m
      ensures NetAt(g, now, path, left, inner, m)
    {
      assert NetAt(g, now, path, todo, inner, m);
    }
  }

  lemma NoNetsYet(g: TaskGraph, now: seq<AieStream>, path: Path)
    requires TaskAt(g, path) in g.tasks && UntouchedStreams(now, path)
    ensures NetsSoFar(g, now, now, path, g.tasks[TaskAt(g, path)].fifos.Keys, map[])
  {
    forall n
      ensures NetAt(g, now, path, g.tasks[TaskAt(g, path)].fifos.Keys, map[], n)
    {
      assert Under(path, path);
    }
  }

  lemma AllNetsDone(g: TaskGraph, was: seq<AieStream>, now: seq<AieStream>, path: Path, inner: map<string, Binding>)
    requires TaskAt(g, path) in g.tasks && NetsSoFar(g, was, now, path, {}, inner)
    ensures NetsNamed(g, g.tasks[TaskAt(g, path)]) && NetsOk(g, now, path, inner)
  {
    var def := g.tasks[TaskAt(g, path)];
    forall n
      ensures n in inner <==> DeclaresNet(def, n)
      ensures n in inner ==> NetNamed(g, def, n) && Denotes(now, inner[n], FifoAt(path, n))
    {
      assert NetAt(g, now, path, {}, inner, n);
    }
  }

  class Builder {
    const g: TaskGraph
    var kernels: seq<Kernel>
    var streams: seq<AieStream>
    /** Top-level FIFO name to stream index, created on first use. */
    var topStreams: map<string, nat>

    constructor (g: TaskGraph)
      requires g.top in g.tasks
      ensures this.g == g && kernels == [] && streams == [] && Inv()
    {
      this.g, kernels, streams, topStreams := g, [], [], map[];
    }

    ghost predicate Inv()
      reads this
    {
      g.top in g.tasks && PartitionOk(g, kernels, streams) && TopIndexed(g.tasks[g.top], streams, topStreams)
    }

    /** Numbers a FIFO of the top. */
    method PushTop(n: string)
      requires Inv() && n in g.tasks[g.top].fifos && g.tasks[g.top].fifos[n].depth.Some? && n !in topStreams
      modifies `streams, `topStreams
      ensures Inv() && TopGrew(old(streams), streams) && topStreams.Keys == old(topStreams).Keys + {n}
    {
      var s := AieStream([], n, KindOf(g, [], n));
      PushStreamKeeps(g, kernels, streams, s);
      streams := streams + [s];
      topStreams := topStreams[n := |streams| - 1];
    }

    /** The number of a FIFO of the top, which the first use of it settles. */
    method TopStream(h: Hop, port: string, n: string, ghost done: set<Hop>, ghost bound: set<string>) returns (r: Option<Binding>)
      requires Inv() && TopUse(g, h, port, n) && ListsBound(g, topStreams, done, h, bound)
      requires Reached(g, done, h) && PortReached(InstanceAt(g, [h]).args.Keys, bound, port)
      modifies `streams, `topStreams
      ensures Inv() && TopGrew(old(streams), streams)
      ensures r.Some? <==> (FirstUse(g, h, port, n) ==> Carries(g, h, port, n))
      ensures r.Some? ==> Denotes(streams, r.value, FifoAt([], n)) && ListsBound(g, topStreams, done, h, bound + {port})
    {
      FirstIffNew(g, topStreams, done, h, bound, port, n);
      if n !in topStreams {
        if !Carries(g, h, port, n) {
          return None;
        }
        UseIsDeclared(g, h, port, n);
        PushTop(n);
      }
      UsesOne(g, h, port, n);
      BoundGrows(g, old(topStreams), done, h, bound, port, topStreams);
      return Some(StreamAt(topStreams[n]));
    }

    /** What port `port` of the AI Engine instance `h` of the top is bound to, the arguments before it bound. */
    method TopBinding(h: Hop, port: string, ghost done: set<Hop>, ghost bound: set<string>) returns (r: Option<Binding>)
      requires Inv() && Descends(g, [], h) && InstancePath(g, [h]) && port in InstanceAt(g, [h]).args
      requires ListsBound(g, topStreams, done, h, bound)
      requires Reached(g, done, h) && PortReached(InstanceAt(g, [h]).args.Keys, bound, port)
      modifies `streams, `topStreams
      ensures Inv() && TopGrew(old(streams), streams)
      ensures r.Some? <==>
              Resolve(g, [h], port) != Unbound && forall n :: FirstUse(g, h, port, n) ==> Carries(g, h, port, n)
      ensures r.Some? ==>
                Denotes(streams, r.value, Resolve(g, [h], port)) && ListsBound(g, topStreams, done, h, bound + {port})
    {
      var arg := InstanceAt(g, [h]).args[port];
      TopResolve(g, h, port);
      match arg.source
      case Literal(v) =>
        BoundGrows(g, topStreams, done, h, bound, port, topStreams);
        return Some(ScalarOf(Constant(v)));
      case Name(n) =>
        if arg.cat.Scalar? {
          BoundGrows(g, topStreams, done, h, bound, port, topStreams);
          return Some(ScalarOf(Runtime(n)));
        }
        if !arg.cat.IsStream() || n !in g.tasks[g.top].fifos || g.tasks[g.top].fifos[n].depth.None? {
          return None;
        }
        assert TopUse(g, h, port, n);
        UsesOne(g, h, port, n);
        r := TopStream(h, port, n, done, bound);
    }

    /** Binds the arguments of one AI Engine instance of the top task, its turn having come. */
    method TopScope(h: Hop, ghost done: set<Hop>) returns (r: Option<map<string, Binding>>)
      requires Inv() && Descends(g, [], h) && ListsUsed(g, topStreams, done) && Reached(g, done, h)
      modifies `streams, `topStreams
      ensures InstancePath(g, [h])
      ensures Inv() && TopGrew(old(streams), streams)
      ensures r.Some? <==>
              && (forall port :: port in InstanceAt(g, [h]).args ==> Resolve(g, [h], port) != Unbound)
              && Carried(g, h)
      ensures r.Some? ==> ScopeOk(g, streams, [h], r.value) && ListsUsed(g, topStreams, done + {h})
    {
      ChildPath(g, [], h);
      assert [] + [h] == [h];
      NothingBoundYet(g, topStreams, done, h);
      var args := InstanceAt(g, [h]).args;
      var scope: map<string, Binding> := map[];
      var todo := args.Keys;
      while todo != {}
        invariant Inv() && TopScopeSoFar(g, old(streams), streams, topStreams, done, h, todo, scope)
      {
        var port := FindLeast(todo);
        InTurn(args.Keys, todo, port);
        ghost var mid, before := streams, topStreams;
        var b := TopBinding(h, port, done, scope.Keys);
        if b.None? {
          return None;
        }
        OneMoreBound(g, old(streams), mid, streams, before, topStreams, done, h, todo, scope, port, b.value);
        todo := todo - {port};
        scope := scope[port := b.value];
      }
      assert scope.Keys == args.Keys;
      InstanceListed(g, topStreams, done, h);
      return Some(scope);
    }

    /** Numbers one FIFO of an AI Engine upper task, measured at the port of one of its ends. */
    method PushNet(path: Path, n: string) returns (r: Option<Binding>)
      requires Inv() && path != [] && TaskAt(g, path) in g.tasks && DeclaresNet(g.tasks[TaskAt(g, path)], n)
      requires !HasStream(streams, path, n)
      modifies `streams
      ensures r.Some? <==> NetNamed(g, g.tasks[TaskAt(g, path)], n)
      ensures Inv() && streams == if r.Some? then old(streams) + [AieStream(path, n, Net)] else old(streams)
      ensures r.Some? ==> Denotes(streams, r.value, FifoAt(path, n))
    {
      var def := g.tasks[TaskAt(g, path)];
      var link := FindLink(g, def, NetEnd(def.fifos[n]), n);
      if link.None? {
        return None;
      }
      PushStreamKeeps(g, kernels, streams, AieStream(path, n, Net));
      streams := streams + [AieStream(path, n, Net)];
      return Some(StreamAt(|streams| - 1));
    }

    /** The FIFOs of an AI Engine upper task are nets. */
    method PushNets(path: Path) returns (r: Option<map<string, Binding>>)
      requires Inv() && path != [] && TaskAt(g, path) in g.tasks && UntouchedStreams(streams, path)
      modifies `streams
      ensures Inv() && old(streams) <= streams
      ensures forall i :: |old(streams)| <= i < |streams| ==> streams[i].scope == path
      ensures r.Some? <==> NetsNamed(g, g.tasks[TaskAt(g, path)])
      ensures r.Some? ==> NetsOk(g, streams, path, r.value)
    {
      var def := g.tasks[TaskAt(g, path)];
      var inner: map<string, Binding> := map[];
      var todo := def.fifos.Keys;
      NoNetsYet(g, streams, path);
      while todo != {}
        invariant Inv() && todo <= def.fifos.Keys && NetsSoFar(g, old(streams), streams, path, todo, inner)
      {
        var n :| n in todo;
        assert NetAt(g, streams, path, todo, inner, n);
        if def.fifos[n].producedBy.Some? || def.fifos[n].consumedBy.Some? {
          ghost var was := streams;
          var b := PushNet(path, n);
          if b.None? {
            return None;
          }
          OneMoreNet(g, old(streams), was, path, todo, inner, n, b.value);
          inner := inner[n := b.value];
        } else {
          UnusedNet(g, old(streams), streams, path, todo, inner, n);
        }
        todo := todo - {n};
      }
      AllNetsDone(g, old(streams), streams, path, inner);
      return Some(inner);
    }

    /** Binds the arguments of one instance inside an AI Engine upper task. */
    method ChildScope(path: Path, h: Hop, inner: map<string, Binding>, scope: map<string, Binding>)
      returns (r: Option<map<string, Binding>>)
      requires ScopeOk(g, streams, path, scope) && NetsOk(g, streams, path, inner)
      requires Descends(g, path, h) && InstancePath(g, path + [h])
      ensures r.Some? <==> forall port :: port in InstanceAt(g, path + [h]).args ==> Resolve(g, path + [h], port) != Unbound
      ensures r.Some? ==> ScopeOk(g, streams, path + [h], r.value)
    {
      ChildPath(g, path, h);
      var args := InstanceAt(g, path + [h]).args;
      var child: map<string, Binding> := map[];
      var todo := args.Keys;
      while todo != {}
        invariant todo <= args.Keys && child.Keys == args.Keys - todo
        invariant forall port :: port in child ==> Denotes(streams, child[port], Resolve(g, path + [h], port))
      {
        var port :| port in todo;
        todo := todo - {port};
        match args[port].source
        case Literal(v) => child := child[port := ScalarOf(Constant(v))];
        case Name(n) =>
          if n in inner {
            child := child[port := inner[n]];
          } else if n in scope {
            child := child[port := scope[n]];
          } else {
            return None;
          }
      }
      return Some(child);
    }

    /** Flattens the instance at `path`, whose ports are bound by `scope`. */
    method Visit(path: Path, scope: map<string, Binding>) returns (ok: bool)
      requires Inv() && ScopeOk(g, streams, path, scope)
      requires UntouchedStreams(streams, path) && UntouchedKernels(kernels, path)
      requires AcyclicFrom(Hierarchy(g), TaskAt(g, path))
      modifies `kernels, `streams
      ensures ok <==> SubtreeOk(g, path)
      ensures ok ==> Inv() && StreamsGrew(old(streams), streams, path) && KernelsGrew(old(kernels), kernels, path)
      ensures ok ==> Covered(g, kernels, path)
      decreases |Descendants(Hierarchy(g), TaskAt(g, path))|, 2
    {
      if TaskAt(g, path) !in g.tasks {
        assert !TaskOk(g, path) && path <= path;
        return false;
      }
      if !g.tasks[TaskAt(g, path)].upper {
        var k := KernelOf(g, streams, path, scope);
        if k.None? {
          assert !TaskOk(g, path) && path <= path;
          return false;
        }
        NewKernelKeeps(g, kernels, streams, k.value);
        kernels := kernels + [k.value];
        return true;
      }
      var inner := PushNets(path);
      if inner.None? {
        assert !TaskOk(g, path) && path <= path;
        return false;
      }
      ScopeOkGrows(g, old(streams), streams, path, scope);
      ChildrenStart(g, kernels, old(streams), streams, path);
      ok := VisitChildren(path, scope, inner.value);
    }

    method VisitChildren(path: Path, scope: map<string, Binding>, inner: map<string, Binding>) returns (ok: bool)
      requires Inv() && ScopeOk(g, streams, path, scope) && NetsOk(g, streams, path, inner)
      requires g.tasks[TaskAt(g, path)].upper && TaskOk(g, path) && ChildrenInv(g, kernels, streams, path, {})
      requires AcyclicFrom(Hierarchy(g), TaskAt(g, path))
      modifies `kernels, `streams
      ensures ok <==> SubtreeOk(g, path)
      ensures ok ==> Inv() && StreamsGrew(old(streams), streams, path) && KernelsGrew(old(kernels), kernels, path)
      ensures ok ==> Covered(g, kernels, path)
      decreases |Descendants(Hierarchy(g), TaskAt(g, path))|, 1
    {
      var def := g.tasks[TaskAt(g, path)];
      ghost var done: set<Hop> := {};
      var todo := def.children.Keys;
      while todo != {}
        invariant todo <= def.children.Keys
        invariant Inv() && ScopeOk(g, streams, path, scope) && NetsOk(g, streams, path, inner)
        invariant StreamsGrew(old(streams), streams, path) && KernelsGrew(old(kernels), kernels, path)
        invariant ChildrenInv(g, kernels, streams, path, done)
        invariant forall h :: Descends(g, path, h) ==> (h in done <==> h.task !in todo)
      {
        var child :| child in todo;
        todo := todo - {child};
        for i := 0 to |def.children[child]|
          invariant Inv() && ScopeOk(g, streams, path, scope) && NetsOk(g, streams, path, inner)
          invariant StreamsGrew(old(streams), streams, path) && KernelsGrew(old(kernels), kernels, path)
          invariant ChildrenInv(g, kernels, streams, path, done)
          invariant forall h :: Descends(g, path, h) ==>
                      (h in done <==> h.task !in todo && (h.task == child ==> h.index < i))
        {
          var fine := VisitChild(path, Hop(child, i), scope, inner, done);
          if !fine {
            return false;
          }
          done := done + {Hop(child, i)};
        }
      }
      ChildrenDone(g, kernels, streams, path, done);
      return true;
    }

    method VisitChild(path: Path, h: Hop, scope: map<string, Binding>, inner: map<string, Binding>, ghost done: set<Hop>)
      returns (ok: bool)
      requires Inv() && ScopeOk(g, streams, path, scope) && NetsOk(g, streams, path, inner)
      requires Descends(g, path, h) && h !in done && ChildrenInv(g, kernels, streams, path, done)
      requires AcyclicFrom(Hierarchy(g), TaskAt(g, path))
      modifies `kernels, `streams
      ensures !ok ==> !SubtreeOk(g, path)
      ensures ok ==> Inv() && ScopeOk(g, streams, path, scope) && NetsOk(g, streams, path, inner)
      ensures ok ==> StreamsGrew(old(streams), streams, path) && KernelsGrew(old(kernels), kernels, path)
      ensures ok ==> ChildrenInv(g, kernels, streams, path, done + {h})
      decreases |Descendants(Hierarchy(g), TaskAt(g, path))|, 0
    {
      ChildPath(g, path, h);
      if InstanceAt(g, path + [h]).step > 0 {
        ChildFails(g, path, h);
        return false;
      }
      var child := ChildScope(path, h, inner, scope);
      if child.None? {
        ChildFails(g, path, h);
        return false;
      }
      DescendHierarchy(g, path, h);
      ok := Visit(path + [h], child.value);
      if !ok {
        ChildFails(g, path, h);
        return false;
      }
      ScopeOkGrows(g, old(streams), streams, path, scope);
      ChildrenStep(g, old(kernels), old(streams), kernels, streams, path, done, h);
    }
  }

  lemma DescendHierarchy(g: TaskGraph, path: Path, h: Hop)
    requires Descends(g, path, h) && AcyclicFrom(Hierarchy(g), TaskAt(g, path))
    ensures AcyclicFrom(Hierarchy(g), h.task)
    ensures |Descendants(Hierarchy(g), h.task)| < |Descendants(Hierarchy(g), TaskAt(g, path))|
  {
    AcyclicSucc(Hierarchy(g), TaskAt(g, path), h.task);
    ReachesSelf(Hierarchy(g), h.task);
    DescendantsShrink(Hierarchy(g), TaskAt(g, path), h.task);
  }

  lemma NewKernelKeeps(g: TaskGraph, kernels: seq<Kernel>, streams: seq<AieStream>, k: Kernel)
    requires PartitionOk(g, kernels, streams) && KernelOk(g, streams, k)
    requires UntouchedKernels(kernels, k.path) && TaskOk(g, k.path)
    ensures PartitionOk(g, kernels + [k], streams)
    ensures KernelsGrew(kernels, kernels + [k], k.path)
    ensures SubtreeOk(g, k.path) && Covered(g, kernels + [k], k.path)
  {
    forall i | 0 <= i < |kernels|
      ensures kernels[i].path != k.path
    {
      assert !Under(k.path, kernels[i].path);
    }
    forall p | InstancePath(g, p) && Under(k.path, p)
      ensures p == k.path
    {
      if p != k.path {
        var h := BelowIsUnderChild(g, k.path, p);
      }
    }
    assert (kernels + [k])[|kernels|].path == k.path;
  }
}
