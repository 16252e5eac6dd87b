/** The task graph that the AI Engine partition is derived from, and what its names mean.

    An instance path names one instance of one task: the hops from the top task down. A stream port of an
    instance is bound to a name of the enclosing task, which is a FIFO declared there or again a port, so
    following bindings outwards ends at one FIFO of one instance. `Resolve` is that walk. */
module AieModel {
  import opened Wrappers
  import opened Graphs
  import opened Names
  import opened ByteOrder

  datatype Category = Scalar | Istream | Ostream | Istreams | Ostreams | Mmap | Immap | Ommap | AsyncMmap {
    predicate IsInput() {
      Istream? || Istreams?
    }

    predicate IsStream() {
      Istream? || Istreams? || Ostream? || Ostreams?
    }

    predicate IsPlural() {
      Istreams? || Ostreams?
    }

    predicate IsMmapLike() {
      Mmap? || Immap? || Ommap? || AsyncMmap?
    }
  }

  datatype WireValue = WireValue(width: nat, value: nat)
  datatype ArgSource = Name(name: string) | Literal(value: WireValue)
  datatype Arg = Arg(source: ArgSource, cat: Category)
  datatype Instance = Instance(args: map<string, Arg>, step: int)
  datatype Endpoint = Endpoint(task: string, index: nat)
  datatype Fifo = Fifo(depth: Option<nat>, producedBy: Option<Endpoint>, consumedBy: Option<Endpoint>)
  datatype Port = Port(name: string, cat: Category, width: nat, chanCount: Option<nat>, plio: bool)

  datatype Task = Task(
    upper: bool, aie: bool, ports: seq<Port>,
    children: map<string, seq<Instance>>, fifos: map<string, Fifo>)

  datatype TaskGraph = TaskGraph(top: string, tasks: map<string, Task>)

  // ----- ports by name

  function FirstNamed(ports: seq<Port>, name: string): (r: Option<Port>) {
    if ports == [] then None else if ports[0].name == name then Some(ports[0]) else FirstNamed(ports[1..], name)
  }

  /** The port that `name` means: the one so declared, or else the array port whose channel it is. */
  function PortOf(t: Task, name: string): (r: Option<Port>) {
    var exact := FirstNamed(t.ports, name);
    var base := ArrayBaseName(name);
    if exact.Some? || base == "" then exact else FirstNamed(t.ports, base)
  }

  /** The ports of the instance `e` of task `t` that are passed `fifo`. */
  function PortsPassed(t: Task, e: Endpoint, fifo: string): set<string> {
    if e.task in t.children && e.index < |t.children[e.task]| then
      var args := t.children[e.task][e.index].args;
      set port | port in args && args[port].source == Name(fifo)
    else {}
  }

  /** The first of them, or the empty name. */
  ghost function ChildPort(t: Task, e: Endpoint, fifo: string): string {
    var passed := PortsPassed(t, e, fifo);
    if passed == {} then "" else Least(passed)
  }

  method ChildPortFor(t: Task, e: Endpoint, fifo: string) returns (port: string)
    ensures port == ChildPort(t, e, fifo)
  {
    var passed := PortsPassed(t, e, fifo);
    if passed == {} {
      return "";
    }
    port := FindLeast(passed);
  }

  /** The port of the instance `e` of task `t` at which `fifo` arrives. */
  ghost function LinkPort(g: TaskGraph, t: Task, e: Endpoint, fifo: string): Option<Port> {
    if e.task in g.tasks then PortOf(g.tasks[e.task], ChildPort(t, e, fifo)) else None
  }

  method FindLink(g: TaskGraph, t: Task, e: Endpoint, fifo: string) returns (r: Option<Port>)
    ensures r == LinkPort(g, t, e, fifo)
  {
    if e.task !in g.tasks {
      return None;
    }
    var port := ChildPortFor(t, e, fifo);
    return PortOf(g.tasks[e.task], port);
  }

  // ----- instance paths

  datatype Hop = Hop(task: string, index: nat)
  type Path = seq<Hop>

  function TaskAt(g: TaskGraph, path: Path): string {
    if path == [] then g.top else path[|path| - 1].task
  }

  predicate HopOf(t: Task, h: Hop) {
    h.task in t.children && h.index < |t.children[h.task]|
  }

  /** The task at the end of `path` exists and `h` is one of its instances. Below the top, only upper tasks have
      any; at the top, only the AI Engine ones concern the partition. */
  predicate Descends(g: TaskGraph, path: Path, h: Hop) {
    && TaskAt(g, path) in g.tasks
    && HopOf(g.tasks[TaskAt(g, path)], h)
    && if path == [] then h.task in g.tasks && g.tasks[h.task].aie else g.tasks[TaskAt(g, path)].upper
  }

  predicate InstancePath(g: TaskGraph, path: Path) {
    path == [] || (InstancePath(g, path[..|path| - 1]) && Descends(g, path[..|path| - 1], path[|path| - 1]))
  }

  function InstanceAt(g: TaskGraph, path: Path): Instance
    requires InstancePath(g, path) && path != []
  {
    var h := path[|path| - 1];
    g.tasks[TaskAt(g, path[..|path| - 1])].children[h.task][h.index]
  }

  predicate IsLeaf(g: TaskGraph, path: Path) {
    path != [] && InstancePath(g, path) && TaskAt(g, path) in g.tasks && !g.tasks[TaskAt(g, path)].upper
  }

  lemma {:induction false} PrefixIsPath(g: TaskGraph, path: Path, n: nat)
    requires InstancePath(g, path) && n <= |path|
    ensures InstancePath(g, path[..n])
  {
    if n == |path| {
      assert path[..n] == path;
    } else {
      PrefixIsPath(g, path[..|path| - 1], n);
      assert path[..|path| - 1][..n] == path[..n];
    }
  }

  // ----- name resolution

  datatype ScalarBinding = Runtime(name: string) | Constant(value: WireValue)

  /** What a name stands for, once followed through all enclosing scopes. */
  datatype Target = FifoAt(scope: Path, fifo: string) | ScalarAt(value: ScalarBinding) | Unbound

  /** A FIFO of an AI Engine upper task that some instance produces or consumes. */
  predicate DeclaresNet(t: Task, name: string) {
    name in t.fifos && (t.fifos[name].producedBy.Some? || t.fifos[name].consumedBy.Some?)
  }

  /** The end of a net that its elements are measured at. */
  function NetEnd(f: Fifo): Endpoint
    requires f.producedBy.Some? || f.consumedBy.Some?
  {
    if f.producedBy.Some? then f.producedBy.value else f.consumedBy.value
  }

  /** That end is a port. */
  ghost predicate NetNamed(g: TaskGraph, t: Task, n: string) {
    DeclaresNet(t, n) && LinkPort(g, t, NetEnd(t.fifos[n]), n).Some?
  }

  ghost predicate NetsNamed(g: TaskGraph, t: Task) {
    forall n :: DeclaresNet(t, n) ==> NetNamed(g, t, n)
  }

  /** What an argument of an instance in the top task is bound to. */
  function TopTarget(top: Task, arg: Arg): Target {
    match arg.source
    case Literal(v) => ScalarAt(Constant(v))
    case Name(n) =>
      if arg.cat.Scalar? then ScalarAt(Runtime(n))
      else if arg.cat.IsStream() && n in top.fifos && top.fifos[n].depth.Some? then FifoAt([], n)
      else Unbound
  }

  function Resolve(g: TaskGraph, path: Path, port: string): (t: Target)
    requires InstancePath(g, path) && path != []
    decreases |path|
  {
    var args := InstanceAt(g, path).args;
    var outer := path[..|path| - 1];
    if port !in args then Unbound
    else if outer == [] then TopTarget(g.tasks[g.top], args[port])
    else
      match args[port].source
      case Literal(v) => ScalarAt(Constant(v))
      case Name(n) => if DeclaresNet(g.tasks[TaskAt(g, outer)], n) then FifoAt(outer, n) else Resolve(g, outer, n)
  }

  // ----- what makes an instance acceptable

  /** The names under which a stream port takes its channels: itself, or one per element of an array port. */
  function Channels(p: Port): (names: seq<string>) {
    if p.cat.IsPlural() then
      var n := if p.chanCount.Some? then p.chanCount.value else 0;
      seq(n, i requires 0 <= i => ArrayNameAt(p.name, i))
    else [p.name]
  }

  /** AI Engine kernels run concurrently, and every name an invoke passes must mean something. */
  ghost predicate CallOk(g: TaskGraph, path: Path)
    requires InstancePath(g, path) && path != []
  {
    && InstanceAt(g, path).step <= 0
    && forall port :: port in InstanceAt(g, path).args ==> Resolve(g, path, port) != Unbound
  }

  ghost predicate PortOk(g: TaskGraph, path: Path, p: Port)
    requires InstancePath(g, path) && path != []
  {
    if p.cat.IsStream() then forall c :: 0 <= c < |Channels(p)| ==> Resolve(g, path, Channels(p)[c]).FifoAt?
    else p.cat.Scalar? && Resolve(g, path, p.name).ScalarAt?
  }

  ghost predicate TaskOk(g: TaskGraph, path: Path)
    requires InstancePath(g, path) && path != []
  {
    && TaskAt(g, path) in g.tasks
    && var t := g.tasks[TaskAt(g, path)];
    if t.upper then NetsNamed(g, t) else forall i :: 0 <= i < |t.ports| ==> PortOk(g, path, t.ports[i])
  }

  /** The instance at `path` and every instance below it is acceptable. (The invoke of `path` itself excepted.) */
  ghost predicate SubtreeOk(g: TaskGraph, path: Path) {
    forall p :: InstancePath(g, p) && path <= p && p != [] ==> TaskOk(g, p) && (p != path ==> CallOk(g, p))
  }

  /** Task to the tasks it invokes. */
  ghost function Hierarchy(g: TaskGraph): Graph<string> {
    map t | t in g.tasks :: g.tasks[t].children.Keys
  }
}
