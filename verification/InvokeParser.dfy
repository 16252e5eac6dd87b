/** Reading the invokes of an upper task: one instance per vector lane, arguments bound to callee ports, array
    arguments dealt out element by element, and the two ends of every FIFO recorded. */
module InvokeParser {
  import opened Wrappers
  import opened Names

  datatype Kind = KMmap | KIStream | KOStream | KScalar
  datatype ArgValue = Named(name: string, kind: Kind) | Constant(value: int)
  type Args = map<string, ArgValue>

  datatype Endpoint = Endpoint(task: string, index: nat)

  /** `declared` is false for an external FIFO of the top, whose other end is the kernel boundary. */
  datatype Stream = Stream(declared: bool, producedBy: Option<Endpoint>, consumedBy: Option<Endpoint>)

  /** An invoke argument: the name it refers to, and the length when that name is a whole array. */
  datatype Actual = Actual(name: string, length: Option<int>, scalar: ScalarUse)

  /** What a scalar argument amounts to: a constant, a parameter of the parent, or a diagnosed error. */
  datatype ScalarUse = IsConstant(value: int) | IsParameter | IsRejected

  datatype FormalKind = FMmap | FIStream | FOStream | FIStreams(n: nat) | FOStreams(n: nat) | FScalar
  datatype Formal = Formal(port: string, kind: FormalKind)

  datatype Invoke = Invoke(task: string, lanes: nat, actuals: seq<Actual>, formals: seq<Formal>)

  /** An array argument stands for its elements in turn, wrapping at its length. */
  function ArrayElement(a: Actual, pos: nat): string {
    if a.length.Some? && a.length.value > 0 then ArrayNameAt(a.name, pos % a.length.value) else a.name
  }

  type Positions = map<string, nat>

  function PosOf(p: Positions, name: string): nat {
    if name in p then p[name] else 0
  }

  // ----- what the recorded ends mean

  function StreamKind(input: bool): Kind {
    if input then KIStream else KOStream
  }

  type Instances = map<string, seq<Args>>

  /** Port `port` of instance `at` is of the given direction and bound to `fifo`. */
  ghost predicate Site(instances: Instances, at: Endpoint, port: string, fifo: string, input: bool) {
    && at.task in instances && at.index < |instances[at.task]|
    && port in instances[at.task][at.index] && instances[at.task][at.index][port] == Named(fifo, StreamKind(input))
  }

  /** Instance `at` has a port of the given direction bound to `fifo`. */
  ghost predicate Binds(instances: Instances, at: Endpoint, fifo: string, input: bool) {
    exists port :: Site(instances, at, port, fifo, input)
  }

  /** At most one port is bound to `fifo` on this side. */
  ghost predicate OneSite(instances: Instances, fifo: string, input: bool) {
    forall at, port, at', port' ::
      Site(instances, at, port, fifo, input) && Site(instances, at', port', fifo, input) ==> at == at' && port == port'
  }

  function EndOf(s: Stream, input: bool): Option<Endpoint> {
    if input then s.consumedBy else s.producedBy
  }

  /** An end is recorded exactly when there is one, and it is a real one. */
  ghost predicate EndInv(instances: Instances, fifo: string, end: Option<Endpoint>, input: bool) {
    && (end.Some? ==> Binds(instances, end.value, fifo, input))
    && (forall at, port :: Site(instances, at, port, fifo, input) ==> end.Some?)
  }

  /** Exactly the recorded instance binds the FIFO on this side. */
  ghost predicate EndExact(instances: Instances, fifo: string, end: Option<Endpoint>, input: bool) {
    forall at :: Binds(instances, at, fifo, input) <==> end == Some(at)
  }

  ghost predicate StreamsInv(instances: Instances, streams: map<string, Stream>) {
    forall f, input :: f in streams ==> EndInv(instances, f, EndOf(streams[f], input), input)
  }

  ghost predicate AllOneSite(instances: Instances, streams: map<string, Stream>) {
    forall f, input :: f in streams ==> OneSite(instances, f, input)
  }

  // ----- one instance under construction

  function LastOf(instances: Instances, task: string): Endpoint
    requires task in instances && |instances[task]| > 0
  {
    Endpoint(task, |instances[task]| - 1)
  }

  function LastArgs(instances: Instances, task: string): Args
    requires task in instances && |instances[task]| > 0
  {
    instances[task][|instances[task]| - 1]
  }

  function WithArg(instances: Instances, task: string, port: string, v: ArgValue): (r: Instances)
    requires task in instances && |instances[task]| > 0
    ensures task in r && |r[task]| == |instances[task]| && SameButLast(instances, r, task)
    ensures LastArgs(r, task) == LastArgs(instances, task)[port := v] == LastArgs(instances, task) + map[port := v]
  {
    var n := |instances[task]| - 1;
    instances[task := instances[task][n := instances[task][n][port := v]]]
  }

  function WithInstance(instances: Instances, task: string): (r: Instances)
    ensures task in r && |r[task]| > 0 && LastArgs(r, task) == map[]
  {
    instances[task := (if task in instances then instances[task] else []) + [map[]]]
  }

  /** Only the arguments of the last instance of `task` may differ. */
  ghost predicate SameButLast(was: Instances, now: Instances, task: string) {
    && now.Keys == was.Keys && task in was && |was[task]| > 0 && |now[task]| == |was[task]|
    && (forall t :: t in was && t != task ==> now[t] == was[t])
    && now[task][..|now[task]| - 1] == was[task][..|was[task]| - 1]
  }

  /** A fresh port adds exactly one site. */
  lemma WithArgSite(instances: Instances, task: string, port: string, v: ArgValue, at: Endpoint, p: string,
                    fifo: string, input: bool)
    requires task in instances && |instances[task]| > 0 && port !in LastArgs(instances, task)
    ensures Site(WithArg(instances, task, port, v), at, p, fifo, input) <==>
            || Site(instances, at, p, fifo, input)
            || (at == LastOf(instances, task) && p == port && v == Named(fifo, StreamKind(input)))
  {
    if at == LastOf(instances, task) {
      assert LastArgs(WithArg(instances, task, port, v), task) == LastArgs(instances, task)[port := v];
    }
  }

  lemma WithInstanceSite(instances: Instances, task: string, at: Endpoint, p: string, fifo: string, input: bool)
    ensures Site(WithInstance(instances, task), at, p, fifo, input) <==> Site(instances, at, p, fifo, input)
  {
  }

  // ----- marking an end

  function SetEnd(s: Stream, at: Endpoint, input: bool): Stream {
    if input then s.(consumedBy := Some(at)) else s.(producedBy := Some(at))
  }

  /** The FIFOs after `at` is recorded on one side of `fifo`; `external` says that `fifo` is a stream port of the top. */
  function Marked(streams: map<string, Stream>, external: bool, fifo: string, at: Endpoint, input: bool): map<string, Stream> {
    if fifo in streams then streams[fifo := SetEnd(streams[fifo], at, input)]
    else if external then streams[fifo := SetEnd(Stream(false, None, None), at, input)]
    else streams
  }

  /** That side was taken already. */
  predicate Taken(streams: map<string, Stream>, fifo: string, input: bool) {
    fifo in streams && EndOf(streams[fifo], input).Some?
  }

  ghost predicate Bound(instances: Instances, fifo: string) {
    exists at, port, input :: Site(instances, at, port, fifo, input)
  }

  /** `after` has the sites of `instances` and one more, at a new place. */
  ghost predicate OneSiteMore(instances: Instances, after: Instances, at: Endpoint, port: string, fifo: string,
                              input: bool)
  {
    && (forall at', port', f, inp :: Site(after, at', port', f, inp) <==>
          Site(instances, at', port', f, inp) || (at' == at && port' == port && f == fifo && inp == input))
    && !Site(instances, at, port, fifo, input)
  }

  lemma BindAddsOneSite(instances: Instances, task: string, port: string, fifo: string, input: bool)
    requires task in instances && |instances[task]| > 0 && port !in LastArgs(instances, task)
    ensures OneSiteMore(instances, WithArg(instances, task, port, Named(fifo, StreamKind(input))),
                        LastOf(instances, task), port, fifo, input)
  {
    forall at', port', f, inp
      ensures Site(WithArg(instances, task, port, Named(fifo, StreamKind(input))), at', port', f, inp) <==>
              || Site(instances, at', port', f, inp)
              || (at' == LastOf(instances, task) && port' == port && f == fifo && inp == input)
    {
      WithArgSite(instances, task, port, Named(fifo, StreamKind(input)), at', port', f, inp);
    }
  }

  lemma MarkKeepsEnds(instances: Instances, after: Instances, streams: map<string, Stream>, external: bool,
                      at: Endpoint, port: string, fifo: string, input: bool)
    requires StreamsInv(instances, streams) && OneSiteMore(instances, after, at, port, fifo, input)
    requires external && fifo !in streams ==> !Bound(instances, fifo)
    ensures StreamsInv(after, Marked(streams, external, fifo, at, input))
  {
    var streams' := Marked(streams, external, fifo, at, input);
    assert Site(after, at, port, fifo, input);
    forall f, inp | f in streams'
      ensures EndInv(after, f, EndOf(streams'[f], inp), inp)
    {
      if f in streams {
        var end := EndOf(streams[f], inp);
        assert EndInv(instances, f, end, inp);
        if end.Some? {
          var p :| Site(instances, end.value, p, f, inp);
          assert Site(after, end.value, p, f, inp);
        }
      }
    }
  }

  lemma TakenMakesTwo(instances: Instances, after: Instances, streams: map<string, Stream>, at: Endpoint, port: string,
                      fifo: string, input: bool)
    requires StreamsInv(instances, streams) && OneSiteMore(instances, after, at, port, fifo, input)
    requires Taken(streams, fifo, input)
    ensures !OneSite(after, fifo, input)
  {
    var end := EndOf(streams[fifo], input);
    assert EndInv(instances, fifo, end, input);
    var p :| Site(instances, end.value, p, fifo, input);
    assert Site(after, end.value, p, fifo, input) && Site(after, at, port, fifo, input);
    assert (end.value, p) != (at, port);
  }

  /** A FIFO is used twice on one side from then on exactly when that side was taken. */
  lemma MarkKeepsOneSite(instances: Instances, after: Instances, streams: map<string, Stream>, external: bool,
                         at: Endpoint, port: string, fifo: string, input: bool)
    requires StreamsInv(instances, streams) && OneSiteMore(instances, after, at, port, fifo, input)
    requires external && fifo !in streams ==> !Bound(instances, fifo)
    ensures AllOneSite(after, Marked(streams, external, fifo, at, input)) <==>
            AllOneSite(instances, streams) && !Taken(streams, fifo, input)
  {
    var streams' := Marked(streams, external, fifo, at, input);
    assert Site(after, at, port, fifo, input);
    if AllOneSite(after, streams') {
      forall f, inp | f in streams
        ensures OneSite(instances, f, inp)
      {
        assert OneSite(after, f, inp);
      }
      if Taken(streams, fifo, input) {
        TakenMakesTwo(instances, after, streams, at, port, fifo, input);
      }
    }
    if AllOneSite(instances, streams) && !Taken(streams, fifo, input) {
      forall f, inp | f in streams'
        ensures OneSite(after, f, inp)
      {
        if f in streams {
          assert OneSite(instances, f, inp) && EndInv(instances, f, EndOf(streams[f], inp), inp);
        }
      }
    }
  }

  lemma BindBounds(instances: Instances, task: string, port: string, fifo: string, input: bool)
    requires task in instances && |instances[task]| > 0 && port !in LastArgs(instances, task)
    ensures forall f :: Bound(WithArg(instances, task, port, Named(fifo, StreamKind(input))), f) ==>
                        f == fifo || Bound(instances, f)
  {
    BindAddsOneSite(instances, task, port, fifo, input);
  }

  /** The same sites, so the same ends. */
  lemma SameSites(instances: Instances, after: Instances, streams: map<string, Stream>)
    requires StreamsInv(instances, streams)
    requires forall at, port, f, input :: Site(after, at, port, f, input) <==> Site(instances, at, port, f, input)
    ensures StreamsInv(after, streams) && (AllOneSite(after, streams) <==> AllOneSite(instances, streams))
    ensures forall f :: Bound(after, f) <==> Bound(instances, f)
  {
    forall f, input | f in streams
      ensures EndInv(after, f, EndOf(streams[f], input), input)
      ensures OneSite(after, f, input) <==> OneSite(instances, f, input)
    {
      var end := EndOf(streams[f], input);
      assert EndInv(instances, f, end, input);
      if end.Some? {
        var p :| Site(instances, end.value, p, f, input);
        assert Site(after, end.value, p, f, input);
      }
    }
  }

  lemma PlainArgKeepsSites(instances: Instances, streams: map<string, Stream>, task: string, port: string, v: ArgValue)
    requires StreamsInv(instances, streams)
    requires task in instances && |instances[task]| > 0 && port !in LastArgs(instances, task)
    requires v.Named? ==> v.kind != KIStream && v.kind != KOStream
    ensures StreamsInv(WithArg(instances, task, port, v), streams)
    ensures AllOneSite(WithArg(instances, task, port, v), streams) <==> AllOneSite(instances, streams)
    ensures forall f :: Bound(WithArg(instances, task, port, v), f) <==> Bound(instances, f)
  {
    forall at, p, f, input
      ensures Site(WithArg(instances, task, port, v), at, p, f, input) <==> Site(instances, at, p, f, input)
    {
      WithArgSite(instances, task, port, v, at, p, f, input);
    }
    SameSites(instances, WithArg(instances, task, port, v), streams);
  }

  lemma NewInstanceKeepsSites(instances: Instances, streams: map<string, Stream>, task: string)
    requires StreamsInv(instances, streams)
    ensures StreamsInv(WithInstance(instances, task), streams)
    ensures AllOneSite(WithInstance(instances, task), streams) <==> AllOneSite(instances, streams)
    ensures forall f :: Bound(WithInstance(instances, task), f) <==> Bound(instances, f)
  {
    forall at, p, f, input
      ensures Site(WithInstance(instances, task), at, p, f, input) <==> Site(instances, at, p, f, input)
    {
      WithInstanceSite(instances, task, at, p, f, input);
    }
    SameSites(instances, WithInstance(instances, task), streams);
  }

  // ----- the arguments one formal contributes

  /** Callee port names are distinct identifiers. */
  ghost predicate DistinctPorts(formals: seq<Formal>) {
    && (forall i :: 0 <= i < |formals| ==> '[' !in formals[i].port)
    && (forall i, j :: 0 <= i < j < |formals| ==> formals[i].port != formals[j].port)
  }

  /** The arguments bound so far belong to the first `k` formals. */
  ghost predicate OnlyFrom(args: Args, formals: seq<Formal>, k: nat)
    requires k <= |formals|
  {
    forall p :: p in args ==> exists i :: 0 <= i < k && ArrayBaseName(p) == formals[i].port
  }

  ghost predicate NoElements(args: Args, port: string) {
    forall j: nat :: ArrayNameAt(port, j) !in args
  }

  lemma FreshFormal(args: Args, formals: seq<Formal>, k: nat)
    requires DistinctPorts(formals) && k < |formals| && OnlyFrom(args, formals, k)
    ensures formals[k].port !in args
    ensures NoElements(args, formals[k].port)
  {
    BaseOfPlain(formals[k].port, []);
    assert formals[k].port + [] == formals[k].port;
    forall j: nat
      ensures ArrayNameAt(formals[k].port, j) !in args
    {
      BaseOfElement(formals[k].port, j);
    }
  }

  function ElementArgs(a: Actual, port: string, pos: nat, n: nat, kind: Kind): Args {
    if n == 0 then map[]
    else ElementArgs(a, port, pos, n - 1, kind)[ArrayNameAt(port, n - 1) := Named(ArrayElement(a, pos + n - 1), kind)]
  }

  /** The arguments that actual `a` gives the ports of formal `f`, when `pos` elements of it are dealt out already. */
  function FormalArgs(a: Actual, f: Formal, pos: nat): Args {
    match f.kind
    case FMmap => map[f.port := Named(ArrayElement(a, pos), KMmap)]
    case FIStream => map[f.port := Named(ArrayElement(a, pos), KIStream)]
    case FOStream => map[f.port := Named(ArrayElement(a, pos), KOStream)]
    case FIStreams(n) => ElementArgs(a, f.port, pos, n, KIStream)
    case FOStreams(n) => ElementArgs(a, f.port, pos, n, KOStream)
    case FScalar =>
      match a.scalar
      case IsConstant(v) => map[f.port := Constant(v)]
      case IsParameter => map[f.port := Named(a.name, KScalar)]
      case IsRejected => map[]
  }

  /** How many elements of its actual a formal takes. */
  function Takes(f: Formal): nat {
    match f.kind
    case FMmap => 1
    case FIStream => 1
    case FOStream => 1
    case FIStreams(n) => n
    case FOStreams(n) => n
    case FScalar => 0
  }

  lemma {:induction false} ElementArgsBase(a: Actual, port: string, pos: nat, n: nat, kind: Kind)
    requires '[' !in port
    ensures forall p :: p in ElementArgs(a, port, pos, n, kind) ==> ArrayBaseName(p) == port
  {
    if n > 0 {
      ElementArgsBase(a, port, pos, n - 1, kind);
      BaseOfElement(port, n - 1);
    }
  }

  lemma {:induction false} NextElementFresh(a: Actual, port: string, pos: nat, n: nat, m: nat, kind: Kind)
    requires n <= m
    ensures ArrayNameAt(port, m) !in ElementArgs(a, port, pos, n, kind)
  {
    if n > 0 {
      NextElementFresh(a, port, pos, n - 1, m, kind);
      if ArrayNameAt(port, n - 1) == ArrayNameAt(port, m) {
        ElementsDiffer(port, n - 1, m);
      }
    }
  }

  lemma NextElement(args: Args, a: Actual, port: string, pos: nat, n: nat, kind: Kind)
    requires ArrayNameAt(port, n) !in args
    ensures ArrayNameAt(port, n) !in args + ElementArgs(a, port, pos, n, kind)
    ensures (args + ElementArgs(a, port, pos, n, kind))[ArrayNameAt(port, n) := Named(ArrayElement(a, pos + n), kind)]
            == args + ElementArgs(a, port, pos, n + 1, kind)
  {
    NextElementFresh(a, port, pos, n, n, kind);
  }

  lemma FormalArgsAreOwn(args: Args, a: Actual, formals: seq<Formal>, k: nat, pos: nat)
    requires DistinctPorts(formals) && k < |formals| && OnlyFrom(args, formals, k)
    ensures OnlyFrom(args + FormalArgs(a, formals[k], pos), formals, k + 1)
  {
    var f := formals[k];
    assert f.port + [] == f.port;
    BaseOfPlain(f.port, []);
    if f.kind.FIStreams? {
      ElementArgsBase(a, f.port, pos, f.kind.n, KIStream);
    } else if f.kind.FOStreams? {
      ElementArgsBase(a, f.port, pos, f.kind.n, KOStream);
    }
    forall p | p in args
      ensures exists i :: 0 <= i < k + 1 && ArrayBaseName(p) == formals[i].port
    {
      var i :| 0 <= i < k && ArrayBaseName(p) == formals[i].port;
    }
    forall p | p in FormalArgs(a, f, pos)
      ensures ArrayBaseName(p) == f.port
    {
    }
  }

  // ----- what the invokes amount to

  /** Elements of each array dealt out so far, by the kind of port they went to. */
  datatype Cursor = Cursor(istreams: Positions, ostreams: Positions, mmaps: Positions)

  /** Elements of `name` already dealt out to ports of the kind of `f`. */
  function Dealt(c: Cursor, f: Formal, name: string): nat {
    match f.kind
    case FMmap => PosOf(c.mmaps, name)
    case FIStream => PosOf(c.istreams, name)
    case FIStreams(_) => PosOf(c.istreams, name)
    case FOStream => PosOf(c.ostreams, name)
    case FOStreams(_) => PosOf(c.ostreams, name)
    case FScalar => 0
  }

  function Advanced(c: Cursor, f: Formal, name: string): Cursor {
    var next := Dealt(c, f, name) + Takes(f);
    match f.kind
    case FMmap => c.(mmaps := c.mmaps[name := next])
    case FIStream => c.(istreams := c.istreams[name := next])
    case FIStreams(_) => c.(istreams := c.istreams[name := next])
    case FOStream => c.(ostreams := c.ostreams[name := next])
    case FOStreams(_) => c.(ostreams := c.ostreams[name := next])
    case FScalar => c
  }

  /** Actuals past the last formal are ignored, and so are formals past the last actual. */
  function Matched(inv: Invoke): (n: nat)
    ensures n <= |inv.actuals| && n <= |inv.formals|
  {
    if |inv.actuals| < |inv.formals| then |inv.actuals| else |inv.formals|
  }

  /** What formal `k` of a lane adds to the arguments and to the elements dealt. */
  function NextArgs(inv: Invoke, k: nat, args: Args, c: Cursor): Args
    requires k < Matched(inv)
  {
    args + FormalArgs(inv.actuals[k], inv.formals[k], Dealt(c, inv.formals[k], inv.actuals[k].name))
  }

  function NextCursor(inv: Invoke, k: nat, c: Cursor): Cursor
    requires k < Matched(inv)
  {
    Advanced(c, inv.formals[k], inv.actuals[k].name)
  }

  /** After the first `k` formals of one lane. */
  function LaneCursor(inv: Invoke, k: nat, c: Cursor): Cursor
    requires k <= Matched(inv)
  {
    if k == 0 then c else NextCursor(inv, k - 1, LaneCursor(inv, k - 1, c))
  }

  function LaneArgs(inv: Invoke, k: nat, c: Cursor): Args
    requires k <= Matched(inv)
  {
    if k == 0 then map[] else NextArgs(inv, k - 1, LaneArgs(inv, k - 1, c), LaneCursor(inv, k - 1, c))
  }

  datatype Parse = Parse(instances: Instances, cursor: Cursor)

  function WithLane(instances: Instances, task: string, args: Args): Instances {
    instances[task := (if task in instances then instances[task] else []) + [args]]
  }

  function AfterLanes(inv: Invoke, lanes: nat, p: Parse): Parse {
    if lanes == 0 then p else
    var q := AfterLanes(inv, lanes - 1, p);
    Parse(WithLane(q.instances, inv.task, LaneArgs(inv, Matched(inv), q.cursor)), LaneCursor(inv, Matched(inv), q.cursor))
  }

  /** One instance per lane of each invoke, each lane taking up where the one before left off. */
  function AfterInvokes(invokes: seq<Invoke>, n: nat, p: Parse): Parse
    requires n <= |invokes|
  {
    if n == 0 then p else AfterLanes(invokes[n - 1], invokes[n - 1].lanes, AfterInvokes(invokes, n - 1, p))
  }

  /** A scalar argument of some lane is neither a constant nor a parameter of the parent. */
  predicate LaneRejected(inv: Invoke, k: nat)
    requires k <= Matched(inv)
  {
    exists i :: 0 <= i < k && inv.formals[i].kind.FScalar? && inv.actuals[i].scalar.IsRejected?
  }

  predicate Rejected(invokes: seq<Invoke>, n: nat)
    requires n <= |invokes|
  {
    exists i :: 0 <= i < n && invokes[i].lanes > 0 && LaneRejected(invokes[i], Matched(invokes[i]))
  }

  const Nothing := Parse(map[], Cursor(map[], map[], map[]))

  lemma LaneIsLast(before: Instances, now: Instances, task: string, args: Args)
    requires SameButLast(WithInstance(before, task), now, task) && LastArgs(now, task) == args
    ensures now == WithLane(before, task, args)
  {
    var was := if task in before then before[task] else [];
    assert WithInstance(before, task)[task] == was + [map[]];
    assert now[task] == now[task][..|now[task]| - 1] + [args];
    assert now[task] == was + [args];
  }

  /** The three kinds of ports that elements are dealt to. */
  datatype Side = Reads | Writes | Memories

  predicate OnSide(f: Formal, side: Side) {
    match side
    case Reads => f.kind.FIStream? || f.kind.FIStreams?
    case Writes => f.kind.FOStream? || f.kind.FOStreams?
    case Memories => f.kind.FMmap?
  }

  function DealtOn(c: Cursor, side: Side, name: string): nat {
    match side
    case Reads => PosOf(c.istreams, name)
    case Writes => PosOf(c.ostreams, name)
    case Memories => PosOf(c.mmaps, name)
  }

  /** How many elements of `name` one lane deals to ports of one kind. */
  function LaneTakes(inv: Invoke, k: nat, side: Side, name: string): nat
    requires k <= Matched(inv)
  {
    if k == 0 then 0 else
    var f := inv.formals[k - 1];
    LaneTakes(inv, k - 1, side, name) + if inv.actuals[k - 1].name == name && OnSide(f, side) then Takes(f) else 0
  }

  lemma AdvancedDeals(c: Cursor, f: Formal, actual: string, side: Side, name: string)
    ensures DealtOn(Advanced(c, f, actual), side, name) ==
            DealtOn(c, side, name) + if actual == name && OnSide(f, side) then Takes(f) else 0
  {
  }

  lemma {:induction false} LaneDeals(inv: Invoke, k: nat, c: Cursor, side: Side, name: string)
    requires k <= Matched(inv)
    ensures DealtOn(LaneCursor(inv, k, c), side, name) == DealtOn(c, side, name) + LaneTakes(inv, k, side, name)
  {
    if k > 0 {
      LaneDeals(inv, k - 1, c, side, name);
      AdvancedDeals(LaneCursor(inv, k - 1, c), inv.formals[k - 1], inv.actuals[k - 1].name, side, name);
    }
  }

  /** Lanes share an array evenly: for each kind of port, lane `j` starts `j` times as far into it as one lane reaches. */
  lemma {:induction false} LanesDealEvenly(inv: Invoke, j: nat, p: Parse, side: Side, name: string)
    ensures DealtOn(AfterLanes(inv, j, p).cursor, side, name) ==
            DealtOn(p.cursor, side, name) + j * LaneTakes(inv, Matched(inv), side, name)
  {
    if j > 0 {
      LanesDealEvenly(inv, j - 1, p, side, name);
      OneLaneMore(inv, j, p, side, name);
      Once(j, LaneTakes(inv, Matched(inv), side, name));
    }
  }

  lemma OneLaneMore(inv: Invoke, j: nat, p: Parse, side: Side, name: string)
    requires j > 0
    ensures DealtOn(AfterLanes(inv, j, p).cursor, side, name) ==
            DealtOn(AfterLanes(inv, j - 1, p).cursor, side, name) + LaneTakes(inv, Matched(inv), side, name)
  {
    LaneDeals(inv, Matched(inv), AfterLanes(inv, j - 1, p).cursor, side, name);
  }

  lemma Once(j: nat, t: nat)
    requires j > 0
    ensures j * t == (j - 1) * t + t
  {
  }

  lemma OneFormalMoreRejected(inv: Invoke, k: nat)
    requires k < Matched(inv)
    ensures LaneRejected(inv, k + 1) <==>
            LaneRejected(inv, k) || (inv.formals[k].kind.FScalar? && inv.actuals[k].scalar.IsRejected?)
  {
  }

  lemma OneInvokeMoreRejected(invokes: seq<Invoke>, n: nat)
    requires n < |invokes|
    ensures Rejected(invokes, n + 1) <==>
            Rejected(invokes, n) || (invokes[n].lanes > 0 && LaneRejected(invokes[n], Matched(invokes[n])))
  {
  }

  // ----- the parse

  predicate Unused(s: Stream) {
    s.declared && s.producedBy.None? && s.consumedBy.None?
  }

  predicate Unbalanced(s: Stream) {
    s.declared && s.producedBy.Some? != s.consumedBy.Some?
  }

  /** The FIFOs that an upper task connects: those it declares and, in the top, its own stream ports. */
  predicate Connects(isTop: bool, streamPorts: set<string>, declared: set<string>, f: string) {
    f in declared || (isTop && ArrayBaseName(f) in streamPorts)
  }

  /** Which FIFOs are listed: the declared ones and the external ones in use. */
  ghost predicate Listed(isTop: bool, streamPorts: set<string>, declared: set<string>, instances: Instances,
                         streams: map<string, Stream>)
  {
    && (forall f :: f in declared <==> f in streams && streams[f].declared)
    && (forall f :: f in streams ==> Connects(isTop, streamPorts, declared, f))
    && (forall f :: Connects(isTop, streamPorts, declared, f) && Bound(instances, f) ==> f in streams)
    && (forall f :: f in streams && !streams[f].declared ==> streams[f].producedBy.Some? || streams[f].consumedBy.Some?)
  }

  /** What binding formal `k` of a lane does. */
  ghost predicate BoundNext(now: Parse, now': Parse, inv: Invoke, k: nat)
    requires k < Matched(inv)
  {
    && SameButLast(now.instances, now'.instances, inv.task)
    && LastArgs(now'.instances, inv.task) == NextArgs(inv, k, LastArgs(now.instances, inv.task), now.cursor)
    && now'.cursor == NextCursor(inv, k, now.cursor)
  }

  /** The lane under construction: `start` with a new instance, then one formal more at each step. */
  ghost predicate IsTrace(start: Parse, trace: seq<Parse>, inv: Invoke) {
    && 0 < |trace| <= Matched(inv) + 1 && trace[0] == start
    && forall i :: 0 < i < |trace| ==> StepAt(trace, inv, i)
  }

  ghost predicate StepAt(trace: seq<Parse>, inv: Invoke, i: nat)
    requires 0 < i < |trace| <= Matched(inv) + 1
  {
    BoundNext(trace[i - 1], trace[i], inv, i - 1)
  }

  /** The last instance of the task has no arguments yet. */
  ghost predicate IsBegun(start: Parse, inv: Invoke) {
    inv.task in start.instances && |start.instances[inv.task]| > 0 && LastArgs(start.instances, inv.task) == map[]
  }

  lemma TraceGrows(start: Parse, trace: seq<Parse>, now: Parse, inv: Invoke)
    requires IsTrace(start, trace, inv) && |trace| <= Matched(inv)
    requires BoundNext(trace[|trace| - 1], now, inv, |trace| - 1)
    ensures IsTrace(start, trace + [now], inv)
  {
    var more := trace + [now];
    forall i | 0 < i < |more|
      ensures StepAt(more, inv, i)
    {
      assert i < |trace| ==> StepAt(trace, inv, i);
    }
  }

  /** `start` with these arguments in its last instance of the task, and the elements dealt so far. */
  ghost predicate LaneAt(start: Parse, inv: Invoke, now: Parse, args: Args, c: Cursor) {
    && SameButLast(start.instances, now.instances, inv.task)
    && LastArgs(now.instances, inv.task) == args && now.cursor == c
  }

  lemma LaneStep(start: Parse, trace: seq<Parse>, inv: Invoke, k: nat, args: Args, c: Cursor)
    requires 0 < k < |trace| <= Matched(inv) + 1 && StepAt(trace, inv, k)
    requires LaneAt(start, inv, trace[k - 1], args, c)
    ensures LaneAt(start, inv, trace[k], NextArgs(inv, k - 1, args, c), NextCursor(inv, k - 1, c))
  {
    StillSame(start.instances, trace[k - 1].instances, trace[k].instances, inv.task);
  }

  lemma {:induction false} TraceIs(start: Parse, trace: seq<Parse>, inv: Invoke, k: nat)
    requires IsTrace(start, trace, inv) && IsBegun(start, inv) && k < |trace|
    ensures LaneAt(start, inv, trace[k], LaneArgs(inv, k, start.cursor), LaneCursor(inv, k, start.cursor))
    decreases k
  {
    if k == 0 {
      SameAsItself(start.instances, inv.task);
    } else {
      TraceIs(start, trace, inv, k - 1);
      LaneStep(start, trace, inv, k, LaneArgs(inv, k - 1, start.cursor), LaneCursor(inv, k - 1, start.cursor));
    }
  }

  lemma LaneDone(was: Parse, start: Parse, trace: seq<Parse>, inv: Invoke)
    requires start == Parse(WithInstance(was.instances, inv.task), was.cursor)
    requires IsTrace(start, trace, inv) && |trace| == Matched(inv) + 1
    ensures var now, n := trace[Matched(inv)], Matched(inv);
            && now.instances == WithLane(was.instances, inv.task, LaneArgs(inv, n, was.cursor))
            && now.cursor == LaneCursor(inv, n, was.cursor)
  {
    var n := Matched(inv);
    TraceIs(start, trace, inv, n);
    LaneIsLast(was.instances, trace[n].instances, inv.task, LaneArgs(inv, n, was.cursor));
  }

  lemma SameAsItself(i: Instances, task: string)
    requires task in i && |i[task]| > 0
    ensures SameButLast(i, i, task)
  {
  }

  lemma StillSame(a: Instances, b: Instances, c: Instances, task: string)
    requires SameButLast(a, b, task) && SameButLast(b, c, task)
    ensures SameButLast(a, c, task)
  {
  }

  /** The arguments bound so far belong to the formals so far. */
  lemma {:induction false} LaneArgsAreOwn(start: Parse, trace: seq<Parse>, inv: Invoke, k: nat)
    requires IsTrace(start, trace, inv) && IsBegun(start, inv) && k < |trace| && DistinctPorts(inv.formals)
    ensures inv.task in trace[k].instances && |trace[k].instances[inv.task]| > 0
    ensures OnlyFrom(LastArgs(trace[k].instances, inv.task), inv.formals, k)
    decreases k
  {
    if k > 0 {
      assert StepAt(trace, inv, k);
      LaneArgsAreOwn(start, trace, inv, k - 1);
      FormalArgsAreOwn(LastArgs(trace[k - 1].instances, inv.task), inv.actuals[k - 1], inv.formals, k - 1,
                       Dealt(trace[k - 1].cursor, inv.formals[k - 1], inv.actuals[k - 1].name));
    }
  }

  lemma NextFormalIsFresh(start: Parse, trace: seq<Parse>, inv: Invoke)
    requires IsTrace(start, trace, inv) && IsBegun(start, inv) && |trace| <= Matched(inv) && DistinctPorts(inv.formals)
    ensures var k := |trace| - 1;
            var now := trace[k].instances;
            && inv.task in now && |now[inv.task]| > 0
            && inv.formals[k].port !in LastArgs(now, inv.task)
            && NoElements(LastArgs(now, inv.task), inv.formals[k].port)
  {
    var k := |trace| - 1;
    LaneArgsAreOwn(start, trace, inv, k);
    FreshFormal(LastArgs(trace[k].instances, inv.task), inv.formals, k);
  }

  lemma BindKeepsListed(isTop: bool, streamPorts: set<string>, declared: set<string>, instances: Instances,
                        streams: map<string, Stream>, task: string, port: string, fifo: string, input: bool)
    requires Listed(isTop, streamPorts, declared, instances, streams)
    requires task in instances && |instances[task]| > 0 && port !in LastArgs(instances, task)
    ensures var external := isTop && ArrayBaseName(fifo) in streamPorts;
            Listed(isTop, streamPorts, declared, WithArg(instances, task, port, Named(fifo, StreamKind(input))),
                   Marked(streams, external, fifo, LastOf(instances, task), input))
  {
    BindBounds(instances, task, port, fifo, input);
  }

  lemma BindKeepsAll(isTop: bool, streamPorts: set<string>, declared: set<string>, instances: Instances,
                     streams: map<string, Stream>, task: string, port: string, fifo: string, input: bool)
    requires StreamsInv(instances, streams) && Listed(isTop, streamPorts, declared, instances, streams)
    requires task in instances && |instances[task]| > 0 && port !in LastArgs(instances, task)
    ensures var external := isTop && ArrayBaseName(fifo) in streamPorts;
            var after := WithArg(instances, task, port, Named(fifo, StreamKind(input)));
            var streams' := Marked(streams, external, fifo, LastOf(instances, task), input);
            && StreamsInv(after, streams') && Listed(isTop, streamPorts, declared, after, streams')
            && (AllOneSite(after, streams') <==> AllOneSite(instances, streams) && !Taken(streams, fifo, input))
  {
    var external := isTop && ArrayBaseName(fifo) in streamPorts;
    var after := WithArg(instances, task, port, Named(fifo, StreamKind(input)));
    BindAddsOneSite(instances, task, port, fifo, input);
    MarkKeepsEnds(instances, after, streams, external, LastOf(instances, task), port, fifo, input);
    MarkKeepsOneSite(instances, after, streams, external, LastOf(instances, task), port, fifo, input);
    BindKeepsListed(isTop, streamPorts, declared, instances, streams, task, port, fifo, input);
  }

  class UpperTask {
    const isTop: bool
    /** Its own stream ports. */
    const streamPorts: set<string>
    const declared: set<string>
    var streams: map<string, Stream>
    var instances: Instances
    var errors: nat
    var istreamsPos: Positions
    var ostreamsPos: Positions
    var mmapsPos: Positions
    /** Some scalar argument was diagnosed. */
    ghost var rejected: bool

    constructor (isTop: bool, streamPorts: set<string>, declared: set<string>)
      ensures Inv() && !rejected && View() == Nothing
      ensures this.isTop == isTop && this.streamPorts == streamPorts && this.declared == declared
    {
      this.isTop, this.streamPorts, this.declared := isTop, streamPorts, declared;
      streams := map f | f in declared :: Stream(true, None, None);
      instances, errors := map[], 0;
      istreamsPos, ostreamsPos, mmapsPos := map[], map[], map[];
      rejected := false;
    }

    predicate External(fifo: string) {
      isTop && ArrayBaseName(fifo) in streamPorts
    }

    /** The recorded ends are real ones, and an error was reported exactly when a side was taken twice or a scalar
        argument was diagnosed. */
    ghost predicate Inv()
      reads this
    {
      && StreamsInv(instances, streams)
      && (errors == 0 <==> !rejected && AllOneSite(instances, streams))
      && Listed(isTop, streamPorts, declared, instances, streams)
    }

    function View(): Parse
      reads this
    {
      Parse(instances, Cursor(istreamsPos, ostreamsPos, mmapsPos))
    }

    predicate Building(task: string)
      reads this
    {
      task in instances && |instances[task]| > 0
    }

    /** Records the instance being built on one side of `fifo`, then binds `port` to it. */
    method BindStream(task: string, port: string, fifo: string, input: bool)
      requires Inv() && Building(task) && port !in LastArgs(instances, task)
      modifies `streams, `instances, `errors
      ensures Inv() && instances == WithArg(old(instances), task, port, Named(fifo, StreamKind(input)))
    {
      BindKeepsAll(isTop, streamPorts, declared, instances, streams, task, port, fifo, input);
      Record(fifo, LastOf(instances, task), input);
      instances := WithArg(instances, task, port, Named(fifo, StreamKind(input)));
    }

    /** Records `at` on one side of `fifo`, reporting a side that was taken. */
    method Record(fifo: string, at: Endpoint, input: bool)
      modifies `streams, `errors
      ensures streams == Marked(old(streams), External(fifo), fifo, at, input)
      ensures errors == old(errors) + if Taken(old(streams), fifo, input) then 1 else 0
    {
      if fifo !in streams && External(fifo) {
        streams := streams[fifo := Stream(false, None, None)];
      }
      if fifo !in streams {
        return;
      }
      if EndOf(streams[fifo], input).Some? {
        errors := errors + 1;
      }
      streams := streams[fifo := SetEnd(streams[fifo], at, input)];
    }

    method BindPlain(task: string, port: string, v: ArgValue)
      requires Inv() && Building(task) && port !in LastArgs(instances, task)
      requires v.Named? ==> v.kind != KIStream && v.kind != KOStream
      modifies `instances
      ensures Inv() && instances == WithArg(old(instances), task, port, v)
    {
      PlainArgKeepsSites(instances, streams, task, port, v);
      instances := WithArg(instances, task, port, v);
    }

    /** Binds the elements of a plural stream port. */
    method BindElements(task: string, a: Actual, port: string, pos: nat, n: nat, input: bool)
      requires Inv() && Building(task) && '[' !in port
      requires NoElements(LastArgs(instances, task), port)
      modifies `streams, `instances, `errors
      ensures Inv() && Building(task) && SameButLast(old(instances), instances, task)
      ensures LastArgs(instances, task) == LastArgs(old(instances), task) + ElementArgs(a, port, pos, n, StreamKind(input))
    {
      ghost var args := LastArgs(instances, task);
      for j := 0 to n
        invariant Inv() && Building(task) && SameButLast(old(instances), instances, task)
        invariant LastArgs(instances, task) == args + ElementArgs(a, port, pos, j, StreamKind(input))
      {
        NextElement(args, a, port, pos, j, StreamKind(input));
        BindStream(task, ArrayNameAt(port, j), ArrayElement(a, pos + j), input);
      }
    }

    /** Deals the elements that `f` takes of `name`; `pos` is the first of them. */
    method Deal(f: Formal, name: string) returns (pos: nat)
      modifies `istreamsPos, `ostreamsPos, `mmapsPos
      ensures pos == Dealt(old(View()).cursor, f, name) && View().cursor == Advanced(old(View()).cursor, f, name)
    {
      pos := Dealt(View().cursor, f, name);
      if f.kind.FMmap? {
        mmapsPos := mmapsPos[name := pos + 1];
      } else if f.kind.FIStream? || f.kind.FIStreams? {
        istreamsPos := istreamsPos[name := pos + Takes(f)];
      } else if f.kind.FOStream? || f.kind.FOStreams? {
        ostreamsPos := ostreamsPos[name := pos + Takes(f)];
      }
    }

    method BindScalar(task: string, a: Actual, port: string)
      requires Inv() && Building(task) && port !in LastArgs(instances, task)
      modifies `instances, `errors, `rejected
      ensures Inv() && Building(task) && SameButLast(old(instances), instances, task)
      ensures LastArgs(instances, task) == LastArgs(old(instances), task) + FormalArgs(a, Formal(port, FScalar), 0)
      ensures rejected == (old(rejected) || a.scalar.IsRejected?)
    {
      match a.scalar
      case IsConstant(v) => BindPlain(task, port, Constant(v));
      case IsParameter => BindPlain(task, port, Named(a.name, KScalar));
      case IsRejected => Reject();
    }

    /** Binds actual `a` to the ports of formal `f` of the instance being built. */
    method BindFormal(task: string, a: Actual, f: Formal)
      requires Inv() && Building(task) && '[' !in f.port
      requires f.port !in LastArgs(instances, task) && NoElements(LastArgs(instances, task), f.port)
      modifies this
      ensures Inv() && Building(task) && SameButLast(old(instances), instances, task)
      ensures LastArgs(instances, task) ==
              LastArgs(old(instances), task) + FormalArgs(a, f, Dealt(old(View()).cursor, f, a.name))
      ensures View().cursor == Advanced(old(View()).cursor, f, a.name)
      ensures rejected == (old(rejected) || (f.kind.FScalar? && a.scalar.IsRejected?))
    {
      var pos := Deal(f, a.name);
      BindPorts(task, a, f, pos);
    }

    method BindPorts(task: string, a: Actual, f: Formal, pos: nat)
      requires Inv() && Building(task) && '[' !in f.port
      requires f.port !in LastArgs(instances, task) && NoElements(LastArgs(instances, task), f.port)
      modifies `streams, `instances, `errors, `rejected
      ensures Inv() && Building(task) && SameButLast(old(instances), instances, task)
      ensures LastArgs(instances, task) == LastArgs(old(instances), task) + FormalArgs(a, f, pos)
      ensures rejected == (old(rejected) || (f.kind.FScalar? && a.scalar.IsRejected?))
    {
      match f.kind
      case FMmap => BindPlain(task, f.port, Named(ArrayElement(a, pos), KMmap));
      case FIStream => BindStream(task, f.port, ArrayElement(a, pos), true);
      case FOStream => BindStream(task, f.port, ArrayElement(a, pos), false);
      case FIStreams(n) => BindElements(task, a, f.port, pos, n, true);
      case FOStreams(n) => BindElements(task, a, f.port, pos, n, false);
      case FScalar => BindScalar(task, a, f.port);
    }

    /** Diagnoses a scalar argument. */
    method Reject()
      requires Inv()
      modifies `errors, `rejected
      ensures Inv() && errors == old(errors) + 1 && rejected
    {
      errors := errors + 1;
      rejected := true;
    }

    method NewInstance(task: string)
      requires Inv()
      modifies `instances
      ensures Inv() && Building(task) && LastArgs(instances, task) == map[]
      ensures instances == WithInstance(old(instances), task)
    {
      NewInstanceKeepsSites(instances, streams, task);
      instances := WithInstance(instances, task);
    }

    method BindNext(inv: Invoke, k: nat, ghost start: Parse, ghost trace: seq<Parse>)
      requires Inv() && DistinctPorts(inv.formals) && k < Matched(inv) && IsBegun(start, inv)
      requires IsTrace(start, trace, inv) && |trace| == k + 1 && trace[k] == View()
      modifies this
      ensures Inv() && IsTrace(start, trace + [View()], inv)
      ensures rejected == (old(rejected) || (inv.formals[k].kind.FScalar? && inv.actuals[k].scalar.IsRejected?))
    {
      NextFormalIsFresh(start, trace, inv);
      BindFormal(inv.task, inv.actuals[k], inv.formals[k]);
      TraceGrows(start, trace, View(), inv);
    }

    /** Binds the formals that have an actual, in order. */
    method BindAll(inv: Invoke) returns (ghost trace: seq<Parse>)
      requires Inv() && DistinctPorts(inv.formals) && IsBegun(View(), inv)
      modifies this
      ensures Inv() && IsTrace(old(View()), trace, inv) && |trace| == Matched(inv) + 1 && trace[Matched(inv)] == View()
      ensures rejected == (old(rejected) || LaneRejected(inv, Matched(inv)))
    {
      trace := [View()];
      var n := if |inv.actuals| < |inv.formals| then |inv.actuals| else |inv.formals|;
      for k := 0 to n
        invariant Inv() && IsTrace(old(View()), trace, inv) && |trace| == k + 1 && trace[k] == View()
        invariant rejected == (old(rejected) || LaneRejected(inv, k))
      {
        OneFormalMoreRejected(inv, k);
        BindNext(inv, k, old(View()), trace);
        trace := trace + [View()];
      }
    }

    /** One lane of an invoke: a new instance, its arguments bound formal by formal. */
    method ParseLane(inv: Invoke)
      requires Inv() && DistinctPorts(inv.formals)
      modifies this
      ensures Inv()
      ensures View().instances ==
              WithLane(old(View()).instances, inv.task, LaneArgs(inv, Matched(inv), old(View()).cursor))
      ensures View().cursor == LaneCursor(inv, Matched(inv), old(View()).cursor)
      ensures rejected == (old(rejected) || LaneRejected(inv, Matched(inv)))
    {
      NewInstance(inv.task);
      ghost var start := View();
      ghost var trace := BindAll(inv);
      LaneDone(old(View()), start, trace, inv);
    }

    method ParseLanes(inv: Invoke)
      requires Inv() && DistinctPorts(inv.formals)
      modifies this
      ensures Inv() && View() == AfterLanes(inv, inv.lanes, old(View()))
      ensures rejected == (old(rejected) || (inv.lanes > 0 && LaneRejected(inv, Matched(inv))))
    {
      for lane := 0 to inv.lanes
        invariant Inv() && View() == AfterLanes(inv, lane, old(View()))
        invariant rejected == (old(rejected) || (lane > 0 && LaneRejected(inv, Matched(inv))))
      {
        ParseLane(inv);
      }
    }

    method ParseInvocations(invokes: seq<Invoke>)
      requires Inv() && forall i :: 0 <= i < |invokes| ==> DistinctPorts(invokes[i].formals)
      modifies this
      ensures Inv() && View() == AfterInvokes(invokes, |invokes|, old(View()))
      ensures rejected == (old(rejected) || Rejected(invokes, |invokes|))
    {
      for i := 0 to |invokes|
        invariant Inv() && View() == AfterInvokes(invokes, i, old(View()))
        invariant rejected == (old(rejected) || Rejected(invokes, i))
      {
        OneInvokeMoreRejected(invokes, i);
        ParseLanes(invokes[i]);
      }
    }

    /** Drops the FIFOs never used and reports those with only one end. */
    method ValidateStreams()
      requires Inv()
      modifies `streams, `errors
      ensures streams == map f | f in old(streams) && !Unused(old(streams)[f]) :: old(streams)[f]
      ensures errors == 0 <==> old(errors) == 0 && forall f :: f in old(streams) ==> !Unbalanced(old(streams)[f])
    {
      var todo := streams.Keys;
      while todo != {}
        invariant todo <= old(streams).Keys && errors >= old(errors)
        invariant streams == map f | f in old(streams) && (f in todo || !Unused(old(streams)[f])) :: old(streams)[f]
        invariant errors == 0 <==> old(errors) == 0 && forall f :: f in old(streams) && f !in todo ==> !Unbalanced(old(streams)[f])
      {
        var f :| f in todo;
        todo := todo - {f};
        var s := streams[f];
        if s.declared {
          if s.producedBy.None? && s.consumedBy.None? {
            streams := streams - {f};
          } else if s.producedBy.Some? != s.consumedBy.Some? {
            errors := errors + 1;
          }
        }
      }
    }
  }

  // ----- the result

  /** Some port is bound to `fifo` on this side. */
  ghost predicate Used(instances: Instances, fifo: string, input: bool) {
    exists at, port :: Site(instances, at, port, fifo, input)
  }

  /** No scalar argument is diagnosed, no FIFO is taken twice on one side, and a declared FIFO has both ends or none. */
  ghost predicate IsSound(isTop: bool, streamPorts: set<string>, declared: set<string>, invokes: seq<Invoke>) {
    var instances := AfterInvokes(invokes, |invokes|, Nothing).instances;
    && !Rejected(invokes, |invokes|)
    && (forall f, input :: Connects(isTop, streamPorts, declared, f) ==> OneSite(instances, f, input))
    && (forall f :: f in declared ==> (Used(instances, f, false) <==> Used(instances, f, true)))
  }

  /** The FIFOs left are those in use, each with exactly the instances that are passed it as its ends. */
  ghost predicate IsConnected(isTop: bool, streamPorts: set<string>, declared: set<string>, instances: Instances,
                              streams: map<string, Stream>)
  {
    && (forall f :: f in streams <==> Connects(isTop, streamPorts, declared, f) && Bound(instances, f))
    && (forall f, input :: f in streams ==> EndExact(instances, f, EndOf(streams[f], input), input))
    && (forall f :: f in streams ==> (streams[f].declared <==> f in declared))
    && (forall f :: f in streams && f in declared ==> streams[f].producedBy.Some? && streams[f].consumedBy.Some?)
  }

  lemma UsedIffRecorded(instances: Instances, streams: map<string, Stream>, f: string, input: bool)
    requires StreamsInv(instances, streams) && f in streams
    ensures Used(instances, f, input) <==> EndOf(streams[f], input).Some?
    ensures Used(instances, f, input) ==> Bound(instances, f)
  {
    assert EndInv(instances, f, EndOf(streams[f], input), input);
  }

  /** The errors reported depend only on what the instances are passed. */
  lemma ErrorsAreSound(isTop: bool, streamPorts: set<string>, declared: set<string>, instances: Instances,
                       streams: map<string, Stream>)
    requires StreamsInv(instances, streams) && Listed(isTop, streamPorts, declared, instances, streams)
    ensures AllOneSite(instances, streams) <==>
            forall f, input :: Connects(isTop, streamPorts, declared, f) ==> OneSite(instances, f, input)
    ensures (forall f :: f in streams ==> !Unbalanced(streams[f])) <==>
            forall f :: f in declared ==> (Used(instances, f, false) <==> Used(instances, f, true))
  {
    forall f, input | Connects(isTop, streamPorts, declared, f) && f !in streams
      ensures OneSite(instances, f, input)
    {
      assert !Bound(instances, f);
    }
    forall f | f in streams
      ensures Used(instances, f, false) <==> streams[f].producedBy.Some?
      ensures Used(instances, f, true) <==> streams[f].consumedBy.Some?
    {
      UsedIffRecorded(instances, streams, f, false);
      UsedIffRecorded(instances, streams, f, true);
    }
  }

  lemma OneSiteIsExact(instances: Instances, streams: map<string, Stream>, f: string, input: bool)
    requires StreamsInv(instances, streams) && f in streams && OneSite(instances, f, input)
    ensures EndExact(instances, f, EndOf(streams[f], input), input)
  {
    var end := EndOf(streams[f], input);
    assert EndInv(instances, f, end, input);
    forall at
      ensures Binds(instances, at, f, input) <==> end == Some(at)
    {
      if Binds(instances, at, f, input) {
        var p :| Site(instances, at, p, f, input);
        var q :| Site(instances, end.value, q, f, input);
      }
    }
  }

  lemma UsedOnesAreConnected(isTop: bool, streamPorts: set<string>, declared: set<string>, instances: Instances,
                             streams: map<string, Stream>)
    requires StreamsInv(instances, streams) && Listed(isTop, streamPorts, declared, instances, streams)
    requires AllOneSite(instances, streams) && forall f :: f in streams ==> !Unbalanced(streams[f])
    ensures IsConnected(isTop, streamPorts, declared, instances,
                        map f | f in streams && !Unused(streams[f]) :: streams[f])
  {
    forall f, input | f in streams
      ensures EndExact(instances, f, EndOf(streams[f], input), input)
    {
      assert OneSite(instances, f, input);
      OneSiteIsExact(instances, streams, f, input);
    }
    forall f | f in streams
      ensures Bound(instances, f) <==> !Unused(streams[f])
    {
      UsedIffRecorded(instances, streams, f, false);
      UsedIffRecorded(instances, streams, f, true);
      if Bound(instances, f) {
        var at, port, input :| Site(instances, at, port, f, input);
        assert Used(instances, f, input);
      }
    }
  }

  /** Reads a whole upper task. */
  method ParseUpperTask(isTop: bool, streamPorts: set<string>, declared: set<string>, invokes: seq<Invoke>) returns (u: UpperTask)
    requires forall i :: 0 <= i < |invokes| ==> DistinctPorts(invokes[i].formals)
    ensures fresh(u)
    ensures u.instances == AfterInvokes(invokes, |invokes|, Nothing).instances
    ensures u.errors == 0 <==> IsSound(isTop, streamPorts, declared, invokes)
    ensures u.errors == 0 ==> IsConnected(isTop, streamPorts, declared, u.instances, u.streams)
  {
    u := new UpperTask(isTop, streamPorts, declared);
    u.ParseInvocations(invokes);
    ErrorsAreSound(isTop, streamPorts, declared, u.instances, u.streams);
    if u.errors == 0 && forall f :: f in u.streams ==> !Unbalanced(u.streams[f]) {
      UsedOnesAreConnected(isTop, streamPorts, declared, u.instances, u.streams);
    }
    u.ValidateStreams();
  }
}
