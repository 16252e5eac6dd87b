/** The PL half of a task graph whose AI Engine half has been split off. */
module AieProjection {
  import opened Wrappers
  import opened AieModel
  import opened AieFlatten
  import opened AieDerive

  datatype Projection = Failed | Projected(pl: TaskGraph)

  predicate IsTopNet(g: TaskGraph, f: Fifo) {
    EndpointIsAie(g, f.producedBy) && EndpointIsAie(g, f.consumedBy)
  }

  /** A PLIO keeps its PL end and loses its depth. */
  function Stripped(f: Fifo, input: bool): Fifo {
    if input then f.(depth := None, consumedBy := None) else f.(depth := None, producedBy := None)
  }

  function PlSide(f: Fifo, input: bool): Option<Endpoint> {
    if input then f.producedBy else f.consumedBy
  }

  /** The port of the PL instance at the other end of a PLIO. */
  ghost function PlPort(g: TaskGraph, top: Task, s: AieStream): Option<Port>
    requires s.kind.Plio?
  {
    if s.fifo in top.fifos && PlSide(top.fifos[s.fifo], s.kind.input).Some? then
      LinkPort(g, top, PlSide(top.fifos[s.fifo], s.kind.input).value, s.fifo)
    else None
  }

  /** The top-level stream port that a PLIO becomes, as wide as the port at its PL end. */
  ghost function PlioPort(g: TaskGraph, top: Task, s: AieStream): Port
    requires s.kind.Plio?
  {
    var p := PlPort(g, top, s);
    Port(s.fifo, if s.kind.input then Ostream else Istream, if p.Some? then p.value.width else 0, None, true)
  }

  predicate HasControl(ports: seq<Port>) {
    exists i :: 0 <= i < |ports| && (ports[i].cat.Scalar? || ports[i].cat.IsMmapLike())
  }

  // ----- what the projection is, stream list by stream list

  ghost function PlioPorts(g: TaskGraph, top: Task, streams: seq<AieStream>): seq<Port> {
    if streams == [] then [] else
      var s := streams[|streams| - 1];
      PlioPorts(g, top, streams[..|streams| - 1]) + if s.kind.Plio? then [PlioPort(g, top, s)] else []
  }

  ghost predicate Mentions(streams: seq<AieStream>, n: string) {
    exists i :: 0 <= i < |streams| && streams[i].fifo == n
  }

  ghost predicate HasPlio(streams: seq<AieStream>, n: string, input: bool) {
    exists i :: 0 <= i < |streams| && streams[i].fifo == n && streams[i].kind == Plio(input)
  }

  /** A PLIO has a PL end, and it is a port. */
  ghost predicate Connected(g: TaskGraph, top: Task, s: AieStream) {
    s.kind.Plio? && s.fifo in top.fifos ==> PlPort(g, top, s).Some?
  }

  /** The FIFOs of the top after the streams so far: a net between AI Engine tasks gone once mentioned, a PLIO
      stripped, all others as they were. */
  ghost predicate FifosProjected(g: TaskGraph, was: map<string, Fifo>, streams: seq<AieStream>, now: map<string, Fifo>) {
    && (forall n :: n in now <==> n in was && !(IsTopNet(g, was[n]) && Mentions(streams, n)))
    && (forall n, input :: n in now && HasPlio(streams, n, input) ==> now[n] == Stripped(was[n], input))
    && (forall n :: n in now && !HasPlio(streams, n, true) && !HasPlio(streams, n, false) ==> now[n] == was[n])
  }

  ghost predicate TopProjected(g: TaskGraph, was: Task, streams: seq<AieStream>, now: Task) {
    && now.upper == was.upper && now.aie == was.aie
    && now.ports == was.ports + PlioPorts(g, was, streams)
    && FifosProjected(g, was.fifos, streams, now.fifos)
  }

  ghost predicate IsProjection(g: TaskGraph, streams: seq<AieStream>, pl: TaskGraph) {
    && g.top in g.tasks && g.top in pl.tasks && pl.top == g.top
    && (forall t :: t in pl.tasks <==> t in g.tasks && !g.tasks[t].aie)
    && (forall t :: t in pl.tasks && t != g.top ==> pl.tasks[t] == g.tasks[t])
    && TopProjected(g, g.tasks[g.top], streams, pl.tasks[g.top])
    && pl.tasks[g.top].children.Keys == g.tasks[g.top].children.Keys * pl.tasks.Keys
    && (forall c :: c in pl.tasks[g.top].children ==> pl.tasks[g.top].children[c] == g.tasks[g.top].children[c])
  }

  // ----- one stream at a time

  ghost function ProjectStream(g: TaskGraph, original: Task, top: Task, s: AieStream): (r: Option<Task>) {
    if s.fifo !in top.fifos then Some(top)
    else
      var f := top.fifos[s.fifo];
      match s.kind
      case Net => Some(if IsTopNet(g, f) then top.(fifos := top.fifos - {s.fifo}) else top)
      case Plio(input) =>
        if PlSide(f, input).None? || LinkPort(g, original, PlSide(f, input).value, s.fifo).None? then None
        else
          var port := Port(s.fifo, if input then Ostream else Istream,
                           LinkPort(g, original, PlSide(f, input).value, s.fifo).value.width, None, true);
          Some(top.(fifos := top.fifos[s.fifo := Stripped(f, input)], ports := top.ports + [port]))
  }

  method ProjectOne(g: TaskGraph, original: Task, top: Task, s: AieStream) returns (r: Option<Task>)
    ensures r == ProjectStream(g, original, top, s)
  {
    if s.fifo !in top.fifos {
      return Some(top);
    }
    var f := top.fifos[s.fifo];
    match s.kind
    case Net => return Some(if IsTopNet(g, f) then top.(fifos := top.fifos - {s.fifo}) else top);
    case Plio(input) =>
      var end := PlSide(f, input);
      if end.None? {
        return None;
      }
      var link := FindLink(g, original, end.value, s.fifo);
      if link.None? {
        return None;
      }
      var port := Port(s.fifo, if input then Ostream else Istream, link.value.width, None, true);
      return Some(top.(fifos := top.fifos[s.fifo := Stripped(f, input)], ports := top.ports + [port]));
  }

  /** In a partition a PLIO names a FIFO of the top that is no net, and no other PLIO names it too. */
  ghost predicate PlioOnce(g: TaskGraph, top: Task, streams: seq<AieStream>) {
    && (forall i :: 0 <= i < |streams| && streams[i].kind.Plio? ==>
          streams[i].fifo in top.fifos && !IsTopNet(g, top.fifos[streams[i].fifo])
          && (PlSide(top.fifos[streams[i].fifo], streams[i].kind.input).Some? ==>
                !EndpointIsAie(g, PlSide(top.fifos[streams[i].fifo], streams[i].kind.input))))
    && (forall i, j :: 0 <= i < j < |streams| && streams[i].kind.Plio? && streams[j].kind.Plio? ==>
          streams[i].fifo != streams[j].fifo)
  }

  lemma PartitionPlioOnce(g: TaskGraph, kernels: seq<Kernel>, streams: seq<AieStream>)
    requires g.top in g.tasks && PartitionOk(g, kernels, streams)
    ensures PlioOnce(g, g.tasks[g.top], streams)
  {
    forall i | 0 <= i < |streams| && streams[i].kind.Plio?
      ensures streams[i].scope == [] && streams[i].fifo in g.tasks[g.top].fifos
    {
      assert streams[i].kind == KindOf(g, streams[i].scope, streams[i].fifo);
    }
  }

  lemma OneMoreStream(before: seq<AieStream>, s: AieStream)
    ensures forall n :: Mentions(before + [s], n) <==> Mentions(before, n) || n == s.fifo
    ensures forall n, input ::
              HasPlio(before + [s], n, input) <==> HasPlio(before, n, input) || (n == s.fifo && s.kind == Plio(input))
  {
    var after := before + [s];
    assert after[|before|] == s;
    forall n | Mentions(before, n)
      ensures Mentions(after, n)
    {
      var i :| 0 <= i < |before| && before[i].fifo == n;
      assert after[i].fifo == n;
    }
    forall n, input | HasPlio(before, n, input)
      ensures HasPlio(after, n, input)
    {
      var i :| 0 <= i < |before| && before[i].fifo == n && before[i].kind == Plio(input);
      assert after[i].fifo == n;
    }
  }

  lemma ProjectNet(g: TaskGraph, was: map<string, Fifo>, before: seq<AieStream>, now: map<string, Fifo>, s: AieStream)
    requires FifosProjected(g, was, before, now) && s.kind.Net?
    requires forall n, input :: n in was && HasPlio(before, n, input) ==> !IsTopNet(g, was[n])
    ensures FifosProjected(g, was, before + [s],
                           if s.fifo in now && IsTopNet(g, was[s.fifo]) then now - {s.fifo} else now)
  {
    OneMoreStream(before, s);
  }

  lemma ProjectPlio(g: TaskGraph, was: map<string, Fifo>, before: seq<AieStream>, now: map<string, Fifo>, s: AieStream)
    requires FifosProjected(g, was, before, now) && s.kind.Plio?
    requires s.fifo in was && !IsTopNet(g, was[s.fifo])
    requires !HasPlio(before, s.fifo, true) && !HasPlio(before, s.fifo, false)
    ensures s.fifo in now && now[s.fifo] == was[s.fifo]
    ensures FifosProjected(g, was, before + [s], now[s.fifo := Stripped(was[s.fifo], s.kind.input)])
  {
    OneMoreStream(before, s);
  }

  /** The step taken for stream `i` of a partition: it fails exactly when that PLIO's PL end is missing or no port. */
  lemma ProjectStep(g: TaskGraph, was: Task, streams: seq<AieStream>, i: nat, now: Task)
    requires PlioOnce(g, was, streams) && i < |streams| && TopProjected(g, was, streams[..i], now)
    ensures var r := ProjectStream(g, was, now, streams[i]);
            && (r.Some? <==> Connected(g, was, streams[i]))
            && (r.Some? ==> TopProjected(g, was, streams[..i + 1], r.value) && r.value.children == now.children)
  {
    var s := streams[i];
    var before := streams[..i];
    assert streams[..i + 1] == before + [s];
    forall n, input | n in was.fifos && HasPlio(before, n, input)
      ensures !IsTopNet(g, was.fifos[n])
    {
      var j :| 0 <= j < |before| && before[j].fifo == n && before[j].kind == Plio(input);
      assert before[j] == streams[j];
    }
    if s.kind.Net? {
      NetStep(g, was, before, now, s);
    } else {
      assert forall j :: 0 <= j < i && streams[j].kind.Plio? ==> before[j].fifo != s.fifo;
      PlioStep(g, was, before, now, s);
    }
  }

  lemma NetStep(g: TaskGraph, was: Task, before: seq<AieStream>, now: Task, s: AieStream)
    requires TopProjected(g, was, before, now) && s.kind.Net?
    requires forall n, input :: n in was.fifos && HasPlio(before, n, input) ==> !IsTopNet(g, was.fifos[n])
    ensures var r := ProjectStream(g, was, now, s);
            r.Some? && TopProjected(g, was, before + [s], r.value) && r.value.children == now.children
  {
    ProjectNet(g, was.fifos, before, now.fifos, s);
    assert (before + [s])[..|before|] == before;
    if s.fifo in now.fifos {
      NetStepAgrees(g, was, before, now, s);
    }
  }

  lemma PlioStep(g: TaskGraph, was: Task, before: seq<AieStream>, now: Task, s: AieStream)
    requires TopProjected(g, was, before, now) && s.kind.Plio?
    requires s.fifo in was.fifos && !IsTopNet(g, was.fifos[s.fifo])
    requires !HasPlio(before, s.fifo, true) && !HasPlio(before, s.fifo, false)
    ensures var r := ProjectStream(g, was, now, s);
            && (r.Some? <==> Connected(g, was, s))
            && (r.Some? ==> TopProjected(g, was, before + [s], r.value) && r.value.children == now.children)
  {
    ProjectPlio(g, was.fifos, before, now.fifos, s);
    assert (before + [s])[..|before|] == before;
    assert now.ports + [PlioPort(g, was, s)] == was.ports + (PlioPorts(g, was, before) + [PlioPort(g, was, s)]);
  }

  /** A FIFO already stripped is no net, so looking at it as it now is says the same as looking at the original. */
  lemma NetStepAgrees(g: TaskGraph, was: Task, before: seq<AieStream>, now: Task, s: AieStream)
    requires FifosProjected(g, was.fifos, before, now.fifos) && s.fifo in now.fifos
    ensures IsTopNet(g, now.fifos[s.fifo]) ==> IsTopNet(g, was.fifos[s.fifo])
    ensures (forall input :: HasPlio(before, s.fifo, input) ==> !IsTopNet(g, was.fifos[s.fifo])) ==>
              IsTopNet(g, now.fifos[s.fifo]) == IsTopNet(g, was.fifos[s.fifo])
  {
    if HasPlio(before, s.fifo, true) {
      assert now.fifos[s.fifo] == Stripped(was.fifos[s.fifo], true);
    } else if HasPlio(before, s.fifo, false) {
      assert now.fifos[s.fifo] == Stripped(was.fifos[s.fifo], false);
    }
  }

  method PlProjection(g: TaskGraph, ghost kernels: seq<Kernel>, streams: seq<AieStream>) returns (r: Projection)
    requires g.top in g.tasks ==> PartitionOk(g, kernels, streams)
    ensures r.Projected? <==>
            && g.top in g.tasks && !g.tasks[g.top].aie
            && (forall i :: 0 <= i < |streams| ==> Connected(g, g.tasks[g.top], streams[i]))
            && HasControl(g.tasks[g.top].ports)
    ensures r.Projected? ==> IsProjection(g, streams, r.pl)
  {
    var plTasks := map t | t in g.tasks && !g.tasks[t].aie :: g.tasks[t];
    if g.top !in g.tasks || g.top !in plTasks {
      return Failed;
    }
    var original := g.tasks[g.top];
    PartitionPlioOnce(g, kernels, streams);
    var top := original.(children := map c | c in original.children && c in plTasks :: original.children[c]);
    for i := 0 to |streams|
      invariant TopProjected(g, original, streams[..i], top)
      invariant top.children == map c | c in original.children && c in plTasks :: original.children[c]
      invariant forall j :: 0 <= j < i ==> Connected(g, original, streams[j])
    {
      ProjectStep(g, original, streams, i, top);
      var next := ProjectOne(g, original, top, streams[i]);
      if next.None? {
        return Failed;
      }
      top := next.value;
    }
    assert streams[..|streams|] == streams;
    ControlIsOwn(g, original, streams);
    if !HasControl(top.ports) {
      return Failed;
    }
    return Projected(TaskGraph(g.top, plTasks[g.top := top]));
  }

  /** The gained ports are streams, so the control interface comes from a port the top had before. */
  lemma ControlIsOwn(g: TaskGraph, top: Task, streams: seq<AieStream>)
    ensures HasControl(top.ports + PlioPorts(g, top, streams)) <==> HasControl(top.ports)
  {
    var ports, gained := top.ports, PlioPorts(g, top, streams);
    var all := ports + gained;
    PlioPortsAreStreams(g, top, streams);
    assert forall i :: 0 <= i < |ports| ==> all[i] == ports[i];
    assert forall i :: |ports| <= i < |all| ==> all[i] == gained[i - |ports|];
  }

  lemma {:induction false} PlioPortsAreStreams(g: TaskGraph, top: Task, streams: seq<AieStream>)
    ensures forall i :: 0 <= i < |PlioPorts(g, top, streams)| ==> PlioPorts(g, top, streams)[i].cat.IsStream()
  {
    if streams != [] {
      PlioPortsAreStreams(g, top, streams[..|streams| - 1]);
    }
  }

  // ----- the projected graph is closed

  /** Instance `h` passes FIFO `n` to one of its stream ports of the given direction. */
  ghost predicate Passes(t: Task, h: Hop, n: string, input: bool) {
    && HopOf(t, h)
    && exists port :: PassesPort(t.children[h.task][h.index], port, n, input)
  }

  predicate PassesPort(inst: Instance, port: string, n: string, input: bool) {
    && port in inst.args && inst.args[port].source == Name(n)
    && inst.args[port].cat.IsStream() && inst.args[port].cat.IsInput() == input
  }

  ghost predicate EndWired(t: Task, n: string, end: Option<Endpoint>, input: bool) {
    forall h :: Passes(t, h, n, input) <==> end == Some(Endpoint(h.task, h.index))
  }

  /** The ends recorded for every FIFO are exactly the instances that are passed it, as the frontend leaves them. */
  ghost predicate Wired(t: Task) {
    forall n :: n in t.fifos ==> EndWired(t, n, t.fifos[n].producedBy, false) && EndWired(t, n, t.fifos[n].consumedBy, true)
  }

  ghost predicate WellFormed(g: TaskGraph) {
    forall t :: t in g.tasks ==> Wired(g.tasks[t]) && g.tasks[t].children.Keys <= g.tasks.Keys
  }

  /** A FIFO of the top with an AI Engine end is a stream of the partition. */
  lemma AieEndIsListed(g: TaskGraph, kernels: seq<Kernel>, streams: seq<AieStream>, n: string, end: Option<Endpoint>, input: bool)
    requires IsPartition(g, kernels, streams) && WellFormed(g) && n in g.tasks[g.top].fifos
    requires end == if input then g.tasks[g.top].fifos[n].consumedBy else g.tasks[g.top].fifos[n].producedBy
    requires EndpointIsAie(g, end)
    ensures HasStream(streams, [], n)
  {
    var top := g.tasks[g.top];
    var h := Hop(end.value.task, end.value.index);
    assert EndWired(top, n, end, input) && Passes(top, h, n, input);
    var port :| PassesPort(top.children[h.task][h.index], port, n, input);
    PassedIsUsed(g, h, port, n, input);
    assert UsesListed(g, streams, h);
  }

  /** An AI Engine instance of the top that is passed a FIFO uses it. */
  lemma PassedIsUsed(g: TaskGraph, h: Hop, port: string, n: string, input: bool)
    requires g.top in g.tasks && SubtreeOk(g, []) && h.task in g.tasks && g.tasks[h.task].aie
    requires HopOf(g.tasks[g.top], h) && PassesPort(g.tasks[g.top].children[h.task][h.index], port, n, input)
    ensures Descends(g, [], h) && TopUse(g, h, port, n)
  {
    ChildPath(g, [], h);
    assert [] + [h] == [h] && [h][..0] == [];
    assert [] <= [h] && CallOk(g, [h]);
  }

  /** A stream of the top has an AI Engine end. */
  lemma ListedHasAieEnd(g: TaskGraph, kernels: seq<Kernel>, streams: seq<AieStream>, i: nat)
    requires IsPartition(g, kernels, streams) && WellFormed(g) && i < |streams| && streams[i].scope == []
    ensures var n := streams[i].fifo;
            && n in g.tasks[g.top].fifos
            && (EndpointIsAie(g, g.tasks[g.top].fifos[n].producedBy) || EndpointIsAie(g, g.tasks[g.top].fifos[n].consumedBy))
  {
    var top := g.tasks[g.top];
    var n := streams[i].fifo;
    var h, port :| TopUse(g, h, port, n);
    assert [h][..0] == [];
    var arg := InstanceAt(g, [h]).args[port];
    assert PassesPort(top.children[h.task][h.index], port, n, arg.cat.IsInput());
    assert Passes(top, h, n, arg.cat.IsInput());
  }

  lemma HasPlioIsOneAieEnd(g: TaskGraph, kernels: seq<Kernel>, streams: seq<AieStream>, n: string, input: bool)
    requires IsPartition(g, kernels, streams) && WellFormed(g) && n in g.tasks[g.top].fifos
    ensures var f := g.tasks[g.top].fifos[n];
            HasPlio(streams, n, input) <==>
              && EndpointIsAie(g, if input then f.consumedBy else f.producedBy)
              && !EndpointIsAie(g, if input then f.producedBy else f.consumedBy)
  {
    var f := g.tasks[g.top].fifos[n];
    if HasPlio(streams, n, input) {
      var i :| 0 <= i < |streams| && streams[i].fifo == n && streams[i].kind == Plio(input);
      assert streams[i].kind == KindOf(g, streams[i].scope, n);
      ListedHasAieEnd(g, kernels, streams, i);
    }
    if EndpointIsAie(g, if input then f.consumedBy else f.producedBy)
      && !EndpointIsAie(g, if input then f.producedBy else f.consumedBy) {
      AieEndIsListed(g, kernels, streams, n, if input then f.consumedBy else f.producedBy, input);
      var i :| 0 <= i < |streams| && streams[i].scope == [] && streams[i].fifo == n;
      assert streams[i].kind == KindOf(g, [], n) == Plio(input);
    }
  }

  /** What becomes of each FIFO of the top: two AI Engine ends, gone; one, only the PL end is kept; none, unchanged.
      A nested net of the same name makes no difference. */
  lemma FifoFate(g: TaskGraph, kernels: seq<Kernel>, streams: seq<AieStream>, pl: TaskGraph, n: string)
    requires IsPartition(g, kernels, streams) && WellFormed(g) && IsProjection(g, streams, pl)
    requires n in g.tasks[g.top].fifos
    ensures var f := g.tasks[g.top].fifos[n];
            var fifos := pl.tasks[g.top].fifos;
            var producerAie, consumerAie := EndpointIsAie(g, f.producedBy), EndpointIsAie(g, f.consumedBy);
            && (n in fifos <==> !(producerAie && consumerAie))
            && (!producerAie && !consumerAie ==> fifos[n] == f)
            && (!producerAie && consumerAie ==> fifos[n] == Fifo(None, f.producedBy, None))
            && (producerAie && !consumerAie ==> fifos[n] == Fifo(None, None, f.consumedBy))
  {
    var f := g.tasks[g.top].fifos[n];
    HasPlioIsOneAieEnd(g, kernels, streams, n, true);
    HasPlioIsOneAieEnd(g, kernels, streams, n, false);
    if IsTopNet(g, f) {
      AieEndIsListed(g, kernels, streams, n, f.producedBy, false);
      var i :| 0 <= i < |streams| && streams[i].scope == [] && streams[i].fifo == n;
      assert Mentions(streams, n);
    }
    FateByEnds(g, g.tasks[g.top].fifos, streams, pl.tasks[g.top].fifos, n);
  }

  lemma FateByEnds(g: TaskGraph, was: map<string, Fifo>, streams: seq<AieStream>, now: map<string, Fifo>, n: string)
    requires FifosProjected(g, was, streams, now) && n in was && (IsTopNet(g, was[n]) ==> Mentions(streams, n))
    requires forall input :: HasPlio(streams, n, input) <==>
               && EndpointIsAie(g, if input then was[n].consumedBy else was[n].producedBy)
               && !EndpointIsAie(g, if input then was[n].producedBy else was[n].consumedBy)
    ensures var f := was[n];
            var producerAie, consumerAie := EndpointIsAie(g, f.producedBy), EndpointIsAie(g, f.consumedBy);
            && (n in now <==> !(producerAie && consumerAie))
            && (!producerAie && !consumerAie ==> now[n] == f)
            && (!producerAie && consumerAie ==> now[n] == Fifo(None, f.producedBy, None))
            && (producerAie && !consumerAie ==> now[n] == Fifo(None, None, f.consumedBy))
  {
    assert HasPlio(streams, n, true) ==> n in now ==> now[n] == Stripped(was[n], true);
    assert HasPlio(streams, n, false) ==> n in now ==> now[n] == Stripped(was[n], false);
  }

  ghost predicate EndKnown(pl: TaskGraph, e: Option<Endpoint>) {
    e.Some? ==> e.value.task in pl.tasks
  }

  ghost predicate ClosedTask(pl: TaskGraph, t: Task) {
    && t.children.Keys <= pl.tasks.Keys
    && forall n :: n in t.fifos ==> EndKnown(pl, t.fifos[n].producedBy) && EndKnown(pl, t.fifos[n].consumedBy)
  }

  lemma WiredEndIsChild(t: Task, n: string)
    requires Wired(t) && n in t.fifos
    ensures t.fifos[n].producedBy.Some? ==> t.fifos[n].producedBy.value.task in t.children
    ensures t.fifos[n].consumedBy.Some? ==> t.fifos[n].consumedBy.value.task in t.children
  {
    var f := t.fifos[n];
    if f.producedBy.Some? {
      assert Passes(t, Hop(f.producedBy.value.task, f.producedBy.value.index), n, false);
    }
    if f.consumedBy.Some? {
      assert Passes(t, Hop(f.consumedBy.value.task, f.consumedBy.value.index), n, true);
    }
  }

  /** No child and no FIFO end of the projected graph names a task that was removed. */
  lemma ProjectionIsClosed(g: TaskGraph, kernels: seq<Kernel>, streams: seq<AieStream>, pl: TaskGraph, t: string)
    requires IsPartition(g, kernels, streams) && WellFormed(g) && IsProjection(g, streams, pl)
    requires t in pl.tasks
    ensures ClosedTask(pl, pl.tasks[t])
  {
    forall n | n in pl.tasks[t].fifos
      ensures EndKnown(pl, pl.tasks[t].fifos[n].producedBy) && EndKnown(pl, pl.tasks[t].fifos[n].consumedBy)
    {
      assert n in g.tasks[t].fifos;
      WiredEndIsChild(g.tasks[t], n);
      if t == g.top {
        FifoFate(g, kernels, streams, pl, n);
      } else {
        assert PlTaskOk(g, t);
      }
    }
    if t != g.top {
      assert PlTaskOk(g, t);
    }
  }

  /** The partition has a stream that deals with FIFO `n` of the top. */
  ghost predicate Listed(g: TaskGraph, streams: seq<AieStream>, n: string)
    requires g.top in g.tasks && n in g.tasks[g.top].fifos
  {
    if IsTopNet(g, g.tasks[g.top].fifos[n]) then Mentions(streams, n) else HasStream(streams, [], n)
  }

  ghost predicate EndsKnown(g: TaskGraph, fifos: map<string, Fifo>) {
    forall n :: n in fifos ==> EndKnown(g, fifos[n].producedBy) && EndKnown(g, fifos[n].consumedBy)
  }

  ghost predicate AieEndsListed(g: TaskGraph, streams: seq<AieStream>)
    requires g.top in g.tasks
  {
    var fifos := g.tasks[g.top].fifos;
    forall n :: n in fifos && (EndpointIsAie(g, fifos[n].producedBy) || EndpointIsAie(g, fifos[n].consumedBy)) ==>
      Listed(g, streams, n)
  }

  lemma PlioIsStripped(g: TaskGraph, kernels: seq<Kernel>, streams: seq<AieStream>, pl: TaskGraph, n: string, input: bool)
    requires g.top in g.tasks && PartitionOk(g, kernels, streams) && IsProjection(g, streams, pl)
    requires EndsKnown(g, g.tasks[g.top].fifos) && n in g.tasks[g.top].fifos && HasPlio(streams, n, input)
    ensures !IsTopNet(g, g.tasks[g.top].fifos[n]) && HasStream(streams, [], n)
    ensures n in pl.tasks[g.top].fifos
    ensures EndKnown(pl, pl.tasks[g.top].fifos[n].producedBy) && EndKnown(pl, pl.tasks[g.top].fifos[n].consumedBy)
  {
    var i :| 0 <= i < |streams| && streams[i].fifo == n && streams[i].kind == Plio(input);
    assert streams[i].kind == KindOf(g, streams[i].scope, n);
    assert pl.tasks[g.top].fifos[n] == Stripped(g.tasks[g.top].fifos[n], input);
  }

  /** Of a graph not known to be wired: the projected top is closed if and only if the partition lists every FIFO
      of the top that has an AI Engine end. */
  lemma TopClosedIffListed(g: TaskGraph, kernels: seq<Kernel>, streams: seq<AieStream>, pl: TaskGraph)
    requires g.top in g.tasks && PartitionOk(g, kernels, streams) && IsProjection(g, streams, pl)
    requires EndsKnown(g, g.tasks[g.top].fifos)
    ensures EndsKnown(pl, pl.tasks[g.top].fifos) <==> AieEndsListed(g, streams)
  {
    var was, now := g.tasks[g.top].fifos, pl.tasks[g.top].fifos;
    forall n | n in was
      ensures (n in now ==> EndKnown(pl, now[n].producedBy) && EndKnown(pl, now[n].consumedBy)) <==>
              (EndpointIsAie(g, was[n].producedBy) || EndpointIsAie(g, was[n].consumedBy) ==> Listed(g, streams, n))
    {
      if input :| HasPlio(streams, n, input) {
        PlioIsStripped(g, kernels, streams, pl, n, input);
      } else if HasStream(streams, [], n) {
        var i :| 0 <= i < |streams| && streams[i].scope == [] && streams[i].fifo == n;
        assert streams[i].kind == KindOf(g, [], n);
        assert HasPlio(streams, n, !EndpointIsAie(g, was[n].producedBy)) || Mentions(streams, n);
      }
    }
  }

  ghost predicate HasPort(ports: seq<Port>, n: string) {
    exists k :: 0 <= k < |ports| && ports[k].name == n
  }

  ghost predicate NamesDistinct(ports: seq<Port>) {
    forall j, k :: 0 <= j < k < |ports| ==> ports[j].name != ports[k].name
  }

  ghost predicate IsPlio(streams: seq<AieStream>, n: string) {
    HasPlio(streams, n, true) || HasPlio(streams, n, false)
  }

  lemma OneMorePort(ports: seq<Port>, p: Port)
    ensures forall n :: HasPort(ports + [p], n) <==> HasPort(ports, n) || n == p.name
    ensures NamesDistinct(ports + [p]) <==> NamesDistinct(ports) && !HasPort(ports, p.name)
  {
    var more := ports + [p];
    assert more[|ports|] == p;
    assert forall k :: 0 <= k < |ports| ==> more[k] == ports[k];
    if NamesDistinct(more) {
      assert NamesDistinct(ports);
    }
  }

  lemma {:induction false} PlioPortNames(g: TaskGraph, top: Task, streams: seq<AieStream>)
    requires PlioOnce(g, top, streams)
    ensures forall n :: HasPort(PlioPorts(g, top, streams), n) <==> IsPlio(streams, n)
    ensures NamesDistinct(PlioPorts(g, top, streams))
  {
    if streams != [] {
      var front, s := streams[..|streams| - 1], streams[|streams| - 1];
      PlioPortNames(g, top, front);
      assert streams == front + [s];
      OneMoreStream(front, s);
      if s.kind.Plio? {
        NewPlio(g, top, front, s);
        OneMorePort(PlioPorts(g, top, front), PlioPort(g, top, s));
      } else {
        assert PlioPorts(g, top, streams) == PlioPorts(g, top, front);
      }
    }
  }

  /** No two PLIOs have one name. */
  lemma NewPlio(g: TaskGraph, top: Task, front: seq<AieStream>, s: AieStream)
    requires PlioOnce(g, top, front + [s]) && s.kind.Plio?
    ensures !IsPlio(front, s.fifo)
  {
    var all := front + [s];
    forall i | 0 <= i < |front| && front[i].kind.Plio?
      ensures front[i].fifo != s.fifo
    {
      assert all[i] == front[i] && all[|front|] == s;
    }
  }

  /** The ports the top gains: exactly one for each FIFO with one AI Engine end, named after it, and no other. */
  lemma OnePortPerPlio(g: TaskGraph, kernels: seq<Kernel>, streams: seq<AieStream>, pl: TaskGraph)
    requires IsPartition(g, kernels, streams) && WellFormed(g) && IsProjection(g, streams, pl)
    ensures g.tasks[g.top].ports <= pl.tasks[g.top].ports
    ensures var gained := pl.tasks[g.top].ports[|g.tasks[g.top].ports|..];
            && NamesDistinct(gained)
            && forall n :: HasPort(gained, n) <==>
                 && n in g.tasks[g.top].fifos
                 && EndpointIsAie(g, g.tasks[g.top].fifos[n].producedBy) != EndpointIsAie(g, g.tasks[g.top].fifos[n].consumedBy)
  {
    var top := g.tasks[g.top];
    assert pl.tasks[g.top].ports[|top.ports|..] == PlioPorts(g, top, streams);
    PartitionPlioOnce(g, kernels, streams);
    PlioPortNames(g, top, streams);
    forall n
      ensures IsPlio(streams, n) <==>
                n in top.fifos && EndpointIsAie(g, top.fifos[n].producedBy) != EndpointIsAie(g, top.fifos[n].consumedBy)
    {
      if n in top.fifos {
        HasPlioIsOneAieEnd(g, kernels, streams, n, true);
        HasPlioIsOneAieEnd(g, kernels, streams, n, false);
      }
    }
  }
}
