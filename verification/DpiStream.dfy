/** One simulator port over a shared-memory queue: the compact DPI bytes on one side, padded host tokens on
    the other, and the per-cycle input and output steps. */
module DpiStreams {
  import opened QueueLayout
  import opened SharedMemoryQueues

  function Zeros(n: nat): (z: seq<Byte>) {
    seq(n, _ => 0)
  }

  /** A host token as it fills a buffer of `n` bytes (and, the other way, DPI bytes as they fill a token). */
  function Fit(bytes: seq<Byte>, n: nat): (r: seq<Byte>)
    ensures |r| == n
  {
    if |bytes| >= n then bytes[..n] else bytes + Zeros(n - |bytes|)
  }

  /** Bytes survive being carried in a token of `width` bytes exactly when they fit or only zeros are cut. */
  lemma CarriedIntact(bytes: seq<Byte>, width: nat)
    ensures Fit(Fit(bytes, width), |bytes|) == bytes <==> forall i :: width <= i < |bytes| ==> bytes[i] == 0
  {
    var back := Fit(Fit(bytes, width), |bytes|);
    forall i | 0 <= i < |bytes|
      ensures back[i] == if i < width then bytes[i] else 0
    {
    }
  }

  class DpiStream {
    const queue: SharedMemoryQueue
    const bytes: array<Byte>
    const dpiWidth: nat
    var lastIstreamValid: bool

    ghost predicate Valid()
      reads this, bytes, queue, queue.mem
    {
      queue.Valid() && bytes.Length == queue.l.width && bytes != queue.mem
    }

    constructor (q: SharedMemoryQueue, dpi: nat)
      requires q.Valid()
      ensures Valid() && queue == q && dpiWidth == dpi && !lastIstreamValid && fresh(bytes)
      ensures queue.Contents() == old(q.Contents())
    {
      queue := q;
      bytes := new Byte[q.l.width](_ => 0);
      dpiWidth := dpi;
      lastIstreamValid := false;
    }

    method CopyToDpi(buf: array<Byte>)
      requires Valid() && buf != bytes && buf != queue.mem
      modifies buf
      ensures buf[..] == Fit(bytes[..], buf.Length)
    {
      var n := if buf.Length < bytes.Length then buf.Length else bytes.Length;
      CopyFromSlice(buf, 0, bytes[..n]);
      CopyFromSlice(buf, n, Zeros(buf.Length - n));
    }

    method PushFromDpi(data: seq<Byte>) returns (r: PushResult)
      requires Valid() && |data| == dpiWidth
      modifies bytes, queue`tail, queue.mem
      ensures Valid()
      ensures r == if |old(queue.Contents())| == queue.l.depth then QueueFull
                   else Pushed(|queue.Contents()| == queue.l.depth)
      ensures queue.Contents() ==
              old(queue.Contents()) + if r.Pushed? then [Fit(data, queue.l.width)] else []
    {
      var n := if bytes.Length < dpiWidth then bytes.Length else dpiWidth;
      CopyFromSlice(bytes, 0, data[..n]);
      CopyFromSlice(bytes, n, Zeros(bytes.Length - n));
      assert bytes[..] == Fit(data, queue.l.width);
      assert queue.mem[..] == old(queue.mem[..]);
      r := queue.TryPushCheckFull(bytes[..]);
    }

    /** One input cycle: consume what the previous cycle presented, then present the new front. */
    method IstreamStep(consume: bool, out: array<Byte>) returns (valid: bool)
      requires Valid() && out.Length == dpiWidth && out != bytes && out != queue.mem
      modifies `lastIstreamValid, bytes, queue`head, out
      ensures Valid()
      ensures queue.Contents() ==
              if old(lastIstreamValid) && consume && old(queue.Contents()) != [] then old(queue.Contents())[1..]
              else old(queue.Contents())
      ensures valid == lastIstreamValid == (queue.Contents() != [])
      ensures out[..] == if valid then Fit(queue.Contents()[0], dpiWidth) else old(out[..])
    {
      if lastIstreamValid && consume {
        var popped := queue.PopInto(bytes);
      }
      valid := queue.PeekInto(bytes);
      if !valid {
        lastIstreamValid := false;
        return false;
      }
      assert bytes[..] == queue.Contents()[0];
      ghost var q := queue.Contents();
      CopyToDpi(out);
      assert queue.Contents() == q;
      lastIstreamValid := true;
    }

    /** One output cycle: write `data` if asked to, then say whether the next cycle may write. */
    method OstreamStep(write: bool, data: seq<Byte>) returns (ready: bool)
      requires Valid() && |data| == dpiWidth
      modifies bytes, queue`tail, queue.mem
      ensures Valid()
      ensures queue.Contents() == old(queue.Contents()) +
              if write && |old(queue.Contents())| < queue.l.depth then [Fit(data, queue.l.width)] else []
      ensures ready <==> |queue.Contents()| < queue.l.depth
    {
      var knownFull := false;
      if write {
        var r := PushFromDpi(data);
        knownFull := if r.Pushed? then r.fullAfter else true;
      }
      var full := queue.IsFull();
      ready := !knownFull && !full;
    }
  }
}

/** Runs of input cycles while another process pushes at any point, also in the middle of a cycle. */
module IstreamRuns {
  import opened Wrappers
  import opened QueueLayout
  import opened FifoSpec

  datatype Cycle = Cycle(consume: bool, out: Option<Token>)

  /** `pending` is the consume flag of a cycle that is past its pop and not yet past its peek.
      `arrived`, `popped` and `cycles` are histories. */
  datatype State = State(
    queue: seq<Token>, lastValid: bool, pending: Option<bool>,
    arrived: seq<Token>, popped: seq<Token>, cycles: seq<Cycle>)

  /** Every queue access carries the event it produced, one that `FifoSpec.Allows`. */
  datatype Action =
    | Arrive(e: Event)
    | PopPhase(consume: bool, e: Event)
    | PeekPhase(e: Event)

  const Start := State([], false, None, [], [], [])

  ghost predicate Enabled(l: Layout, s: State, a: Action) {
    match a
    case Arrive(e) => e.Accepted? && Allows(l, s.queue, e, s.queue + [e.token])
    case PopPhase(consume, e) =>
      s.pending == None &&
      if s.lastValid && consume then (e.Popped? || e.SawEmpty?) && Allows(l, s.queue, e, QueueAfter(s.queue, e))
      else e == Internal
    case PeekPhase(e) =>
      s.pending.Some? && (e.Peeked? || e.SawEmpty?) && Allows(l, s.queue, e, s.queue)
  }

  function QueueAfter(q: seq<Token>, e: Event): seq<Token> {
    if e.Popped? && q != [] then q[1..] else q
  }

  function Next(s: State, a: Action): State {
    match a
    case Arrive(e) =>
      if e.Accepted? then s.(queue := s.queue + [e.token], arrived := s.arrived + [e.token]) else s
    case PopPhase(consume, e) =>
      s.(queue := QueueAfter(s.queue, e), pending := Some(consume),
         popped := s.popped + if e.Popped? then [e.token] else [])
    case PeekPhase(e) =>
      var out := if e.Peeked? then Some(e.token) else None;
      s.(lastValid := out.Some?, pending := None,
         cycles := s.cycles + [Cycle(s.pending == Some(true), out)])
  }

  function Run(actions: seq<Action>): State {
    if actions == [] then Start else Next(Run(actions[..|actions| - 1]), actions[|actions| - 1])
  }

  ghost predicate LegalAt(l: Layout, actions: seq<Action>, n: nat)
    requires n < |actions|
  {
    Enabled(l, Run(actions[..n]), actions[n])
  }

  ghost predicate Legal(l: Layout, actions: seq<Action>) {
    forall n :: 0 <= n < |actions| ==> LegalAt(l, actions, n)
  }

  // ----- what the module outside the port can see

  /** Cycle `k` takes the token that cycle `k - 1` presented. */
  predicate Takes(cycles: seq<Cycle>, k: nat)
    requires k < |cycles|
  {
    cycles[k].consume && k > 0 && cycles[k - 1].out.Some?
  }

  /** The tokens taken, read off the outputs alone. */
  function Taken(cycles: seq<Cycle>): (r: seq<Token>) {
    if cycles == [] then [] else
      var k := |cycles| - 1;
      Taken(cycles[..k]) + if Takes(cycles, k) then [cycles[k - 1].out.value] else []
  }

  function LastOut(s: State): Option<Token> {
    if s.cycles == [] then None else s.cycles[|s.cycles| - 1].out
  }

  /** The token the cycle in progress has taken, if any. */
  function TakenNow(s: State): seq<Token> {
    if s.pending == Some(true) && LastOut(s).Some? then [LastOut(s).value] else []
  }

  ghost predicate Inv(s: State) {
    && s.arrived == s.popped + s.queue
    && s.popped == Taken(s.cycles) + TakenNow(s)
    && s.lastValid == LastOut(s).Some?
    && (s.pending == None && s.lastValid ==> s.queue != [] && LastOut(s) == Some(s.queue[0]))
    && (s.pending == Some(false) && s.lastValid ==> s.queue != [] && LastOut(s) == Some(s.queue[0]))
  }

  /** A pop attempted by a cycle always finds the token that the previous cycle presented. */
  lemma PopFindsPresented(l: Layout, s: State, a: Action)
    requires Inv(s) && Enabled(l, s, a) && a.PopPhase? && s.lastValid && a.consume
    ensures a.e == Popped(s.queue[0]) && LastOut(s) == Some(s.queue[0])
  {
  }

  lemma PopPhaseKeepsInv(l: Layout, s: State, a: Action)
    requires Inv(s) && Enabled(l, s, a) && a.PopPhase?
    ensures Inv(Next(s, a))
  {
    if s.lastValid && a.consume {
      PopFindsPresented(l, s, a);
      assert s.popped + s.queue == (s.popped + [s.queue[0]]) + s.queue[1..];
    }
  }

  lemma OneMoreCycle(cycles: seq<Cycle>, c: Cycle)
    ensures Taken(cycles + [c]) == Taken(cycles) +
            if c.consume && cycles != [] && cycles[|cycles| - 1].out.Some? then [cycles[|cycles| - 1].out.value] else []
  {
    assert (cycles + [c])[..|cycles|] == cycles;
  }

  lemma PeekPhaseKeepsInv(l: Layout, s: State, a: Action)
    requires Inv(s) && Enabled(l, s, a) && a.PeekPhase?
    ensures Inv(Next(s, a))
  {
    var c := Cycle(s.pending == Some(true), if a.e.Peeked? then Some(a.e.token) else None);
    var s' := Next(s, a);
    assert s'.cycles == s.cycles + [c] && LastOut(s') == c.out;
    OneMoreCycle(s.cycles, c);
    assert Taken(s'.cycles) == Taken(s.cycles) + TakenNow(s);
    assert TakenNow(s') == [];
  }

  lemma NextKeepsInv(l: Layout, s: State, a: Action)
    requires Inv(s) && Enabled(l, s, a)
    ensures Inv(Next(s, a))
  {
    match a
    case Arrive(e) => assert Next(s, a).arrived == s.popped + (s.queue + [e.token]);
    case PopPhase(_, _) => PopPhaseKeepsInv(l, s, a);
    case PeekPhase(_) => PeekPhaseKeepsInv(l, s, a);
  }

  lemma {:induction false} RunInv(l: Layout, actions: seq<Action>)
    requires Legal(l, actions)
    ensures Inv(Run(actions))
  {
    if actions != [] {
      var prefix := actions[..|actions| - 1];
      PrefixIsLegal(l, actions, |actions| - 1);
      assert LegalAt(l, actions, |actions| - 1);
      RunInv(l, prefix);
      NextKeepsInv(l, Run(prefix), actions[|actions| - 1]);
    }
  }

  /** Over any legal run: the tokens taken, as the outputs show them, are exactly the tokens popped; they are
      the first tokens that arrived, in order and once each; and the last cycle presents the first token not yet
      taken. */
  lemma IstreamDelivers(l: Layout, actions: seq<Action>)
    requires Legal(l, actions)
    ensures var s := Run(actions);
            && s.popped <= s.arrived
            && s.queue == s.arrived[|s.popped|..]
            && (s.pending == None ==>
                  && s.popped == Taken(s.cycles)
                  && (LastOut(s).Some? ==> |s.popped| < |s.arrived| && LastOut(s) == Some(s.arrived[|s.popped|])))
  {
    RunInv(l, actions);
  }

  lemma HistoriesGrow(s: State, a: Action)
    ensures s.arrived <= Next(s, a).arrived && s.cycles <= Next(s, a).cycles
  {
  }

  ghost predicate PresentsRightly(s: State, k: nat)
    requires k < |s.cycles|
  {
    s.cycles[k].out.Some? ==>
      var taken := |Taken(s.cycles[..k + 1])|;
      taken < |s.arrived| && s.cycles[k].out.value == s.arrived[taken]
  }

  /** Every cycle of a legal run that presents a token presents the arrival whose position is the number of
      tokens taken up to and including that cycle: unchanged until taken, then the very next one. */
  lemma {:induction false} EveryCyclePresents(l: Layout, actions: seq<Action>, k: nat)
    requires Legal(l, actions) && k < |Run(actions).cycles|
    ensures PresentsRightly(Run(actions), k)
    decreases |actions|
  {
    var prefix := actions[..|actions| - 1];
    HistoriesGrow(Run(prefix), actions[|actions| - 1]);
    if k < |Run(prefix).cycles| {
      PrefixIsLegal(l, actions, |actions| - 1);
      EveryCyclePresents(l, prefix, k);
      StillPresents(Run(prefix), Run(actions), k);
    } else {
      IstreamDelivers(l, actions);
      LastPresents(Run(actions), k);
    }
  }

  lemma PrefixIsLegal(l: Layout, actions: seq<Action>, m: nat)
    requires Legal(l, actions) && m <= |actions|
    ensures Legal(l, actions[..m])
  {
    forall n | 0 <= n < m
      ensures LegalAt(l, actions[..m], n)
    {
      assert LegalAt(l, actions, n) && actions[..m][..n] == actions[..n];
    }
  }

  lemma StillPresents(s: State, s': State, k: nat)
    requires k < |s.cycles| && PresentsRightly(s, k) && s.arrived <= s'.arrived && s.cycles <= s'.cycles
    ensures PresentsRightly(s', k)
  {
    assert s'.cycles[..k + 1] == s.cycles[..k + 1];
  }

  lemma LastPresents(s: State, k: nat)
    requires |s.cycles| == k + 1
    requires LastOut(s).Some? ==>
               |Taken(s.cycles)| < |s.arrived| && LastOut(s) == Some(s.arrived[|Taken(s.cycles)|])
    ensures PresentsRightly(s, k)
  {
    assert s.cycles[..k + 1] == s.cycles;
  }
}

/** Runs of output cycles while another process pops at any point, also in the middle of a cycle. */
module OstreamRuns {
  import opened Wrappers
  import opened QueueLayout
  import opened FifoSpec
  import opened DpiStreams

  /** `ready` is what the last completed cycle answered; `pending` is `known_full` of the cycle in progress.
      `written` holds the DPI data of every write, `accepted` and `popped` the tokens that went in and out. */
  datatype State = State(
    queue: seq<Token>, ready: bool, pending: Option<bool>,
    written: seq<seq<Byte>>, accepted: seq<Token>, popped: seq<Token>)

  datatype Action =
    | Drain(e: Event)
    | WritePhase(write: bool, data: seq<Byte>, e: Event)
    | ReadyPhase(e: Event)

  const Start := State([], false, None, [], [], [])

  ghost predicate Enabled(l: Layout, s: State, a: Action) {
    match a
    case Drain(e) => e.Popped? && s.queue != [] && Allows(l, s.queue, e, s.queue[1..])
    case WritePhase(write, data, e) =>
      s.pending == None &&
      if write then
        || (e.Accepted? && e.token == Fit(data, l.width) && Allows(l, s.queue, e, s.queue + [e.token]))
        || (e.RejectedFull? && Allows(l, s.queue, e, s.queue))
        || (e.RejectedSize? && e.token == Fit(data, l.width) && Allows(l, s.queue, e, s.queue))
      else e == Internal
    case ReadyPhase(e) =>
      s.pending.Some? &&
      if s.pending.value then e == Internal else e.Probed? && Allows(l, s.queue, e, s.queue)
  }

  function Next(s: State, a: Action): State {
    match a
    case Drain(e) =>
      if e.Popped? && s.queue != [] then s.(queue := s.queue[1..], popped := s.popped + [e.token]) else s
    case WritePhase(write, data, e) =>
      var s1 := s.(ready := false,
                   pending := Some(write && (e.Accepted? ==> e.fullAfter)),
                   written := s.written + if write then [data] else []);
      if e.Accepted? then s1.(queue := s.queue + [e.token], accepted := s.accepted + [e.token]) else s1
    case ReadyPhase(e) =>
      s.(ready := s.pending == Some(false) && e == Probed(false), pending := None)
  }

  function Run(actions: seq<Action>): State {
    if actions == [] then Start else Next(Run(actions[..|actions| - 1]), actions[|actions| - 1])
  }

  ghost predicate LegalAt(l: Layout, actions: seq<Action>, n: nat)
    requires n < |actions|
  {
    Enabled(l, Run(actions[..n]), actions[n])
  }

  ghost predicate Legal(l: Layout, actions: seq<Action>) {
    forall n :: 0 <= n < |actions| ==> LegalAt(l, actions, n)
  }

  /** The driver writes only in a cycle whose predecessor answered true. */
  ghost predicate Disciplined(actions: seq<Action>) {
    forall n :: 0 <= n < |actions| ==> DisciplinedAt(actions, n)
  }

  ghost predicate DisciplinedAt(actions: seq<Action>, n: nat)
    requires n < |actions|
  {
    actions[n].WritePhase? && actions[n].write ==> Run(actions[..n]).ready
  }

  function Tokens(l: Layout, written: seq<seq<Byte>>): (r: seq<Token>)
    ensures |r| == |written|
  {
    seq(|written|, i requires 0 <= i < |written| => Fit(written[i], l.width))
  }

  ghost predicate Inv(l: Layout, s: State) {
    && s.accepted == s.popped + s.queue
    && s.accepted == Tokens(l, s.written)
    && (s.ready ==> |s.queue| < l.depth)
  }

  /** A write in a cycle that was announced ready is accepted, whatever was popped in between. */
  lemma ReadyWriteAccepted(l: Layout, s: State, a: Action)
    requires Inv(l, s) && s.ready && a.WritePhase? && a.write && Enabled(l, s, a)
    ensures a.e.Accepted? && a.e.token == Fit(a.data, l.width)
  {
  }

  lemma NextKeepsInv(l: Layout, s: State, a: Action)
    requires Inv(l, s) && Enabled(l, s, a)
    requires a.WritePhase? && a.write ==> s.ready
    ensures Inv(l, Next(s, a))
  {
    var s' := Next(s, a);
    match a
    case Drain(e) =>
      assert s.popped + s.queue == (s.popped + [s.queue[0]]) + s.queue[1..];
    case WritePhase(write, data, e) =>
      if write {
        ReadyWriteAccepted(l, s, a);
        assert s'.accepted == s'.popped + s'.queue;
        assert Tokens(l, s'.written) == Tokens(l, s.written) + [Fit(data, l.width)];
      } else {
        assert s'.written == s.written;
      }
    case ReadyPhase(e) =>
  }

  lemma PrefixIsFine(l: Layout, actions: seq<Action>, m: nat)
    requires Legal(l, actions) && Disciplined(actions) && m <= |actions|
    ensures Legal(l, actions[..m]) && Disciplined(actions[..m])
  {
    forall n | 0 <= n < m
      ensures LegalAt(l, actions[..m], n) && DisciplinedAt(actions[..m], n)
    {
      assert LegalAt(l, actions, n) && DisciplinedAt(actions, n) && actions[..m][..n] == actions[..n];
    }
  }

  lemma {:induction false} RunInv(l: Layout, actions: seq<Action>)
    requires Legal(l, actions) && Disciplined(actions) && l.Valid()
    ensures Inv(l, Run(actions))
  {
    if actions != [] {
      var prefix := actions[..|actions| - 1];
      PrefixIsFine(l, actions, |actions| - 1);
      assert LegalAt(l, actions, |actions| - 1) && DisciplinedAt(actions, |actions| - 1);
      RunInv(l, prefix);
      NextKeepsInv(l, Run(prefix), actions[|actions| - 1]);
    }
  }

  /** Under the discipline no write meets a full queue, every written token enters exactly once and in order,
      and what the other side popped is a prefix of it. */
  lemma DisciplinedWritesAreLossless(l: Layout, actions: seq<Action>)
    requires Legal(l, actions) && Disciplined(actions) && l.Valid()
    ensures Run(actions).accepted == Tokens(l, Run(actions).written)
    ensures Run(actions).popped <= Tokens(l, Run(actions).written)
    ensures forall n :: 0 <= n < |actions| && actions[n].WritePhase? && actions[n].write ==> actions[n].e.Accepted?
  {
    RunInv(l, actions);
    forall n | 0 <= n < |actions| && actions[n].WritePhase? && actions[n].write
      ensures actions[n].e.Accepted?
    {
      var prefix := actions[..n];
      PrefixIsFine(l, actions, n);
      assert LegalAt(l, actions, n) && DisciplinedAt(actions, n);
      RunInv(l, prefix);
      ReadyWriteAccepted(l, Run(prefix), actions[n]);
    }
  }

  /** The discipline is needed: on a queue of depth 1, two writes in a row lose the second token. */
  lemma UndisciplinedWriteIsLost(l: Layout, a: seq<Byte>, b: seq<Byte>)
    requires l.Valid() && l.depth == 1
    ensures var actions := [WritePhase(true, a, Accepted(Fit(a, l.width), true)), ReadyPhase(Internal),
                            WritePhase(true, b, RejectedFull)];
            Legal(l, actions) && Run(actions).written == [a, b] && Run(actions).accepted == [Fit(a, l.width)]
  {
    var w := WritePhase(true, a, Accepted(Fit(a, l.width), true));
    var actions := [w, ReadyPhase(Internal), WritePhase(true, b, RejectedFull)];
    assert actions[..0] == [] && actions[..1] == [w] && actions[..2] == [w, ReadyPhase(Internal)];
    assert [w, ReadyPhase(Internal)][..1] == [w] && [w][..0] == [];
    assert Run([w]) == Next(Start, w);
    assert Run(actions[..2]) == Next(Run([w]), ReadyPhase(Internal));
  }
}
