/** The bounded FIFO that the shared-memory queue implements, as a relation on observable events. */
module FifoSpec {
  import opened QueueLayout

  /** What one atomic step of the queue lets the outside see. */
  datatype Event =
    | Internal
    | Accepted(token: Token, fullAfter: bool)
    | RejectedFull
    | RejectedSize(token: Token)
    | Popped(token: Token)
    | Peeked(token: Token)
    | SawEmpty
    | ShortBuffer
    | Probed(full: bool)
    | Observed(head: nat, tail: nat)

  /** Event `e` is one that a FIFO of `l.depth` tokens may show when its contents go from `q` to `q'`.
      A full answer may be stale, a not-full answer may not. */
  ghost predicate Allows(l: Layout, q: seq<Token>, e: Event, q': seq<Token>) {
    match e
    case Internal => q' == q
    case Accepted(token, fullAfter) =>
      |q| < l.depth && |token| == l.width && q' == q + [token] && (!fullAfter ==> |q'| < l.depth)
    case RejectedFull => q' == q && |q| == l.depth
    case RejectedSize(token) => q' == q && |q| < l.depth && |token| != l.width
    case Popped(token) => q != [] && token == q[0] && q' == q[1..]
    case Peeked(token) => q != [] && token == q[0] && q' == q
    case SawEmpty => q' == q == []
    case ShortBuffer => q' == q != []
    case Probed(full) => q' == q && (!full ==> |q| < l.depth)
    case Observed(head, tail) => q' == q && head <= tail && (tail - head < l.depth ==> |q| < l.depth)
  }

  function AcceptedTokens(trace: seq<Event>): seq<Token> {
    if trace == [] then [] else
      var e := trace[|trace| - 1];
      AcceptedTokens(trace[..|trace| - 1]) + if e.Accepted? then [e.token] else []
  }

  function PoppedTokens(trace: seq<Event>): seq<Token> {
    if trace == [] then [] else
      var e := trace[|trace| - 1];
      PoppedTokens(trace[..|trace| - 1]) + if e.Popped? then [e.token] else []
  }
}

/** One producer, one consumer and one third-party observer of a shared-memory queue, interleaved at every
    atomic load, atomic store and copied byte. */
module QueueProtocol {
  import opened QueueLayout
  import opened FifoSpec

  /** Program counter of the producing thread: a push, or the `is_full` probe.
      `ready` records that the last answer the thread got said not full. */
  datatype Producer =
    | PIdle(ready: bool)
    | PPush(data: Token)
    | PTail(data: Token, tail: nat)
    | PCopy(data: Token, tail: nat, head: nat, copied: nat)
    | PProbe
    | PProbeHead(head: nat)

  /** Program counter of the consuming thread, in `pop_into` (`pop`) or `peek_into`, on a buffer of `cap` bytes. */
  datatype Consumer =
    | CIdle
    | CRead(pop: bool, cap: nat)
    | CHead(pop: bool, cap: nat, head: nat)
    | CCopy(pop: bool, head: nat, buf: Token)

  datatype Observer = OIdle | OProbe | OHead(head: nat)

  /** `pushed` and `popped` are histories: every token whose counter store has happened. */
  datatype State = State(
    l: Layout, mem: seq<Byte>, head: nat, tail: nat,
    producer: Producer, consumer: Consumer, observer: Observer,
    pushed: seq<Token>, popped: seq<Token>)

  datatype Action =
    | StartPush(data: Token)
    | StartProbe
    | StepProducer
    | StartRead(pop: bool, cap: nat)
    | StepConsumer
    | StartObserve
    | StepObserver

  function Init(l: Layout): (s: State)
    requires l.Valid()
  {
    State(l, seq(l.byteLen, _ => 0), 0, 0, PIdle(false), CIdle, OIdle, [], [])
  }

  function ProducerStep(s: State): (r: (State, Event))
    requires Inv(s)
  {
    match s.producer
    case PIdle(_) => (s, Internal)
    case PPush(data) => (s.(producer := PTail(data, s.tail)), Internal)
    case PTail(data, tail) =>
      if tail - s.head >= s.l.depth then (s.(producer := PIdle(false)), RejectedFull)
      else if |data| != s.l.width then (s.(producer := PIdle(false)), RejectedSize(data))
      else (s.(producer := PCopy(data, tail, s.head, 0)), Internal)
    case PCopy(data, tail, head, copied) =>
      if copied < s.l.width then
        (s.(mem := Poke(s.l, s.mem, tail, copied, data[copied]),
            producer := PCopy(data, tail, head, copied + 1)),
         Internal)
      else
        var full := tail + 1 - head >= s.l.depth;
        (s.(tail := tail + 1, producer := PIdle(!full), pushed := s.pushed + [data]), Accepted(data, full))
    case PProbe => (s.(producer := PProbeHead(s.head)), Internal)
    case PProbeHead(head) =>
      var full := s.tail - head >= s.l.depth;
      (s.(producer := PIdle(!full)), Probed(full))
  }

  function ConsumerStep(s: State): (r: (State, Event))
    requires Inv(s)
  {
    match s.consumer
    case CIdle => (s, Internal)
    case CRead(pop, cap) => (s.(consumer := CHead(pop, cap, s.head)), Internal)
    case CHead(pop, cap, head) =>
      if s.tail == head then (s.(consumer := CIdle), SawEmpty)
      else if cap < s.l.width then (s.(consumer := CIdle), ShortBuffer)
      else (s.(consumer := CCopy(pop, head, [])), Internal)
    case CCopy(pop, head, buf) =>
      if |buf| < s.l.width then
        (s.(consumer := CCopy(pop, head, buf + [Cell(s.l, s.mem, head, |buf|)])), Internal)
      else if pop then
        (s.(head := head + 1, consumer := CIdle, popped := s.popped + [buf]), Popped(buf))
      else
        (s.(consumer := CIdle), Peeked(buf))
  }

  function ObserverStep(s: State): (r: (State, Event)) {
    match s.observer
    case OIdle => (s, Internal)
    case OProbe => (s.(observer := OHead(s.head)), Internal)
    case OHead(head) => (s.(observer := OIdle), Observed(head, s.tail))
  }

  /** One scheduling decision. An action whose thread is not in a state to take it changes nothing. */
  function Step(s: State, a: Action): (r: (State, Event))
    requires Inv(s)
  {
    match a
    case StartPush(data) => (if s.producer.PIdle? then s.(producer := PPush(data)) else s, Internal)
    case StartProbe => (if s.producer.PIdle? then s.(producer := PProbe) else s, Internal)
    case StepProducer => ProducerStep(s)
    case StartRead(pop, cap) => (if s.consumer.CIdle? then s.(consumer := CRead(pop, cap)) else s, Internal)
    case StepConsumer => ConsumerStep(s)
    case StartObserve => (if s.observer.OIdle? then s.(observer := OProbe) else s, Internal)
    case StepObserver => ObserverStep(s)
  }

  // ----- invariant

  /** Byte `k` of the slot that counter value `i` names. */
  function Cell(l: Layout, mem: seq<Byte>, i: nat, k: nat): Byte
    requires l.Valid() && |mem| == l.byteLen && k < l.width
  {
    SlotInBounds(l, i);
    mem[l.SlotStart(i) + k]
  }

  ghost predicate CountersInv(s: State) {
    && s.l.Valid()
    && |s.mem| == s.l.byteLen
    && s.head <= s.tail <= s.head + s.l.depth
    && |s.pushed| == s.tail
    && s.popped == s.pushed[..s.head]
    && forall i :: 0 <= i < s.tail ==> |s.pushed[i]| == s.l.width
  }

  /** The live slots hold exactly the tokens that were pushed and not yet popped. */
  ghost predicate MemoryInv(s: State)
    requires CountersInv(s)
  {
    forall i, k :: s.head <= i < s.tail && 0 <= k < s.l.width ==> Cell(s.l, s.mem, i, k) == s.pushed[i][k]
  }

  ghost predicate ProducerInv(s: State)
    requires CountersInv(s)
  {
    match s.producer
    case PIdle(ready) => ready ==> s.tail - s.head < s.l.depth
    case PPush(_) => true
    case PTail(_, tail) => tail == s.tail
    case PCopy(data, tail, head, copied) =>
      && tail == s.tail && head <= s.head && tail - head < s.l.depth
      && |data| == s.l.width && copied <= s.l.width
      && forall k :: 0 <= k < copied ==> Cell(s.l, s.mem, tail, k) == data[k]
    case PProbe => true
    case PProbeHead(head) => head <= s.head
  }

  ghost predicate ConsumerInv(s: State)
    requires CountersInv(s)
  {
    match s.consumer
    case CIdle => true
    case CRead(_, _) => true
    case CHead(_, _, head) => head == s.head
    case CCopy(_, head, buf) =>
      && head == s.head < s.tail && |buf| <= s.l.width
      && buf == s.pushed[head][..|buf|]
  }

  ghost predicate ObserverInv(s: State) {
    s.observer.OHead? ==> s.observer.head <= s.head
  }

  ghost predicate Inv(s: State) {
    CountersInv(s) && MemoryInv(s) && ProducerInv(s) && ConsumerInv(s) && ObserverInv(s)
  }

  /** The FIFO contents that the queue stands for. */
  ghost function Contents(s: State): seq<Token>
    requires CountersInv(s)
  {
    s.pushed[s.head..]
  }

  lemma InitInv(l: Layout)
    requires l.Valid()
    ensures Inv(Init(l)) && Contents(Init(l)) == []
  {
  }

  function Poke(l: Layout, mem: seq<Byte>, i: nat, k: nat, b: Byte): (mem': seq<Byte>)
    requires l.Valid() && |mem| == l.byteLen && k < l.width
    ensures |mem'| == |mem|
  {
    SlotInBounds(l, i);
    mem[l.SlotStart(i) + k := b]
  }

  /** Writing a byte of slot `i` changes that byte, no other byte of the slot and no byte of a slot
      less than `depth` behind it. */
  lemma PokeFrame(l: Layout, mem: seq<Byte>, i: nat, k: nat, b: Byte, j: nat, n: nat)
    requires l.Valid() && |mem| == l.byteLen && k < l.width && n < l.width
    requires j <= i < j + l.depth
    ensures Cell(l, Poke(l, mem, i, k, b), j, n) == if i == j && n == k then b else Cell(l, mem, j, n)
  {
    SlotInBounds(l, i);
    SlotInBounds(l, j);
    if j < i {
      SlotsDisjoint(l, j, i);
    }
  }

  lemma CopyBytePreserves(s: State)
    requires Inv(s) && s.producer.PCopy? && s.producer.copied < s.l.width
    ensures Inv(ProducerStep(s).0)
  {
    var s' := ProducerStep(s).0;
    var p := s.producer;
    forall i, k | s.head <= i < s.tail && 0 <= k < s.l.width
      ensures Cell(s.l, s'.mem, i, k) == s.pushed[i][k]
    {
      PokeFrame(s.l, s.mem, s.tail, p.copied, p.data[p.copied], i, k);
    }
    forall k | 0 <= k < p.copied + 1
      ensures Cell(s.l, s'.mem, s.tail, k) == p.data[k]
    {
      PokeFrame(s.l, s.mem, s.tail, p.copied, p.data[p.copied], s.tail, k);
    }
  }

  lemma PublishPreserves(s: State)
    requires Inv(s) && s.producer.PCopy? && s.producer.copied == s.l.width
    ensures Inv(ProducerStep(s).0)
    ensures Contents(ProducerStep(s).0) == Contents(s) + [s.producer.data]
  {
    var s' := ProducerStep(s).0;
    assert s'.pushed[..s.head] == s.pushed[..s.head];
    assert CountersInv(s');
    forall i, k | s'.head <= i < s'.tail && 0 <= k < s.l.width
      ensures Cell(s.l, s'.mem, i, k) == s'.pushed[i][k]
    {
      assert s'.pushed[i] == if i < s.tail then s.pushed[i] else s.producer.data;
    }
    assert ConsumerInv(s');
  }

  /** A step of the producer that moves nothing but its own place. */
  lemma ProducerLoads(s: State)
    requires Inv(s) && !s.producer.PCopy?
    ensures Inv(ProducerStep(s).0)
    ensures Allows(s.l, Contents(s), ProducerStep(s).1, Contents(ProducerStep(s).0))
  {
    var s' := ProducerStep(s).0;
    assert s' == s.(producer := s'.producer);
    assert CountersInv(s') && MemoryInv(s') && ConsumerInv(s');
  }

  lemma ProducerPreserves(s: State)
    requires Inv(s)
    ensures Inv(ProducerStep(s).0)
    ensures Allows(s.l, Contents(s), ProducerStep(s).1, Contents(ProducerStep(s).0))
  {
    if !s.producer.PCopy? {
      ProducerLoads(s);
    } else if s.producer.copied < s.l.width {
      CopyBytePreserves(s);
    } else {
      PublishPreserves(s);
    }
  }

  lemma ReadBytePreserves(s: State)
    requires Inv(s) && s.consumer.CCopy? && |s.consumer.buf| < s.l.width
    ensures Inv(ConsumerStep(s).0)
  {
    var s' := ConsumerStep(s).0;
    var token := s.pushed[s.head];
    var n := |s.consumer.buf|;
    assert s'.consumer.buf == token[..n] + [Cell(s.l, s.mem, s.head, n)];
    assert token[..n + 1] == token[..n] + [token[n]];
    assert CountersInv(s');
  }

  lemma TakePreserves(s: State)
    requires Inv(s) && s.consumer.CCopy? && |s.consumer.buf| == s.l.width
    ensures Inv(ConsumerStep(s).0)
    ensures s.consumer.buf == Contents(s)[0]
    ensures s.consumer.pop ==> Contents(ConsumerStep(s).0) == Contents(s)[1..]
  {
    var s' := ConsumerStep(s).0;
    var token := s.pushed[s.head];
    assert token[..s.l.width] == token;
    assert s.pushed[..s.head + 1] == s.pushed[..s.head] + [token];
    assert CountersInv(s');
  }

  lemma ConsumerPreserves(s: State)
    requires Inv(s)
    ensures Inv(ConsumerStep(s).0)
    ensures Allows(s.l, Contents(s), ConsumerStep(s).1, Contents(ConsumerStep(s).0))
  {
    if s.consumer.CCopy? {
      if |s.consumer.buf| < s.l.width {
        ReadBytePreserves(s);
      } else {
        TakePreserves(s);
      }
    } else {
      assert CountersInv(ConsumerStep(s).0);
    }
  }

  lemma ControlPreserves(s: State, a: Action)
    requires Inv(s) && !a.StepProducer? && !a.StepConsumer?
    ensures Inv(Step(s, a).0)
    ensures Allows(s.l, Contents(s), Step(s, a).1, Contents(Step(s, a).0))
  {
    assert CountersInv(Step(s, a).0);
  }

  /** Whatever thread moves, the invariant holds and the move is one the FIFO allows: pushes take effect at
      the tail store, pops at the head store, and every answer is right at the instant it is given. */
  lemma StepRefines(s: State, a: Action)
    requires Inv(s)
    ensures Inv(Step(s, a).0) && Step(s, a).0.l == s.l
    ensures Allows(s.l, Contents(s), Step(s, a).1, Contents(Step(s, a).0))
  {
    if a.StepProducer? {
      ProducerPreserves(s);
    } else if a.StepConsumer? {
      ConsumerPreserves(s);
    } else {
      ControlPreserves(s, a);
    }
  }

  // ----- whole runs

  /** The state and the events after scheduling `schedule` from the freshly created queue. */
  ghost function Run(l: Layout, schedule: seq<Action>): (r: (State, seq<Event>))
    requires l.Valid()
    ensures Inv(r.0) && r.0.l == l && |r.1| == |schedule|
  {
    InitInv(l);
    if schedule == [] then (Init(l), []) else
      var (s, trace) := Run(l, schedule[..|schedule| - 1]);
      StepRefines(s, schedule[|schedule| - 1]);
      var (s', e) := Step(s, schedule[|schedule| - 1]);
      (s', trace + [e])
  }

  lemma StepHistory(s: State, a: Action)
    requires Inv(s)
    ensures var (s', e) := Step(s, a);
            && s'.pushed == s.pushed + (if e.Accepted? then [e.token] else [])
            && s'.popped == s.popped + (if e.Popped? then [e.token] else [])
  {
  }

  /** In every interleaving the events are those of a bounded FIFO: the histories are the accepted and popped
      tokens of the trace, and what was popped is a byte-exact prefix of what was accepted. */
  lemma {:induction false} RunIsFifo(l: Layout, schedule: seq<Action>)
    requires l.Valid()
    ensures AcceptedTokens(Run(l, schedule).1) == Run(l, schedule).0.pushed
    ensures PoppedTokens(Run(l, schedule).1) == Run(l, schedule).0.popped
    ensures PoppedTokens(Run(l, schedule).1) <= AcceptedTokens(Run(l, schedule).1)
    ensures |AcceptedTokens(Run(l, schedule).1)| - |PoppedTokens(Run(l, schedule).1)| <= l.depth
  {
    if schedule != [] {
      var prefix := schedule[..|schedule| - 1];
      RunIsFifo(l, prefix);
      var (s, trace) := Run(l, prefix);
      StepHistory(s, schedule[|schedule| - 1]);
      var (s', e) := Step(s, schedule[|schedule| - 1]);
      assert Run(l, schedule) == (s', trace + [e]);
      assert (trace + [e])[..|trace|] == trace;
    }
  }

  /** Every event of every run is allowed by the FIFO, in the state the run has then reached. */
  lemma {:induction false} EveryEventAllowed(l: Layout, schedule: seq<Action>, n: nat)
    requires l.Valid() && n < |schedule|
    ensures Allows(l, Contents(Run(l, schedule[..n]).0), Run(l, schedule).1[n], Contents(Run(l, schedule[..n + 1]).0))
  {
    if n + 1 == |schedule| {
      assert schedule[..n + 1] == schedule;
      StepRefines(Run(l, schedule[..n]).0, schedule[n]);
    } else {
      var prefix := schedule[..|schedule| - 1];
      EveryEventAllowed(l, prefix, n);
      assert prefix[..n] == schedule[..n] && prefix[..n + 1] == schedule[..n + 1];
    }
  }

  /** The slot being written is never the slot being read. */
  lemma NoSlotRace(l: Layout, schedule: seq<Action>)
    requires l.Valid()
    ensures var s := Run(l, schedule).0;
            s.producer.PCopy? && s.consumer.CCopy? ==>
              var w := l.SlotStart(s.producer.tail);
              var r := l.SlotStart(s.consumer.head);
              w + l.width <= r || r + l.width <= w
  {
    var s := Run(l, schedule).0;
    if s.producer.PCopy? && s.consumer.CCopy? {
      SlotsDisjoint(l, s.consumer.head, s.producer.tail);
    }
  }

  ghost predicate NoPush(schedule: seq<Action>) {
    forall i :: 0 <= i < |schedule| ==> !schedule[i].StartPush?
  }

  /** The producer is between pushes, probing or not, and the queue has room. */
  ghost predicate HasRoom(s: State)
    requires CountersInv(s)
  {
    (s.producer.PIdle? || s.producer.PProbe? || s.producer.PProbeHead?) && |Contents(s)| < s.l.depth
  }

  /** Only a push of the producer's own can fill the queue. */
  lemma RoomStays(s: State, a: Action)
    requires Inv(s) && HasRoom(s) && !a.StartPush?
    ensures Inv(Step(s, a).0) && HasRoom(Step(s, a).0)
  {
    StepRefines(s, a);
  }

  /** A not-full answer given to the producer stays true until its own next push, however the other threads move and
      however often it probes meanwhile. */
  lemma {:induction false} NotFullIsStable(l: Layout, before: seq<Action>, after: seq<Action>)
    requires l.Valid() && NoPush(after)
    requires Run(l, before).0.producer == PIdle(true)
    ensures HasRoom(Run(l, before + after).0)
  {
    if after == [] {
      assert before + after == before;
    } else {
      var last := |after| - 1;
      NotFullIsStable(l, before, after[..last]);
      assert (before + after)[..|before + after| - 1] == before + after[..last];
      RoomStays(Run(l, before + after[..last]).0, after[last]);
    }
  }
}
