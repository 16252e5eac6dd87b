/** An input port of the simulator on the shared queue: the driver works through its cycles by atomic steps, while the
    producer on the other side and an observer take theirs in between. */
module IstreamPorts {
  import opened Wrappers
  import opened QueueLayout
  import opened FifoSpec
  import Q = QueueProtocol
  import R = IstreamRuns

  /** Where the driver is: between cycles, in the pop of a cycle, past the pop, or in the peek. */
  datatype Driver = Between | Popping | PastPop(consume: bool) | Peeking(consume: bool)

  /** `log` is what the cycles and the arrivals come to: one entry for each that has taken effect. */
  datatype Port = Port(q: Q.State, driver: Driver, lastValid: bool, log: seq<R.Action>)

  /** Another thread moves, the driver begins a cycle, or it takes one step in the cycle begun. */
  datatype Move = Other(a: Q.Action) | Begin(consume: bool) | Go

  predicate IsOther(a: Q.Action) {
    !a.StartRead? && !a.StepConsumer?
  }

  function Init(l: Layout): Port
    requires l.Valid()
  {
    Port(Q.Init(l), Between, false, [])
  }

  function AfterOther(p: Port, a: Q.Action): Port
    requires Q.Inv(p.q)
  {
    var (q, e) := Q.Step(p.q, a);
    p.(q := q, log := p.log + if e.Accepted? then [R.Arrive(e)] else [])
  }

  function AfterGo(p: Port): Port
    requires Q.Inv(p.q)
  {
    match p.driver
    case Between => p
    case Popping =>
      var (q, e) := Q.Step(p.q, Q.StepConsumer);
      if e == Internal then p.(q := q) else p.(q := q, driver := PastPop(true), log := p.log + [R.PopPhase(true, e)])
    case PastPop(consume) => p.(q := Q.Step(p.q, Q.StartRead(false, p.q.l.width)).0, driver := Peeking(consume))
    case Peeking(_) =>
      var (q, e) := Q.Step(p.q, Q.StepConsumer);
      if e == Internal then p.(q := q)
      else p.(q := q, driver := Between, lastValid := e.Peeked?, log := p.log + [R.PeekPhase(e)])
  }

  /** A move that is out of place changes nothing. */
  function Next(p: Port, m: Move): Port
    requires Q.Inv(p.q)
  {
    match m
    case Other(a) => if IsOther(a) then AfterOther(p, a) else p
    case Begin(consume) =>
      if !p.driver.Between? then p
      else if p.lastValid && consume then
        p.(q := Q.Step(p.q, Q.StartRead(true, p.q.l.width)).0, driver := Popping)
      else p.(driver := PastPop(consume), log := p.log + [R.PopPhase(consume, Internal)])
    case Go => AfterGo(p)
  }

  /** The consuming thread is in a read of the given kind, its buffer large enough. */
  ghost predicate Reading(q: Q.State, pop: bool) {
    match q.consumer
    case CIdle => false
    case CRead(p, cap) => p == pop && cap >= q.l.width
    case CHead(p, cap, _) => p == pop && cap >= q.l.width
    case CCopy(p, _, _) => p == pop
  }

  ghost predicate DriverInv(q: Q.State, driver: Driver, lastValid: bool, s: R.State) {
    match driver
    case Between => s.pending == None && q.consumer == Q.CIdle
    case Popping => s.pending == None && lastValid && Reading(q, true)
    case PastPop(consume) => s.pending == Some(consume) && q.consumer == Q.CIdle
    case Peeking(consume) => s.pending == Some(consume) && Reading(q, false)
  }

  /** The log is a legal run of cycles, and it ends in the queue as it now is. */
  ghost predicate Inv(l: Layout, p: Port) {
    && Q.Inv(p.q) && p.q.l == l
    && R.Legal(l, p.log)
    && var s := R.Run(p.log);
    && s.queue == Q.Contents(p.q) && s.arrived == p.q.pushed && s.popped == p.q.popped
    && s.lastValid == p.lastValid
    && DriverInv(p.q, p.driver, p.lastValid, s)
  }

  lemma LogGrows(l: Layout, log: seq<R.Action>, a: R.Action)
    requires R.Legal(l, log) && R.Enabled(l, R.Run(log), a)
    ensures R.Legal(l, log + [a]) && R.Run(log + [a]) == R.Next(R.Run(log), a)
  {
    var more := log + [a];
    assert more[..|log|] == log;
    forall n | 0 <= n < |more|
      ensures R.LegalAt(l, more, n)
    {
      assert n < |log| ==> R.LegalAt(l, log, n) && more[..n] == log[..n];
    }
  }

  /** The other threads leave the driver's own thread alone. */
  lemma OtherStep(q: Q.State, a: Q.Action)
    requires Q.Inv(q) && IsOther(a)
    ensures var (q', e) := Q.Step(q, a);
            && Q.Inv(q') && q'.l == q.l && q'.consumer == q.consumer
            && (if e.Accepted? then Allows(q.l, Q.Contents(q), e, Q.Contents(q')) else Q.Contents(q') == Q.Contents(q))
            && q'.pushed == q.pushed + (if e.Accepted? then [e.token] else [])
            && q'.popped == q.popped + (if e.Popped? then [e.token] else [])
            && !e.Popped?
  {
    Q.StepRefines(q, a);
    Q.StepHistory(q, a);
  }

  lemma OtherKeepsInv(l: Layout, p: Port, a: Q.Action)
    requires Inv(l, p) && IsOther(a)
    ensures Inv(l, AfterOther(p, a))
  {
    OtherStep(p.q, a);
    var e := Q.Step(p.q, a).1;
    if e.Accepted? {
      LogGrows(l, p.log, R.Arrive(e));
    } else {
      assert AfterOther(p, a).log == p.log;
    }
  }

  /** What one step of a read can come to. */
  lemma ReadStep(q: Q.State, pop: bool)
    requires Q.Inv(q) && Reading(q, pop)
    ensures var (q', e) := Q.Step(q, Q.StepConsumer);
            if e == Internal then Reading(q', pop)
            else q'.consumer == Q.CIdle && (e.SawEmpty? || (if pop then e.Popped? else e.Peeked?))
  {
  }

  lemma PopKeepsInv(l: Layout, p: Port)
    requires Inv(l, p) && p.driver.Popping?
    ensures Inv(l, AfterGo(p))
  {
    Q.StepRefines(p.q, Q.StepConsumer);
    Q.StepHistory(p.q, Q.StepConsumer);
    ReadStep(p.q, true);
    var e := Q.Step(p.q, Q.StepConsumer).1;
    if e != Internal {
      LogGrows(l, p.log, R.PopPhase(true, e));
    }
  }

  lemma PeekKeepsInv(l: Layout, p: Port)
    requires Inv(l, p) && p.driver.Peeking?
    ensures Inv(l, AfterGo(p))
  {
    Q.StepRefines(p.q, Q.StepConsumer);
    Q.StepHistory(p.q, Q.StepConsumer);
    ReadStep(p.q, false);
    var e := Q.Step(p.q, Q.StepConsumer).1;
    if e != Internal {
      LogGrows(l, p.log, R.PeekPhase(e));
    }
  }

  /** Starting a read changes nothing but where the thread is. */
  lemma StartIs(q: Q.State, pop: bool)
    requires Q.Inv(q) && q.consumer == Q.CIdle
    ensures var q' := Q.Step(q, Q.StartRead(pop, q.l.width)).0;
            && Q.Inv(q') && q'.l == q.l && Reading(q', pop) && Q.Contents(q') == Q.Contents(q)
            && q'.pushed == q.pushed && q'.popped == q.popped
  {
    Q.StepRefines(q, Q.StartRead(pop, q.l.width));
  }

  lemma BeginKeepsInv(l: Layout, p: Port, consume: bool)
    requires Inv(l, p) && p.driver.Between?
    ensures Inv(l, Next(p, Begin(consume)))
  {
    if p.lastValid && consume {
      StartIs(p.q, true);
    } else {
      LogGrows(l, p.log, R.PopPhase(consume, Internal));
    }
  }

  lemma StartPeekKeepsInv(l: Layout, p: Port)
    requires Inv(l, p) && p.driver.PastPop?
    ensures Inv(l, AfterGo(p))
  {
    StartIs(p.q, false);
  }

  lemma NextKeepsInv(l: Layout, p: Port, m: Move)
    requires Inv(l, p)
    ensures Inv(l, Next(p, m))
  {
    if m.Other? {
      if IsOther(m.a) {
        OtherKeepsInv(l, p, m.a);
      }
    } else if m.Begin? {
      if p.driver.Between? {
        BeginKeepsInv(l, p, m.consume);
      }
    } else if p.driver.PastPop? {
      StartPeekKeepsInv(l, p);
    } else if p.driver.Popping? {
      PopKeepsInv(l, p);
    } else if p.driver.Peeking? {
      PeekKeepsInv(l, p);
    }
  }

  /** The port after any sequence of moves: its log is a legal run of cycles. */
  ghost function Run(l: Layout, moves: seq<Move>): (p: Port)
    requires l.Valid()
    ensures Inv(l, p)
  {
    Q.InitInv(l);
    if moves == [] then Init(l) else
      var before := Run(l, moves[..|moves| - 1]);
      NextKeepsInv(l, before, moves[|moves| - 1]);
      Next(before, moves[|moves| - 1])
  }

  /** However the threads interleave: the tokens that the cycles take are the first tokens pushed, byte for byte and
      in order, and every cycle that presents a token presents the first one not yet taken. */
  lemma InputPortDelivers(l: Layout, moves: seq<Move>, k: nat)
    requires l.Valid()
    ensures var p := Run(l, moves);
            var cycles := R.Run(p.log).cycles;
            && R.Taken(cycles) <= p.q.pushed
            && (p.driver.Between? ==> R.Taken(cycles) == p.q.popped)
            && (k < |cycles| && cycles[k].out.Some? ==>
                  var taken := |R.Taken(cycles[..k + 1])|;
                  taken < |p.q.pushed| && cycles[k].out.value == p.q.pushed[taken])
  {
    var p := Run(l, moves);
    R.IstreamDelivers(l, p.log);
    R.RunInv(l, p.log);
    if k < |R.Run(p.log).cycles| {
      R.EveryCyclePresents(l, p.log, k);
    }
  }
}

/** An output port of the simulator on the shared queue, in the same way. */
module OstreamPorts {
  import opened Wrappers
  import opened QueueLayout
  import opened FifoSpec
  import opened DpiStreams
  import Q = QueueProtocol
  import R = OstreamRuns

  /** Where the driver is: between cycles, in the push of a cycle, past it, or in the probe. */
  datatype Driver = Between | Pushing(data: seq<Byte>) | Written(knownFull: bool) | Probing

  datatype Port = Port(q: Q.State, driver: Driver, ready: bool, log: seq<R.Action>)

  datatype Move = Other(a: Q.Action) | Begin(write: bool, data: seq<Byte>) | Go

  predicate IsOther(a: Q.Action) {
    a.StartRead? || a.StepConsumer? || a.StartObserve? || a.StepObserver?
  }

  function Init(l: Layout): Port
    requires l.Valid()
  {
    Port(Q.Init(l), Between, false, [])
  }

  function AfterOther(p: Port, a: Q.Action): Port
    requires Q.Inv(p.q)
  {
    var (q, e) := Q.Step(p.q, a);
    p.(q := q, log := p.log + if e.Popped? then [R.Drain(e)] else [])
  }

  function AfterGo(p: Port): Port
    requires Q.Inv(p.q)
  {
    match p.driver
    case Between => p
    case Pushing(data) =>
      var (q, e) := Q.Step(p.q, Q.StepProducer);
      if e == Internal then p.(q := q)
      else p.(q := q, driver := Written(e.Accepted? ==> e.fullAfter), log := p.log + [R.WritePhase(true, data, e)])
    case Written(knownFull) =>
      if knownFull then p.(driver := Between, ready := false, log := p.log + [R.ReadyPhase(Internal)])
      else p.(q := Q.Step(p.q, Q.StartProbe).0, driver := Probing)
    case Probing =>
      var (q, e) := Q.Step(p.q, Q.StepProducer);
      if e == Internal then p.(q := q)
      else p.(q := q, driver := Between, ready := e == Probed(false), log := p.log + [R.ReadyPhase(e)])
  }

  function Next(p: Port, m: Move): Port
    requires Q.Inv(p.q)
  {
    match m
    case Other(a) => if IsOther(a) then AfterOther(p, a) else p
    case Begin(write, data) =>
      if !p.driver.Between? then p
      else if write then p.(q := Q.Step(p.q, Q.StartPush(Fit(data, p.q.l.width))).0, driver := Pushing(data))
      else p.(driver := Written(false), log := p.log + [R.WritePhase(false, data, Internal)])
    case Go => AfterGo(p)
  }

  ghost predicate PushingToken(q: Q.State, token: Token) {
    match q.producer
    case PPush(data) => data == token
    case PTail(data, _) => data == token
    case PCopy(data, _, _, _) => data == token
    case _ => false
  }

  ghost predicate DriverInv(q: Q.State, driver: Driver, s: R.State) {
    match driver
    case Between => s.pending == None && q.producer.PIdle?
    case Pushing(data) => s.pending == None && PushingToken(q, Fit(data, q.l.width))
    case Written(knownFull) => s.pending == Some(knownFull) && q.producer.PIdle?
    case Probing => s.pending == Some(false) && (q.producer.PProbe? || q.producer.PProbeHead?)
  }

  ghost predicate Inv(l: Layout, p: Port) {
    && Q.Inv(p.q) && p.q.l == l
    && R.Legal(l, p.log)
    && var s := R.Run(p.log);
    && s.queue == Q.Contents(p.q) && s.accepted == p.q.pushed && s.popped == p.q.popped
    && (p.driver.Between? || p.driver.Pushing? ==> s.ready == p.ready)
    && DriverInv(p.q, p.driver, s)
  }

  lemma LogGrows(l: Layout, log: seq<R.Action>, a: R.Action)
    requires R.Legal(l, log) && R.Enabled(l, R.Run(log), a)
    ensures R.Legal(l, log + [a]) && R.Run(log + [a]) == R.Next(R.Run(log), a)
  {
    var more := log + [a];
    assert more[..|log|] == log;
    forall n | 0 <= n < |more|
      ensures R.LegalAt(l, more, n)
    {
      assert n < |log| ==> R.LegalAt(l, log, n) && more[..n] == log[..n];
    }
  }

  /** The other threads leave the driver's own thread alone. */
  lemma OtherStep(q: Q.State, a: Q.Action)
    requires Q.Inv(q) && IsOther(a)
    ensures var (q', e) := Q.Step(q, a);
            && Q.Inv(q') && q'.l == q.l && q'.producer == q.producer
            && (if e.Popped? then Allows(q.l, Q.Contents(q), e, Q.Contents(q')) else Q.Contents(q') == Q.Contents(q))
            && q'.pushed == q.pushed + (if e.Accepted? then [e.token] else [])
            && q'.popped == q.popped + (if e.Popped? then [e.token] else [])
            && !e.Accepted?
  {
    Q.StepRefines(q, a);
    Q.StepHistory(q, a);
  }

  lemma OtherKeepsInv(l: Layout, p: Port, a: Q.Action)
    requires Inv(l, p) && IsOther(a)
    ensures Inv(l, AfterOther(p, a))
  {
    OtherStep(p.q, a);
    var e := Q.Step(p.q, a).1;
    if e.Popped? {
      LogGrows(l, p.log, R.Drain(e));
    } else {
      assert AfterOther(p, a).log == p.log;
    }
  }

  /** What one step of a push can come to. */
  lemma PushStep(q: Q.State, token: Token)
    requires Q.Inv(q) && PushingToken(q, token)
    ensures var (q', e) := Q.Step(q, Q.StepProducer);
            if e == Internal then PushingToken(q', token)
            else q'.producer.PIdle? &&
                 (e.RejectedFull? || e == RejectedSize(token) || (e.Accepted? && e.token == token))
  {
  }

  lemma PushKeepsInv(l: Layout, p: Port)
    requires Inv(l, p) && p.driver.Pushing?
    ensures Inv(l, AfterGo(p))
  {
    Q.StepRefines(p.q, Q.StepProducer);
    Q.StepHistory(p.q, Q.StepProducer);
    PushStep(p.q, Fit(p.driver.data, l.width));
    var e := Q.Step(p.q, Q.StepProducer).1;
    if e != Internal {
      LogGrows(l, p.log, R.WritePhase(true, p.driver.data, e));
    }
  }

  lemma ProbeKeepsInv(l: Layout, p: Port)
    requires Inv(l, p) && p.driver.Probing?
    ensures Inv(l, AfterGo(p))
  {
    Q.StepRefines(p.q, Q.StepProducer);
    Q.StepHistory(p.q, Q.StepProducer);
    var e := Q.Step(p.q, Q.StepProducer).1;
    if e != Internal {
      LogGrows(l, p.log, R.ReadyPhase(e));
    }
  }

  lemma WrittenKeepsInv(l: Layout, p: Port)
    requires Inv(l, p) && p.driver.Written?
    ensures Inv(l, AfterGo(p))
  {
    Q.StepRefines(p.q, Q.StartProbe);
    if p.driver.knownFull {
      LogGrows(l, p.log, R.ReadyPhase(Internal));
    }
  }

  lemma BeginKeepsInv(l: Layout, p: Port, m: Move)
    requires Inv(l, p) && m.Begin?
    ensures Inv(l, Next(p, m))
  {
    Q.StepRefines(p.q, Q.StartPush(Fit(m.data, l.width)));
    if p.driver.Between? && !m.write {
      LogGrows(l, p.log, R.WritePhase(false, m.data, Internal));
    }
  }

  lemma NextKeepsInv(l: Layout, p: Port, m: Move)
    requires Inv(l, p)
    ensures Inv(l, Next(p, m))
  {
    if m.Other? {
      if IsOther(m.a) {
        OtherKeepsInv(l, p, m.a);
      }
    } else if m.Begin? {
      BeginKeepsInv(l, p, m);
    } else if p.driver.Pushing? {
      PushKeepsInv(l, p);
    } else if p.driver.Written? {
      WrittenKeepsInv(l, p);
    } else if p.driver.Probing? {
      ProbeKeepsInv(l, p);
    }
  }

  /** The port after any sequence of moves: its log is a legal run of cycles. */
  ghost function Run(l: Layout, moves: seq<Move>): (p: Port)
    requires l.Valid()
    ensures Inv(l, p)
  {
    Q.InitInv(l);
    if moves == [] then Init(l) else
      var before := Run(l, moves[..|moves| - 1]);
      NextKeepsInv(l, before, moves[|moves| - 1]);
      Next(before, moves[|moves| - 1])
  }

  /** The driver begins a cycle with a write only if the cycle before answered true. */
  ghost predicate Obedient(l: Layout, moves: seq<Move>)
    requires l.Valid()
  {
    forall n :: 0 <= n < |moves| && moves[n].Begin? && moves[n].write ==> MayWrite(Run(l, moves[..n]))
  }

  predicate MayWrite(p: Port) {
    p.driver.Between? ==> p.ready
  }

  /** The port is not in the middle of a write it should not have begun. */
  ghost predicate WritesReady(p: Port) {
    p.driver.Pushing? ==> p.ready
  }

  lemma DisciplineGrows(log: seq<R.Action>, a: R.Action)
    requires R.Disciplined(log) && (a.WritePhase? && a.write ==> R.Run(log).ready)
    ensures R.Disciplined(log + [a])
  {
    var more := log + [a];
    forall n | 0 <= n < |more|
      ensures R.DisciplinedAt(more, n)
    {
      assert n < |log| ==> R.DisciplinedAt(log, n) && more[..n] == log[..n];
      assert more[..|log|] == log;
    }
  }

  lemma OtherIsDisciplined(p: Port, a: Q.Action)
    requires Q.Inv(p.q) && R.Disciplined(p.log)
    ensures R.Disciplined(AfterOther(p, a).log)
  {
    var e := Q.Step(p.q, a).1;
    if e.Popped? {
      DisciplineGrows(p.log, R.Drain(e));
    } else {
      assert AfterOther(p, a).log == p.log;
    }
  }

  lemma GoIsDisciplined(p: Port)
    requires Q.Inv(p.q) && R.Disciplined(p.log) && (p.driver.Pushing? ==> R.Run(p.log).ready)
    ensures R.Disciplined(AfterGo(p).log)
    ensures AfterGo(p).driver.Pushing? ==> p.driver.Pushing? && AfterGo(p).ready == p.ready
  {
    match p.driver
    case Between =>
    case Pushing(data) =>
      var e := Q.Step(p.q, Q.StepProducer).1;
      if e != Internal {
        DisciplineGrows(p.log, R.WritePhase(true, data, e));
      }
    case Written(knownFull) =>
      if knownFull {
        DisciplineGrows(p.log, R.ReadyPhase(Internal));
      }
    case Probing =>
      var e := Q.Step(p.q, Q.StepProducer).1;
      if e != Internal {
        DisciplineGrows(p.log, R.ReadyPhase(e));
      }
  }

  lemma NextIsDisciplined(l: Layout, p: Port, m: Move)
    requires Inv(l, p) && R.Disciplined(p.log) && WritesReady(p)
    requires m.Begin? && m.write ==> MayWrite(p)
    ensures R.Disciplined(Next(p, m).log) && WritesReady(Next(p, m))
  {
    match m
    case Other(a) =>
      if IsOther(a) {
        OtherIsDisciplined(p, a);
      }
    case Begin(write, data) =>
      if p.driver.Between? && !write {
        DisciplineGrows(p.log, R.WritePhase(false, data, Internal));
      }
    case Go => GoIsDisciplined(p);
  }

  lemma {:induction false} ObedientIsDisciplined(l: Layout, moves: seq<Move>)
    requires l.Valid() && Obedient(l, moves)
    ensures R.Disciplined(Run(l, moves).log) && WritesReady(Run(l, moves))
  {
    if moves != [] {
      var prefix := moves[..|moves| - 1];
      assert forall n :: 0 <= n < |prefix| ==> prefix[..n] == moves[..n];
      ObedientIsDisciplined(l, prefix);
      NextIsDisciplined(l, Run(l, prefix), moves[|moves| - 1]);
    }
  }

  /** However the threads interleave: if the driver writes only when told it may, no write is turned away, and the
      tokens pushed are exactly what was written, once each and in order. */
  lemma OutputPortLosesNothing(l: Layout, moves: seq<Move>)
    requires l.Valid() && Obedient(l, moves)
    ensures var p := Run(l, moves);
            && p.q.pushed == R.Tokens(l, R.Run(p.log).written)
            && p.q.popped <= R.Tokens(l, R.Run(p.log).written)
            && forall n :: 0 <= n < |p.log| && p.log[n].WritePhase? && p.log[n].write ==> p.log[n].e.Accepted?
  {
    ObedientIsDisciplined(l, moves);
    R.DisciplinedWritesAreLossless(l, Run(l, moves).log);
  }
}
