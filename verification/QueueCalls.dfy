/** Whole calls of the producer, from the first load to the answer, with the other threads moving in between. */
module QueueCalls {
  import opened QueueLayout
  import opened FifoSpec
  import opened QueueProtocol

  function ProducerSteps(schedule: seq<Action>): nat {
    if schedule == [] then 0
    else ProducerSteps(schedule[..|schedule| - 1]) + if schedule[|schedule| - 1].StepProducer? then 1 else 0
  }

  lemma RunStep(l: Layout, schedule: seq<Action>, a: Action)
    requires l.Valid()
    ensures Run(l, schedule + [a]).0 == Step(Run(l, schedule).0, a).0
    ensures Run(l, schedule + [a]).1 == Run(l, schedule).1 + [Step(Run(l, schedule).0, a).1]
  {
    assert (schedule + [a])[..|schedule|] == schedule;
  }

  // ----- a push

  /** The steps that a push of `data` still has to take: the load of the tail, the load of the head, one for every byte
      and the store of the tail. */
  ghost function StepsLeft(s: State, data: Token): nat {
    match s.producer
    case PPush(d) => if d == data then s.l.width + 3 else 0
    case PTail(d, _) => if d == data then s.l.width + 2 else 0
    case PCopy(d, _, _, copied) => if d == data && copied <= s.l.width then s.l.width + 1 - copied else 0
    case _ => 0
  }

  /** A push of `data` has `n` steps to take, and nothing can turn it away any more. */
  ghost predicate Underway(s: State, data: Token, pushed: seq<Token>, n: nat)
    requires Inv(s)
  {
    && StepsLeft(s, data) == n > 0 && |data| == s.l.width && s.pushed == pushed
    && (s.producer.PCopy? || |Contents(s)| < s.l.depth)
  }

  lemma OthersLeaveUnderway(s: State, a: Action, data: Token, pushed: seq<Token>, n: nat)
    requires Inv(s) && Underway(s, data, pushed, n) && !a.StepProducer?
    ensures Inv(Step(s, a).0) && Underway(Step(s, a).0, data, pushed, n)
  {
    OthersKeep(s, a);
  }

  /** The other threads leave the producer where it is and push nothing. */
  lemma OthersKeep(s: State, a: Action)
    requires Inv(s) && !a.StepProducer? && !s.producer.PIdle?
    ensures var s' := Step(s, a).0;
            Inv(s') && s'.l == s.l && s'.producer == s.producer && s'.pushed == s.pushed && s'.head >= s.head
  {
    StepRefines(s, a);
  }

  lemma OneStepOn(s: State, data: Token, pushed: seq<Token>, n: nat)
    requires Inv(s) && Underway(s, data, pushed, n) && n > 1
    ensures Inv(Step(s, StepProducer).0) && Underway(Step(s, StepProducer).0, data, pushed, n - 1)
  {
    StepRefines(s, StepProducer);
    StepHistory(s, StepProducer);
  }

  lemma LastStep(s: State, data: Token, pushed: seq<Token>)
    requires Inv(s) && Underway(s, data, pushed, 1)
    ensures var (s', e) := Step(s, StepProducer);
            e.Accepted? && e.token == data && s'.pushed == pushed + [data] && s'.producer.PIdle?
  {
  }

  lemma UnderwayStep(l: Layout, schedule: seq<Action>, a: Action, data: Token, pushed: seq<Token>, n: nat)
    requires l.Valid() && Underway(Run(l, schedule).0, data, pushed, n) && (a.StepProducer? ==> n > 1)
    ensures Underway(Run(l, schedule + [a]).0, data, pushed, if a.StepProducer? then n - 1 else n)
  {
    RunStep(l, schedule, a);
    if a.StepProducer? {
      OneStepOn(Run(l, schedule).0, data, pushed, n);
    } else {
      OthersLeaveUnderway(Run(l, schedule).0, a, data, pushed, n);
    }
  }

  lemma {:induction false} StaysUnderway(l: Layout, before: seq<Action>, during: seq<Action>, data: Token,
                                         pushed: seq<Token>, n: nat)
    requires l.Valid() && Underway(Run(l, before).0, data, pushed, n) && ProducerSteps(during) < n
    ensures Underway(Run(l, before + during).0, data, pushed, n - ProducerSteps(during))
  {
    if during == [] {
      assert before + during == before;
    } else {
      var front, a := during[..|during| - 1], during[|during| - 1];
      StaysUnderway(l, before, front, data, pushed, n);
      assert before + during == (before + front) + [a];
      UnderwayStep(l, before + front, a, data, pushed, n - ProducerSteps(front));
    }
  }

  /** A push begun while the queue has room, of a token of the right width, is accepted when the producer has taken its
      `width` + 3 steps, whatever the other threads do in between, and the token is the next one of the queue. */
  lemma PushIsAccepted(l: Layout, before: seq<Action>, data: Token, during: seq<Action>)
    requires l.Valid() && |data| == l.width && ProducerSteps(during) == l.width + 2
    requires var s := Run(l, before).0; s.producer.PIdle? && |Contents(s)| < l.depth
    ensures var schedule := before + [StartPush(data)] + during + [StepProducer];
            var (s, trace) := Run(l, schedule);
            && trace != [] && trace[|trace| - 1].Accepted? && trace[|trace| - 1].token == data
            && s.pushed == Run(l, before).0.pushed + [data] && s.producer.PIdle?
  {
    var begun := before + [StartPush(data)];
    var pushed := Run(l, before).0.pushed;
    RunStep(l, before, StartPush(data));
    PushBegins(Run(l, before).0, data);
    StaysUnderway(l, begun, during, data, pushed, l.width + 3);
    RunStep(l, begun + during, StepProducer);
    LastStep(Run(l, begun + during).0, data, pushed);
  }

  lemma PushBegins(s: State, data: Token)
    requires Inv(s) && s.producer.PIdle? && |Contents(s)| < s.l.depth && |data| == s.l.width
    ensures Inv(Step(s, StartPush(data)).0)
    ensures Underway(Step(s, StartPush(data)).0, data, s.pushed, s.l.width + 3)
  {
    StepRefines(s, StartPush(data));
  }

  /** A push that has loaded the tail; nothing has been pushed since. */
  ghost predicate AtHead(s: State, data: Token, tail: nat, pushed: seq<Token>) {
    s.producer == PTail(data, tail) && s.pushed == pushed
  }

  lemma AtHeadStep(l: Layout, schedule: seq<Action>, a: Action, data: Token, tail: nat, pushed: seq<Token>)
    requires l.Valid() && AtHead(Run(l, schedule).0, data, tail, pushed) && !a.StepProducer?
    ensures AtHead(Run(l, schedule + [a]).0, data, tail, pushed)
  {
    RunStep(l, schedule, a);
    OthersKeep(Run(l, schedule).0, a);
  }

  lemma {:induction false} StaysAtHead(l: Layout, before: seq<Action>, during: seq<Action>, data: Token, tail: nat,
                                       pushed: seq<Token>)
    requires l.Valid() && AtHead(Run(l, before).0, data, tail, pushed) && ProducerSteps(during) == 0
    ensures AtHead(Run(l, before + during).0, data, tail, pushed)
    decreases |during|
  {
    if during == [] {
      assert before + during == before;
    } else {
      var front, a := during[..|during| - 1], during[|during| - 1];
      assert ProducerSteps(front) == 0 && !a.StepProducer?;
      StaysAtHead(l, before, front, data, tail, pushed);
      assert before + during == (before + front) + [a];
      AtHeadStep(l, before + front, a, data, tail, pushed);
    }
  }

  /** A push is decided at its second step, whatever the other threads do before it: turned away as full if and only if
      the queue is full then, for its size if and only if it has room and the token another width, and otherwise not. */
  lemma PushIsDecided(l: Layout, before: seq<Action>, data: Token, during: seq<Action>)
    requires l.Valid() && Run(l, before).0.producer.PIdle? && ProducerSteps(during) == 0
    ensures var schedule := before + [StartPush(data)] + [StepProducer] + during;
            var t, e := Run(l, schedule).0, Run(l, schedule + [StepProducer]).1;
            && e != []
            && (e[|e| - 1] == RejectedFull <==> |Contents(t)| == l.depth)
            && (e[|e| - 1] == RejectedSize(data) <==> |Contents(t)| < l.depth && |data| != l.width)
            && (e[|e| - 1] == Internal <==> |Contents(t)| < l.depth && |data| == l.width)
            && Run(l, schedule + [StepProducer]).0.pushed == Run(l, before).0.pushed
  {
    var begun := before + [StartPush(data)];
    var s := Run(l, before).0;
    RunStep(l, before, StartPush(data));
    RunStep(l, begun, StepProducer);
    StaysAtHead(l, begun + [StepProducer], during, data, s.tail, s.pushed);
    RunStep(l, begun + [StepProducer] + during, StepProducer);
  }

  // ----- a probe

  /** The probe has loaded `head`; the tail is the producer's own and stands. */
  ghost predicate Loaded(s: State, head: nat, tail: nat) {
    s.producer == PProbeHead(head) && s.tail == tail
  }

  lemma OthersLeaveLoaded(s: State, a: Action, head: nat, tail: nat)
    requires Inv(s) && Loaded(s, head, tail) && !a.StepProducer?
    ensures Loaded(Step(s, a).0, head, tail)
  {
  }

  lemma LoadedStep(l: Layout, schedule: seq<Action>, a: Action, head: nat, tail: nat)
    requires l.Valid() && Loaded(Run(l, schedule).0, head, tail) && !a.StepProducer?
    ensures Loaded(Run(l, schedule + [a]).0, head, tail)
  {
    RunStep(l, schedule, a);
    OthersLeaveLoaded(Run(l, schedule).0, a, head, tail);
  }

  lemma {:induction false} StaysLoaded(l: Layout, before: seq<Action>, during: seq<Action>, head: nat, tail: nat)
    requires l.Valid() && Loaded(Run(l, before).0, head, tail) && ProducerSteps(during) == 0
    ensures Loaded(Run(l, before + during).0, head, tail)
    decreases |during|
  {
    if during == [] {
      assert before + during == before;
    } else {
      var front, a := during[..|during| - 1], during[|during| - 1];
      assert ProducerSteps(front) == 0 && !a.StepProducer?;
      StaysLoaded(l, before, front, head, tail);
      assert before + during == (before + front) + [a];
      LoadedStep(l, before + front, a, head, tail);
    }
  }

  /** A probe answers full if and only if the queue is full when it loads the head, whatever the other threads do before
      the answer. */
  lemma ProbeIsExact(l: Layout, before: seq<Action>, during: seq<Action>)
    requires l.Valid() && Run(l, before).0.producer == PProbe && ProducerSteps(during) == 0
    ensures var trace := Run(l, before + [StepProducer] + during + [StepProducer]).1;
            trace != [] && trace[|trace| - 1] == Probed(|Contents(Run(l, before).0)| == l.depth)
  {
    var s := Run(l, before).0;
    RunStep(l, before, StepProducer);
    StaysLoaded(l, before + [StepProducer], during, s.head, s.tail);
    RunStep(l, before + [StepProducer] + during, StepProducer);
  }
}
