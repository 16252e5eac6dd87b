/** The sweep of a utilization cap from loose to tight, around a planner that may answer anything. */
module Sweep {
  import opened Wrappers

  const CAP_SCALE := 1_000_000_000
  const ADAPTIVE_MARGIN := CAP_SCALE / 100

  /** Caps in integer units, all at least one. */
  datatype Options = Options(min: nat, max: nat, step: nat) {
    predicate Valid() {
      1 <= min <= CAP_SCALE && 1 <= max <= CAP_SCALE && 1 <= step <= CAP_SCALE
    }
  }

  /** `R` are region maps, `P` plans, `M` metadata and `E` errors of the planner. */
  datatype Attempt<R, P, M, E> =
    | Feasible(plan: P, regions: R, bindingCap: nat, metadata: M)
    | Infeasible(terminal: bool, metadata: M)
    | Error(error: E)

  /** What the planner answers to the last of the caps it has been asked for. */
  type Planner<!R, !P, !M, !E> = seq<nat> -> Attempt<R, P, M, E>

  datatype Swept<P, M> = Swept(cap: nat, plan: Option<P>, metadata: M)

  function Less(a: nat, b: nat): nat {
    if a < b then 0 else a - b
  }

  function NextCap<R, P, M, E>(o: Options, cap: nat, a: Attempt<R, P, M, E>): nat
    requires !a.Error?
  {
    var nominal := Less(cap, o.step);
    if a.Infeasible? then nominal else
    var adaptive := Less(a.bindingCap, ADAPTIVE_MARGIN);
    if nominal <= adaptive then nominal else adaptive
  }

  ghost predicate Stops<R, P, M, E>(a: Attempt<R, P, M, E>) {
    a.Error? || (a.Infeasible? && a.terminal)
  }

  /** The planner's answers to the caps, each given with the caps before it in mind. */
  ghost predicate AreAnswers<R, P, M, E>(planner: Planner<R, P, M, E>, caps: seq<nat>,
                                         answers: seq<Attempt<R, P, M, E>>)
  {
    |answers| == |caps| && forall i :: 0 <= i < |caps| ==> answers[i] == planner(caps[..i + 1])
  }

  /** Cap `i` follows from the answer before it. */
  ghost predicate Follows<R, P, M, E>(o: Options, caps: seq<nat>, answers: seq<Attempt<R, P, M, E>>, i: nat)
    requires 0 < i < |caps| == |answers|
  {
    !Stops(answers[i - 1]) && o.min <= caps[i] == NextCap(o, caps[i - 1], answers[i - 1])
  }

  /** The caps go down from the maximum, each following from the answer before it. */
  ghost predicate IsTrail<R, P, M, E>(o: Options, caps: seq<nat>, answers: seq<Attempt<R, P, M, E>>) {
    && |answers| == |caps|
    && (caps != [] ==> caps[0] == o.max && o.min <= o.max)
    && forall i :: 0 < i < |caps| ==> Follows(o, caps, answers, i)
  }

  /** `cap` comes next, if it is not below the minimum. */
  ghost predicate IsNext<R, P, M, E>(o: Options, caps: seq<nat>, answers: seq<Attempt<R, P, M, E>>, cap: nat)
    requires |answers| == |caps|
  {
    var last := |caps| - 1;
    if last < 0 then cap == o.max else !Stops(answers[last]) && cap == NextCap(o, caps[last], answers[last])
  }

  lemma OneMoreStep<R, P, M, E>(o: Options, caps: seq<nat>, answers: seq<Attempt<R, P, M, E>>, cap: nat,
                                a: Attempt<R, P, M, E>)
    requires IsTrail(o, caps, answers) && IsNext(o, caps, answers, cap) && o.min <= cap
    ensures IsTrail(o, caps + [cap], answers + [a])
    ensures !Stops(a) ==> IsNext(o, caps + [cap], answers + [a], NextCap(o, cap, a))
  {
    var caps', answers' := caps + [cap], answers + [a];
    forall i | 0 < i < |caps'|
      ensures Follows(o, caps', answers', i)
    {
      assert i < |caps| ==> Follows(o, caps, answers, i);
    }
  }

  /** The trail cannot be continued. */
  ghost predicate IsComplete<R, P, M, E>(o: Options, caps: seq<nat>, answers: seq<Attempt<R, P, M, E>>)
    requires |answers| == |caps|
  {
    var last := |caps| - 1;
    if last < 0 then o.max < o.min else Stops(answers[last]) || NextCap(o, caps[last], answers[last]) < o.min
  }

  ghost predicate Found<R, P, M, E>(a: Attempt<R, P, M, E>, regions: R) {
    a.Feasible? && a.regions == regions
  }

  /** Attempt `i` is recorded: a rejection, or a plan whose regions were not found before. */
  ghost predicate IsKept<R, P, M, E>(answers: seq<Attempt<R, P, M, E>>, i: nat)
    requires i < |answers|
  {
    var a := answers[i];
    || a.Infeasible?
    || (a.Feasible? && forall j :: 0 <= j < i ==> !Found(answers[j], a.regions))
  }

  function Record<R, P, M, E>(cap: nat, a: Attempt<R, P, M, E>): Swept<P, M>
    requires !a.Error?
  {
    Swept(cap, if a.Feasible? then Some(a.plan) else None, a.metadata)
  }

  /** The candidates are the records of exactly the kept attempts, in the order they were made. */
  ghost predicate AreRecords<R, P, M, E>(caps: seq<nat>, answers: seq<Attempt<R, P, M, E>>,
                                         candidates: seq<Swept<P, M>>, kept: seq<nat>)
    requires |answers| == |caps|
  {
    && |kept| == |candidates|
    && (forall m, n :: 0 <= m < n < |kept| ==> kept[m] < kept[n])
    && (forall n :: 0 <= n < |kept| ==> kept[n] < |caps| && IsKept(answers, kept[n]))
    && (forall i :: 0 <= i < |caps| && IsKept(answers, i) ==> i in kept)
    && (forall n :: 0 <= n < |kept| ==> candidates[n] == Record(caps[kept[n]], answers[kept[n]]))
  }

  lemma OneMoreAnswer<R, P, M, E>(planner: Planner<R, P, M, E>, caps: seq<nat>, answers: seq<Attempt<R, P, M, E>>,
                                  cap: nat)
    requires AreAnswers(planner, caps, answers)
    ensures AreAnswers(planner, caps + [cap], answers + [planner(caps + [cap])])
  {
    var caps', answers' := caps + [cap], answers + [planner(caps + [cap])];
    forall i | 0 <= i < |caps'|
      ensures answers'[i] == planner(caps'[..i + 1])
    {
      assert i < |caps| ==> caps'[..i + 1] == caps[..i + 1];
      assert i == |caps| ==> caps'[..i + 1] == caps';
    }
  }

  lemma OneMoreRecord<R, P, M, E>(caps: seq<nat>, answers: seq<Attempt<R, P, M, E>>, candidates: seq<Swept<P, M>>,
                                  kept: seq<nat>, cap: nat, a: Attempt<R, P, M, E>)
    requires |answers| == |caps| && AreRecords(caps, answers, candidates, kept) && !a.Error?
    ensures IsKept(answers + [a], |answers|) ==>
              AreRecords(caps + [cap], answers + [a], candidates + [Record(cap, a)], kept + [|caps|])
    ensures !IsKept(answers + [a], |answers|) ==> AreRecords(caps + [cap], answers + [a], candidates, kept)
  {
    var more := answers + [a];
    forall i | 0 <= i < |answers|
      ensures IsKept(more, i) <==> IsKept(answers, i)
    {
      assert forall j :: 0 <= j <= i ==> more[j] == answers[j];
    }
  }

  ghost predicate AreVisited<R(!new), P, M, E>(visited: set<R>, answers: seq<Attempt<R, P, M, E>>) {
    forall g :: g in visited <==> exists j :: 0 <= j < |answers| && Found(answers[j], g)
  }

  lemma OneMoreVisited<R(!new), P, M, E>(visited: set<R>, answers: seq<Attempt<R, P, M, E>>, a: Attempt<R, P, M, E>)
    requires AreVisited(visited, answers) && !a.Error?
    ensures AreVisited(if a.Feasible? then visited + {a.regions} else visited, answers + [a])
    ensures IsKept(answers + [a], |answers|) <==> a.Infeasible? || a.regions !in visited
  {
    var more := answers + [a];
    assert forall j :: 0 <= j < |answers| ==> more[j] == answers[j];
    assert more[|answers|] == a;
    forall g
      ensures (exists j :: 0 <= j < |more| && Found(more[j], g)) <==>
              (exists j :: 0 <= j < |answers| && Found(answers[j], g)) || Found(a, g)
    {
      if j: nat :| 0 <= j < |answers| && Found(answers[j], g) {
        assert Found(more[j], g);
      }
    }
  }

  method SweepWith<R(==, !new), P, M, E>(o: Options, planner: Planner<R, P, M, E>)
    returns (r: Result<seq<Swept<P, M>>, E>, ghost caps: seq<nat>, ghost answers: seq<Attempt<R, P, M, E>>,
             ghost kept: seq<nat>)
    requires o.Valid()
    ensures AreAnswers(planner, caps, answers) && IsTrail(o, caps, answers) && IsComplete(o, caps, answers)
    ensures r.Ok? ==> AreRecords(caps, answers, r.value, kept)
    ensures r.Err? <==> caps != [] && answers[|caps| - 1].Error?
    ensures r.Err? ==> answers[|caps| - 1].error == r.error
  {
    var cap := o.max;
    var asked: seq<nat> := [];
    var visited: set<R> := {};
    var candidates: seq<Swept<P, M>> := [];
    caps, answers, kept := [], [], [];
    while o.min <= cap
      invariant asked == caps && AreAnswers(planner, caps, answers) && IsTrail(o, caps, answers)
      invariant IsNext(o, caps, answers, cap)
      invariant AreRecords(caps, answers, candidates, kept) && AreVisited(visited, answers)
      decreases cap
    {
      asked := asked + [cap];
      var a := planner(asked);
      OneMoreAnswer(planner, caps, answers, cap);
      OneMoreStep(o, caps, answers, cap, a);
      if a.Error? {
        return Err(a.error), caps + [cap], answers + [a], kept;
      }
      OneMoreRecord(caps, answers, candidates, kept, cap, a);
      OneMoreVisited(visited, answers, a);
      if a.Infeasible? || a.regions !in visited {
        candidates := candidates + [Record(cap, a)];
        kept := kept + [|caps|];
      }
      caps, answers := caps + [cap], answers + [a];
      if a.Feasible? {
        visited := visited + {a.regions};
      } else if a.terminal {
        break;
      }
      var next := NextCap(o, cap, a);
      if next >= cap {
        break;
      }
      cap := next;
    }
    return Ok(candidates), caps, answers, kept;
  }

  // ----- what every complete trail has

  /** Caps fall strictly inside the range and the planner is asked at most (max - min) / step + 1 times. */
  lemma {:induction false} FewStrictlyFallingCaps<R, P, M, E>(o: Options, caps: seq<nat>,
                                                             answers: seq<Attempt<R, P, M, E>>)
    requires o.Valid() && IsTrail(o, caps, answers)
    ensures forall i :: 0 <= i < |caps| ==> o.min <= caps[i] <= o.max
    ensures forall i, j :: 0 <= i < j < |caps| ==> caps[j] < caps[i]
    ensures caps != [] ==> |caps| <= (o.max - o.min) / o.step + 1
  {
    forall i | 0 <= i < |caps|
      ensures o.min <= caps[i] <= o.max
    {
      CapInRange(o, caps, answers, i);
    }
    forall i, j | 0 <= i < j < |caps|
      ensures caps[j] < caps[i]
    {
      LaterIsLower(o, caps, answers, i, j);
    }
    if caps != [] {
      FewCaps(o, caps, answers);
    }
  }

  lemma CapInRange<R, P, M, E>(o: Options, caps: seq<nat>, answers: seq<Attempt<R, P, M, E>>, i: nat)
    requires o.Valid() && IsTrail(o, caps, answers) && i < |caps|
    ensures o.min <= caps[i] <= o.max
  {
    CapsFall(o, caps, answers, 0, i);
    StepsDown(caps[0], caps[i], i, o.step);
  }

  lemma StepsDown(high: int, low: int, n: nat, step: nat)
    requires low + n * step <= high && step >= 1
    ensures low <= high && (n > 0 ==> low < high)
  {
    if n > 0 {
      assert n * step == (n - 1) * step + step;
    }
  }

  lemma LaterIsLower<R, P, M, E>(o: Options, caps: seq<nat>, answers: seq<Attempt<R, P, M, E>>, i: nat, j: nat)
    requires o.Valid() && IsTrail(o, caps, answers) && i < j < |caps|
    ensures caps[j] < caps[i]
  {
    CapsFall(o, caps, answers, i, j);
    StepsDown(caps[i], caps[j], j - i, o.step);
  }

  lemma FewCaps<R, P, M, E>(o: Options, caps: seq<nat>, answers: seq<Attempt<R, P, M, E>>)
    requires o.Valid() && IsTrail(o, caps, answers) && caps != []
    ensures |caps| <= (o.max - o.min) / o.step + 1
  {
    var last := |caps| - 1;
    CapsFall(o, caps, answers, 0, last);
    AtMostQuotient(last, o.step, o.max - o.min);
  }

  lemma {:induction false} CapsFall<R, P, M, E>(o: Options, caps: seq<nat>, answers: seq<Attempt<R, P, M, E>>, i: nat,
                                               j: nat)
    requires o.Valid() && IsTrail(o, caps, answers) && i <= j < |caps|
    ensures caps[j] + (j - i) * o.step <= caps[i] && o.min <= caps[j]
    decreases j
  {
    assert j > 0 ==> Follows(o, caps, answers, j);
    if i < j {
      CapsFall(o, caps, answers, i, j - 1);
      assert (j - i) * o.step == (j - 1 - i) * o.step + o.step;
    }
  }

  lemma {:induction false} RowsBelow(a: int, b: int, step: nat)
    requires a <= b
    ensures a * step <= b * step
    decreases b - a
  {
    if a < b {
      RowsBelow(a, b - 1, step);
      assert b * step == (b - 1) * step + step;
    }
  }

  lemma PastQuotient(n: nat, step: nat, room: int)
    requires step >= 1 && room / step < n
    ensures room < n * step
  {
    RowsBelow(room / step + 1, n, step);
    assert (room / step + 1) * step == room / step * step + step;
  }

  lemma AtMostQuotient(n: nat, step: nat, room: int)
    requires step >= 1 && n * step <= room
    ensures n <= room / step
  {
    if room / step < n {
      PastQuotient(n, step, room);
    }
  }

  /** Only the last attempt can be a terminal rejection or an error of the planner. */
  lemma OnlyTheLastStops<R, P, M, E>(o: Options, caps: seq<nat>, answers: seq<Attempt<R, P, M, E>>, i: nat)
    requires IsTrail(o, caps, answers) && i < |caps| && Stops(answers[i])
    ensures i == |caps| - 1
  {
    assert i + 1 < |caps| ==> Follows(o, caps, answers, i + 1);
  }

  /** Every region map that was found is recorded exactly once, at the loosest cap where it was found. */
  lemma LoosestCapIsKept<R, P, M, E>(o: Options, caps: seq<nat>, answers: seq<Attempt<R, P, M, E>>,
                                     candidates: seq<Swept<P, M>>, kept: seq<nat>, i: nat)
    returns (n: nat)
    requires o.Valid() && IsTrail(o, caps, answers) && AreRecords(caps, answers, candidates, kept)
    requires i < |caps| && answers[i].Feasible?
    ensures n < |kept| && Found(answers[kept[n]], answers[i].regions) && caps[i] <= candidates[n].cap
    ensures forall m :: 0 <= m < |kept| && Found(answers[kept[m]], answers[i].regions) ==> m == n
  {
    var first := FirstFound(answers, i);
    assert IsKept(answers, first);
    n :| 0 <= n < |kept| && kept[n] == first;
    FewStrictlyFallingCaps(o, caps, answers);
    forall m | 0 <= m < |kept| && Found(answers[kept[m]], answers[i].regions)
      ensures m == n
    {
      assert IsKept(answers, kept[m]) && !(first < kept[m]);
    }
  }

  lemma {:induction false} FirstFound<R, P, M, E>(answers: seq<Attempt<R, P, M, E>>, i: nat) returns (first: nat)
    requires i < |answers| && answers[i].Feasible?
    ensures first <= i && Found(answers[first], answers[i].regions)
    ensures forall j :: 0 <= j < first ==> !Found(answers[j], answers[i].regions)
  {
    first := i;
    if j: nat :| j < i && Found(answers[j], answers[i].regions) {
      first := FirstFound(answers, j);
    }
  }

  /** Every rejection is recorded, at its own cap and without a plan. */
  lemma RejectionIsKept<R, P, M, E>(caps: seq<nat>, answers: seq<Attempt<R, P, M, E>>, candidates: seq<Swept<P, M>>,
                                    kept: seq<nat>, i: nat)
    returns (n: nat)
    requires |answers| == |caps| && AreRecords(caps, answers, candidates, kept)
    requires i < |caps| && answers[i].Infeasible?
    ensures n < |kept| && kept[n] == i && candidates[n] == Swept(caps[i], None, answers[i].metadata)
  {
    assert IsKept(answers, i);
    n :| 0 <= n < |kept| && kept[n] == i;
  }
}
