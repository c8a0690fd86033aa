/** The native agent loop's turns (src/sovereign_ai/agents/native_loop.py): one loop object drives
    many runs at once.  A turn stops at each model call, and other runs' turns happen meanwhile;
    how the model answers is chosen by the step. */
module NativeLoop {
  import opened Json

  const HARD_CAP: int := 25

  datatype Ending = BudgetExhausted | InferenceError | Done

  /** Where a run stands: between turns, waiting for the model (with the schema enforced or not),
      waiting for the one retry, or ended. */
  datatype Phase = Idle | Waiting(constrained: bool) | Retrying | Over(ending: Ending)

  /** A run: its step budget as asked for, the turns in its history, the calls of next_step, the
      model calls, and whether one of its turns was retried. */
  datatype Run = Run(maxSteps: int, turns: nat, calls: nat, chats: nat, retried: bool, phase: Phase)

  /** The loop object: whether it enforces the action schema, whether the backend is known to
      honour it, how often it recorded a degradation, and its runs. */
  datatype State = State(constrainOutput: bool, supported: Option<bool>, degraded: nat, runs: map<string, Run>)

  datatype Reply = DoneAction | OtherAction | Unparsable

  datatype Step =
    | Start(id: string, maxSteps: int)
    | NextStep(id: string)
    | Replied(id: string, reply: Reply)
    | Failed(id: string, payloadAtFault: bool)

  function Initial(constrainOutput: bool): State {
    State(constrainOutput, None, 0, map[])
  }

  function StepBudget(maxSteps: int): int {
    if maxSteps < HARD_CAP then maxSteps else HARD_CAP
  }

  predicate ConstrainNow(s: State) {
    s.constrainOutput && s.supported != Some(false)
  }

  function WithRun(s: State, id: string, r: Run): State {
    s.(runs := s.runs[id := r])
  }

  /** The turn once a reply is there: every reply but "done" leaves one more turn in the history. */
  function Settled(r: Run, reply: Reply): Run {
    if reply == DoneAction then r.(phase := Over(Done)) else r.(turns := r.turns + 1, phase := Idle)
  }

  function Begun(s: State, r: Run): Run {
    if r.turns >= StepBudget(r.maxSteps)
    then r.(calls := r.calls + 1, phase := Over(BudgetExhausted))
    else r.(calls := r.calls + 1, chats := r.chats + 1, phase := Waiting(ConstrainNow(s)))
  }

  function Next(s: State, step: Step): State {
    match step
    case Start(id, maxSteps) =>
      if id in s.runs then s else WithRun(s, id, Run(maxSteps, 0, 0, 0, false, Idle))
    case NextStep(id) =>
      if id in s.runs && s.runs[id].phase == Idle then WithRun(s, id, Begun(s, s.runs[id])) else s
    case Replied(id, reply) =>
      if id !in s.runs then s else
        var r := s.runs[id];
        (match r.phase
        case Waiting(constrained) =>
          WithRun(if constrained && s.supported == None then s.(supported := Some(true)) else s, id, Settled(r, reply))
        case Retrying => WithRun(s, id, Settled(r, reply))
        case _ => s)
    case Failed(id, payloadAtFault) =>
      if id !in s.runs then s else
        var r := s.runs[id];
        match r.phase
        case Waiting(_) =>
          if ConstrainNow(s) && payloadAtFault then
            WithRun(s.(supported := Some(false), degraded := s.degraded + 1), id,
                    r.(chats := r.chats + 1, retried := true, phase := Retrying))
          else
            WithRun(s, id, r.(phase := Over(InferenceError)))
        case Retrying => WithRun(s, id, r.(phase := Over(InferenceError)))
        case _ => s
  }

  function RunAll(s: State, steps: seq<Step>): State {
    if steps == [] then s else Next(RunAll(s, steps[..|steps| - 1]), steps[|steps| - 1])
  }

  function Spare(b: bool): nat {
    if b then 1 else 0
  }

  predicate RunOk(r: Run) {
    && (r.turns == 0 || r.turns <= StepBudget(r.maxSteps))
    && r.calls == r.turns + Spare(!r.phase.Idle?)
    && (match r.phase
        case Idle => r.chats == r.turns + Spare(r.retried)
        case Waiting(_) => r.turns < StepBudget(r.maxSteps) && r.chats == r.turns + 1 + Spare(r.retried)
        case Retrying => r.turns < StepBudget(r.maxSteps) && r.retried && r.chats == r.turns + 2
        case Over(ending) =>
          if ending == BudgetExhausted then r.turns >= StepBudget(r.maxSteps) && r.chats == r.turns + Spare(r.retried)
          else r.turns < StepBudget(r.maxSteps) && r.chats == r.turns + 1 + Spare(r.retried))
  }

  ghost predicate Inv(s: State) {
    && (forall id :: id in s.runs ==> RunOk(s.runs[id]))
    && s.degraded == Spare(s.supported == Some(false))
    && (forall id :: id in s.runs && s.runs[id].retried ==> s.degraded == 1)
    && (forall id, id' :: id in s.runs && id' in s.runs && s.runs[id].retried && s.runs[id'].retried ==> id == id')
    && (forall id :: id in s.runs && s.runs[id].phase == Waiting(false) ==> !ConstrainNow(s))
    && (forall id :: id in s.runs && s.runs[id].phase == Waiting(true) ==> s.constrainOutput)
  }

  /** A change of one run, with or without the first degradation. */
  lemma ChangeKeeps(s: State, s': State, id: string, r: Run)
    requires Inv(s) && RunOk(r) && s'.runs == s.runs[id := r] && s'.constrainOutput == s.constrainOutput
    requires s'.degraded == Spare(s'.supported == Some(false))
    requires if r.retried && !(id in s.runs && s.runs[id].retried) then s.degraded == 0 && s'.degraded == 1
             else || s'.supported == s.supported
                  || (s.supported == None && s'.supported == Some(true) && s.constrainOutput)
    requires r.phase.Waiting? ==> r.phase.constrained == ConstrainNow(s) && ConstrainNow(s') == ConstrainNow(s)
    ensures Inv(s')
  {
    hide RunOk;
  }

  lemma StepKeeps(s: State, step: Step)
    requires Inv(s)
    ensures Inv(Next(s, step))
  {
    var s' := Next(s, step);
    var id := step.id;
    if s' != s {
      var r := s'.runs[id];
      assert id in s.runs ==> RunOk(s.runs[id]);
      match step
      case Start(_, _) => ChangeKeeps(s, s', id, r);
      case NextStep(_) => ChangeKeeps(s, s', id, r);
      case Replied(_, _) => ChangeKeeps(s, s', id, r);
      case Failed(_, _) => ChangeKeeps(s, s', id, r);
    }
  }

  lemma {:induction false} RunKeeps(constrainOutput: bool, steps: seq<Step>)
    ensures Inv(RunAll(Initial(constrainOutput), steps))
  {
    if steps != [] {
      RunKeeps(constrainOutput, steps[..|steps| - 1]);
      StepKeeps(RunAll(Initial(constrainOutput), steps[..|steps| - 1]), steps[|steps| - 1]);
    }
  }

  /** The step budget a run was first started with. */
  function AskedFor(steps: seq<Step>, id: string): Option<int> {
    if steps == [] then None
    else if steps[0].Start? && steps[0].id == id then Some(steps[0].maxSteps)
    else AskedFor(steps[1..], id)
  }

  lemma {:induction false} AskedForLast(steps: seq<Step>, step: Step, id: string)
    ensures AskedFor(steps + [step], id)
         == if AskedFor(steps, id).Some? then AskedFor(steps, id)
            else if step.Start? && step.id == id then Some(step.maxSteps)
            else None
  {
    if steps == [] {
      assert [step][1..] == [];
    } else {
      AskedForLast(steps[1..], step, id);
      assert (steps + [step])[1..] == steps[1..] + [step];
    }
  }

  lemma {:induction false} BudgetIsAskedFor(constrainOutput: bool, steps: seq<Step>, id: string)
    ensures var runs := RunAll(Initial(constrainOutput), steps).runs;
            AskedFor(steps, id) == if id in runs then Some(runs[id].maxSteps) else None
  {
    if steps != [] {
      var n := |steps| - 1;
      BudgetIsAskedFor(constrainOutput, steps[..n], id);
      AskedForLast(steps[..n], steps[n], id);
      assert steps[..n] + [steps[n]] == steps;
      hide AskedFor;
    }
  }

  /** Driving a run that was started with a budget of max_steps gives it at most
      min(max_steps, 25) turns and calls next_step at most once more (once, if that is negative);
      when it is called that often the last call ends the run.  The model is asked at most once
      more than the budget allows turns, retry included. */
  lemma {:induction false} LoopBound(constrainOutput: bool, steps: seq<Step>, id: string)
    requires AskedFor(steps, id).Some?
    ensures var runs, maxSteps := RunAll(Initial(constrainOutput), steps).runs, AskedFor(steps, id).value;
            var budget := if maxSteps < 0 then 0 else if maxSteps < 25 then maxSteps else 25;
            && id in runs
            && runs[id].turns <= budget && runs[id].calls <= budget + 1 && runs[id].chats <= budget + 1
            && (runs[id].calls == budget + 1 ==> runs[id].phase == Over(BudgetExhausted))
            && (runs[id].phase == Over(BudgetExhausted) ==> runs[id].turns == budget)
  {
    RunKeeps(constrainOutput, steps);
    BudgetIsAskedFor(constrainOutput, steps, id);
  }

  /** However many runs share a loop object, it records at most one degradation, retries at most
      one turn, and never enforces the schema again. */
  lemma {:induction false} OneDegradation(constrainOutput: bool, steps: seq<Step>, later: seq<Step>)
    ensures var s := RunAll(Initial(constrainOutput), steps);
            && s.degraded <= 1
            && (s.degraded == 1 ==> RunAll(s, later).supported == Some(false) && RunAll(s, later).degraded == 1)
  {
    RunKeeps(constrainOutput, steps);
    DegradedStays(RunAll(Initial(constrainOutput), steps), later);
  }

  lemma {:induction false} DegradedStays(s: State, later: seq<Step>)
    ensures s.supported == Some(false) ==>
              RunAll(s, later).supported == Some(false) && RunAll(s, later).degraded == s.degraded
  {
    if later != [] {
      DegradedStays(s, later[..|later| - 1]);
    }
  }

  /** A backend that rejects the schema is meant to cost a retry and not the run.  A turn sent
      with the schema and rejected gets its retry exactly when no other turn has degraded the
      loop since it was sent. */
  lemma RejectedTurnSurvivesIff(s: State, id: string)
    requires Inv(s) && id in s.runs && s.runs[id].phase == Waiting(true) && s.constrainOutput
    ensures var r := Next(s, Failed(id, true)).runs[id];
            r.phase == (if s.degraded == 0 then Retrying else Over(InferenceError))
  {
  }

  /** Two runs waiting with the schema, on a loop that has not degraded: when both turns are
      rejected, the first is retried and the other run is lost without a retry. */
  lemma RejectedTogether(s: State, a: string, b: string)
    requires Inv(s) && s.degraded == 0 && a != b && a in s.runs && b in s.runs
    requires s.runs[a].phase == s.runs[b].phase == Waiting(true)
    ensures var after := Next(Next(s, Failed(a, true)), Failed(b, true));
            && after.runs[a].phase == Retrying
            && after.runs[b] == s.runs[b].(phase := Over(InferenceError)) && !after.runs[b].retried
  {
  }

  /** Two runs started on a fresh loop come to wait so. */
  lemma WaitingTogether(a: string, b: string, n: int)
    requires a != b && n >= 1
    ensures var s := RunAll(Initial(true), [Start(a, n), Start(b, n), NextStep(a), NextStep(b)]);
            var waiting := Run(n, 0, 1, 1, false, Waiting(true));
            s == State(true, None, 0, map[a := waiting, b := waiting])
  {
    hide RunAll;
    var s := Initial(true);
    var idle, waiting := Run(n, 0, 0, 0, false, Idle), Run(n, 0, 1, 1, false, Waiting(true));
    OneMore(s, [], Start(a, n));
    OneMore(s, [Start(a, n)], Start(b, n));
    OneMore(s, [Start(a, n), Start(b, n)], NextStep(a));
    OneMore(s, [Start(a, n), Start(b, n), NextStep(a)], NextStep(b));
    assert [] + [Start(a, n)] == [Start(a, n)];
    assert Next(s, Start(a, n)).runs == map[a := idle];
    assert [Start(a, n)] + [Start(b, n)] == [Start(a, n), Start(b, n)];
    assert Next(Next(s, Start(a, n)), Start(b, n)).runs == map[a := idle, b := idle];
    assert [Start(a, n), Start(b, n)] + [NextStep(a)] == [Start(a, n), Start(b, n), NextStep(a)];
    assert [Start(a, n), Start(b, n), NextStep(a)] + [NextStep(b)]
      == [Start(a, n), Start(b, n), NextStep(a), NextStep(b)];
    assert map[a := idle, b := idle][a := waiting][b := waiting] == map[a := waiting, b := waiting];
  }

  lemma {:induction false} OneMore(s: State, steps: seq<Step>, step: Step)
    ensures RunAll(s, []) == s
    ensures RunAll(s, steps + [step]) == Next(RunAll(s, steps), step)
  {
    assert (steps + [step])[..|steps|] == steps;
  }

  class NativeAgentLoop {
    const constrainOutput: bool
    var constraintSupported: Option<bool>
    var degradations: nat
    var runs: map<string, Run>

    constructor (constrainOutput: bool)
      ensures Now() == Initial(constrainOutput) && Valid()
    {
      this.constrainOutput := constrainOutput;
      constraintSupported, degradations, runs := None, 0, map[];
    }

    function Now(): State
      reads this
    {
      State(constrainOutput, constraintSupported, degradations, runs)
    }

    ghost predicate Valid()
      reads this
    {
      Inv(Now())
    }

    predicate Constraining()
      reads this
    {
      constrainOutput && constraintSupported != Some(false)
    }

    method StartRun(id: string, maxSteps: int)
      requires Valid()
      modifies this
      ensures Valid() && Now() == Next(old(Now()), Start(id, maxSteps))
      ensures runs == if id in old(runs) then old(runs) else old(runs)[id := Run(maxSteps, 0, 0, 0, false, Idle)]
    {
      StepKeeps(Now(), Start(id, maxSteps));
      if id !in runs {
        runs := runs[id := Run(maxSteps, 0, 0, 0, false, Idle)];
      }
    }

    /** A call of next_step, up to its model call: whether one was made, and how. */
    method BeginTurn(id: string) returns (asked: bool, constrained: bool)
      requires Valid() && id in runs && runs[id].phase == Idle
      modifies this`runs
      ensures Valid() && Now() == Next(old(Now()), NextStep(id))
      ensures asked <==> old(runs)[id].turns < old(runs)[id].maxSteps && old(runs)[id].turns < 25
      ensures constrained <==> constrainOutput && constraintSupported != Some(false)
      ensures var r := old(runs)[id];
              runs == old(runs)[id := if asked
                                      then r.(calls := r.calls + 1, chats := r.chats + 1, phase := Waiting(constrained))
                                      else r.(calls := r.calls + 1, phase := Over(BudgetExhausted))]
    {
      hide Inv;
      StepKeeps(Now(), NextStep(id));
      var r := runs[id];
      var budget := if r.maxSteps < HARD_CAP then r.maxSteps else HARD_CAP;
      constrained := Constraining();
      asked := r.turns < budget;
      if asked {
        runs := runs[id := r.(calls := r.calls + 1, chats := r.chats + 1, phase := Waiting(constrained))];
      } else {
        runs := runs[id := r.(calls := r.calls + 1, phase := Over(BudgetExhausted))];
      }
    }

    /** The model's reply to the turn or to its retry. */
    method Answered(id: string, reply: Reply)
      requires Valid() && id in runs && (runs[id].phase.Waiting? || runs[id].phase.Retrying?)
      modifies this
      ensures Valid() && Now() == Next(old(Now()), Replied(id, reply))
      ensures var r := old(runs)[id];
              runs == old(runs)[id := if reply == DoneAction then r.(phase := Over(Done))
                                      else r.(turns := r.turns + 1, phase := Idle)]
      ensures degradations == old(degradations)
      ensures constraintSupported == if old(runs)[id].phase == Waiting(true) && old(constraintSupported) == None
                                     then Some(true) else old(constraintSupported)
    {
      hide Inv;
      StepKeeps(Now(), Replied(id, reply));
      var r := runs[id];
      if r.phase.Waiting? && r.phase.constrained && constraintSupported == None {
        constraintSupported := Some(true);
      }
      if reply == DoneAction {
        runs := runs[id := r.(phase := Over(Done))];
      } else {
        runs := runs[id := r.(turns := r.turns + 1, phase := Idle)];
      }
    }

    /** The model call failed; the result says whether a retry has been sent. */
    method CallFailed(id: string, payloadAtFault: bool) returns (retry: bool)
      requires Valid() && id in runs && (runs[id].phase.Waiting? || runs[id].phase.Retrying?)
      modifies this
      ensures Valid() && Now() == Next(old(Now()), Failed(id, payloadAtFault))
      ensures runs[id].phase == if retry then Retrying else Over(InferenceError)
      ensures retry <==> old(runs)[id].phase.Waiting? && payloadAtFault
                         && constrainOutput && old(constraintSupported) != Some(false)
      ensures constraintSupported == if retry then Some(false) else old(constraintSupported)
      ensures degradations == old(degradations) + if retry then 1 else 0
      ensures var r := old(runs)[id];
              runs == old(runs)[id := if retry then r.(chats := r.chats + 1, retried := true, phase := Retrying)
                                      else r.(phase := Over(InferenceError))]
    {
      hide Inv;
      StepKeeps(Now(), Failed(id, payloadAtFault));
      var r := runs[id];
      retry := r.phase.Waiting? && Constraining() && payloadAtFault;
      if retry {
        constraintSupported := Some(false);
        degradations := degradations + 1;
        runs := runs[id := r.(chats := r.chats + 1, retried := true, phase := Retrying)];
      } else {
        runs := runs[id := r.(phase := Over(InferenceError))];
      }
    }
  }
}
