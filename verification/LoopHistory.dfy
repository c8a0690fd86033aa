/** Why each run of the native agent loop ended, and what its turns were
    (src/sovereign_ai/agents/native_loop.py), over whole histories of one loop object. */
module LoopHistory {
  import opened Json
  import opened NativeLoop

  /** The ending that a step gives to a run, if it gives it one: the model says done, the model
      cannot be asked or asked again, or the budget is used up when the next turn is due. */
  function EndingGiven(s: State, step: Step, id: string): Option<Ending> {
    if id !in s.runs || step.id != id then None
    else
      var r := s.runs[id];
      match step
      case NextStep(_) =>
        if r.phase == Idle && (r.maxSteps <= r.turns || 25 <= r.turns) then Some(BudgetExhausted) else None
      case Replied(_, reply) =>
        if reply == DoneAction && (r.phase.Waiting? || r.phase.Retrying?) then Some(Done) else None
      case Failed(_, payloadAtFault) =>
        if r.phase.Retrying?
           || (r.phase.Waiting? && !(payloadAtFault && s.constrainOutput && s.supported != Some(false)))
        then Some(InferenceError) else None
      case Start(_, _) => None
  }

  /** A step adds a turn to a run exactly if it brings a reply other than done. */
  predicate TurnGiven(s: State, step: Step, id: string) {
    && step.Replied? && step.id == id && step.reply in {OtherAction, Unparsable}
    && id in s.runs && (s.runs[id].phase.Waiting? || s.runs[id].phase.Retrying?)
  }

  lemma StepHistory(s: State, step: Step, id: string)
    ensures var s', ending := Next(s, step), EndingGiven(s, step, id);
            && (id in s.runs ==> id in s'.runs)
            && (id in s.runs && s.runs[id].phase.Over? ==> s'.runs[id] == s.runs[id] && ending.None?)
            && (id in s'.runs && id !in s.runs ==> s'.runs[id].turns == 0 && s'.runs[id].phase == Idle)
            && (ending.Some? ==> id in s.runs && s'.runs[id].phase == Over(ending.value))
            && (ending.None? && id in s'.runs && s'.runs[id].phase.Over? ==>
                  id in s.runs && s.runs[id].phase == s'.runs[id].phase)
            && (id in s.runs ==> s'.runs[id].turns == s.runs[id].turns + if TurnGiven(s, step, id) then 1 else 0)
            && (id !in s.runs ==> !TurnGiven(s, step, id))
  {
  }

  predicate GivenAt(constrainOutput: bool, steps: seq<Step>, i: nat, id: string, ending: Ending)
    requires i < |steps|
  {
    EndingGiven(RunAll(Initial(constrainOutput), steps[..i]), steps[i], id) == Some(ending)
  }

  predicate EverGiven(constrainOutput: bool, steps: seq<Step>, id: string, ending: Ending) {
    exists i :: 0 <= i < |steps| && GivenAt(constrainOutput, steps, i, id, ending)
  }

  function Turns(constrainOutput: bool, steps: seq<Step>, id: string): nat {
    if steps == [] then 0
    else
      var front := steps[..|steps| - 1];
      Turns(constrainOutput, front, id)
      + if TurnGiven(RunAll(Initial(constrainOutput), front), steps[|steps| - 1], id) then 1 else 0
  }

  lemma {:induction false} EverGivenLast(constrainOutput: bool, steps: seq<Step>, id: string, ending: Ending)
    requires steps != []
    ensures var n := |steps| - 1;
            EverGiven(constrainOutput, steps, id, ending)
            <==> EverGiven(constrainOutput, steps[..n], id, ending)
                 || EndingGiven(RunAll(Initial(constrainOutput), steps[..n]), steps[n], id) == Some(ending)
  {
    hide RunAll, EndingGiven;
    var n := |steps| - 1;
    assert forall i :: 0 <= i < n ==> steps[..n][..i] == steps[..i] && steps[..n][i] == steps[i];
    assert GivenAt(constrainOutput, steps, n, id, ending)
           <==> EndingGiven(RunAll(Initial(constrainOutput), steps[..n]), steps[n], id) == Some(ending);
    if EverGiven(constrainOutput, steps, id, ending) {
      var i :| 0 <= i < |steps| && GivenAt(constrainOutput, steps, i, id, ending);
      assert i < n ==> GivenAt(constrainOutput, steps[..n], i, id, ending);
    }
    if EverGiven(constrainOutput, steps[..n], id, ending) {
      var i :| 0 <= i < n && GivenAt(constrainOutput, steps[..n], i, id, ending);
      assert GivenAt(constrainOutput, steps, i, id, ending);
    }
  }

  lemma {:induction false} Unfold(constrainOutput: bool, steps: seq<Step>, id: string, ending: Ending)
    ensures RunAll(Initial(constrainOutput), []) == Initial(constrainOutput) && Turns(constrainOutput, [], id) == 0
    ensures !EverGiven(constrainOutput, [], id, ending)
    ensures steps != [] ==>
              var before := RunAll(Initial(constrainOutput), steps[..|steps| - 1]);
              && RunAll(Initial(constrainOutput), steps) == Next(before, steps[|steps| - 1])
              && Turns(constrainOutput, steps, id)
                 == Turns(constrainOutput, steps[..|steps| - 1], id)
                    + if TurnGiven(before, steps[|steps| - 1], id) then 1 else 0
  {
    hide Next, TurnGiven;
  }

  /** A run is over in a given way exactly if some step ended it that way, and it has as many turns
      as it was given replies other than done. */
  lemma {:induction false} EndingHasItsCause(constrainOutput: bool, steps: seq<Step>, id: string, ending: Ending)
    ensures var runs := RunAll(Initial(constrainOutput), steps).runs;
            && (id in runs && runs[id].phase == Over(ending) <==> EverGiven(constrainOutput, steps, id, ending))
            && (id in runs ==> runs[id].turns == Turns(constrainOutput, steps, id))
            && (id !in runs ==> Turns(constrainOutput, steps, id) == 0)
  {
    hide RunAll, Next, EverGiven, EndingGiven, TurnGiven, Turns;
    Unfold(constrainOutput, steps, id, ending);
    if steps != [] {
      var n := |steps| - 1;
      EndingHasItsCause(constrainOutput, steps[..n], id, ending);
      EverGivenLast(constrainOutput, steps, id, ending);
      StepHistory(RunAll(Initial(constrainOutput), steps[..n]), steps[n], id);
    }
  }
}
