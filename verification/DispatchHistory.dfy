/** Why each run of the dispatcher ended as it did (src/sovereign_ai/kernel/dispatcher.py, runs.py,
    jobs.py): the one step that gave it its verdict, over whole histories of the process. */
module DispatchHistory {
  import opened Json
  import opened Dispatcher

  /** The final status that a step gives to run `r`, if it gives it one: the outcome that its
      worker's executor reports, failure when there is no room for it in the queue, interruption
      when the process restarts before it has ended. */
  function Verdict(cfg: Config, s: State, step: Step, r: nat): Option<Status> {
    match step
    case Finish(w, outcome) =>
      if w < |s.workers| && s.workers[w] == Busy(r) && outcome in {Succeeded, Failed, Cancelled}
      then Some(outcome) else None
    case Submit(j) =>
      if j < |s.jobs| && r == |s.runs| && cfg.queueMax <= |s.queue| then Some(Failed) else None
    case Restart =>
      if r < |s.runs| && s.runs[r].status in {Queued, Running} then Some(Interrupted) else None
    case _ => None
  }

  lemma StepVerdict(cfg: Config, s: State, step: Step, r: nat)
    requires Inv(cfg, s)
    ensures var s', v := Next(cfg, s, step), Verdict(cfg, s, step, r);
            && |s.runs| <= |s'.runs|
            && (r < |s.runs| ==> s'.runs[r].job == s.runs[r].job && s'.runs[r].attempt == s.runs[r].attempt)
            && (v.Some? ==>
                  && r < |s'.runs| && s'.runs[r].status == v.value && v.value !in {Queued, Running}
                  && (r < |s.runs| ==> s.runs[r].status in {Queued, Running}))
            && (v.None? && r < |s.runs| ==>
                  (s'.runs[r].status == s.runs[r].status
                   || (s.runs[r].status == Queued && s'.runs[r].status == Running)))
            && (v.None? && |s.runs| <= r < |s'.runs| ==> s'.runs[r].status == Queued)
  {
    hide Numbered, NoDuplicates;
    match step
    case Take(w) => if CanTake(s, w) { assert s.queue[0] in s.queue; }
    case Finish(w, outcome) =>
      if CanFinish(s, w, outcome) { assert Busy(s.workers[w].run) in s.workers; }
    case _ =>
  }

  predicate Given(cfg: Config, steps: seq<Step>, i: nat, r: nat, verdict: Status)
    requires i < |steps|
  {
    Verdict(cfg, Run(cfg, steps[..i]), steps[i], r) == Some(verdict)
  }

  predicate EverGiven(cfg: Config, steps: seq<Step>, r: nat, verdict: Status) {
    exists i :: 0 <= i < |steps| && Given(cfg, steps, i, r, verdict)
  }

  lemma {:induction false} EverGivenLast(cfg: Config, steps: seq<Step>, r: nat, verdict: Status)
    requires steps != []
    ensures var n := |steps| - 1;
            EverGiven(cfg, steps, r, verdict)
            <==> EverGiven(cfg, steps[..n], r, verdict)
                 || Verdict(cfg, Run(cfg, steps[..n]), steps[n], r) == Some(verdict)
  {
    hide Run, Verdict;
    var n := |steps| - 1;
    assert forall i :: 0 <= i < n ==> steps[..n][..i] == steps[..i] && steps[..n][i] == steps[i];
    assert forall i :: 0 <= i < n ==> (Given(cfg, steps[..n], i, r, verdict) <==> Given(cfg, steps, i, r, verdict));
    assert Given(cfg, steps, n, r, verdict) <==> Verdict(cfg, Run(cfg, steps[..n]), steps[n], r) == Some(verdict);
    if EverGiven(cfg, steps, r, verdict) {
      var i :| 0 <= i < |steps| && Given(cfg, steps, i, r, verdict);
      assert i < n ==> Given(cfg, steps[..n], i, r, verdict);
    }
    if EverGiven(cfg, steps[..n], r, verdict) {
      var i :| 0 <= i < n && Given(cfg, steps[..n], i, r, verdict);
      assert Given(cfg, steps, i, r, verdict);
    }
  }

  lemma {:induction false} RunLast(cfg: Config, steps: seq<Step>)
    ensures Run(cfg, []) == State([], [], [], [], map[])
    ensures steps != [] ==> Run(cfg, steps) == Next(cfg, Run(cfg, steps[..|steps| - 1]), steps[|steps| - 1])
  {
  }

  /** A run has a final status exactly if some step gave it that one: it succeeded iff a worker
      finished with success while it held the run, was cancelled iff one was cancelled holding
      it, failed iff one failed holding it or there was no room for it, and was interrupted iff
      the process restarted before it had ended. */
  lemma {:induction false} StatusHasItsVerdict(cfg: Config, steps: seq<Step>, r: nat, verdict: Status)
    requires verdict !in {Queued, Running}
    ensures var runs := Run(cfg, steps).runs;
            r < |runs| && runs[r].status == verdict <==> EverGiven(cfg, steps, r, verdict)
  {
    hide Next, Inv, EverGiven, Verdict, Run;
    RunLast(cfg, steps);
    if steps == [] {
      NoneGiven(cfg, r, verdict);
    } else {
      var n := |steps| - 1;
      StatusHasItsVerdict(cfg, steps[..n], r, verdict);
      EverGivenLast(cfg, steps, r, verdict);
      RunKeeps(cfg, steps[..n]);
      StepVerdict(cfg, Run(cfg, steps[..n]), steps[n], r);
    }
  }

  lemma NoneGiven(cfg: Config, r: nat, verdict: Status)
    ensures !EverGiven(cfg, [], r, verdict)
  {
  }

  /** The steps of callers and of shutdown: what each changes, and that it changes nothing else.
      In particular a cancel request only sets a flag, and only on a job that has not ended. */
  lemma OtherStepsAnswer(cfg: Config, s: State, step: Step)
    ensures match step
            case CreateJob => Next(cfg, s, step) == s.(jobs := s.jobs + [JobRow(Queued, false)])
            case RequestCancel(j) =>
              Next(cfg, s, step) == if j < |s.jobs| && s.jobs[j].status in {Queued, Running}
                                    then s.(jobs := s.jobs[j := JobRow(s.jobs[j].status, true)]) else s
            case StopIdle(w) =>
              Next(cfg, s, step) == if w < |s.workers| && s.workers[w] == Idle
                                    then s.(workers := s.workers[w := Dead]) else s
            case ShutdownDone =>
              Next(cfg, s, step) == if exists w :: 0 <= w < |s.workers| && s.workers[w] != Dead then s
                                    else s.(workers := [], active := map[])
            case _ => true
  {
  }
}
