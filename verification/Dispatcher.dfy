/** The bounded job dispatcher with its run and job journals
    (src/sovereign_ai/kernel/dispatcher.py, runs.py, jobs.py).

    Everything between two await points is one atomic step.  Which worker moves next, what its
    executor answers, and when a cancellation strikes are all left open. */
module Dispatcher {

  datatype Status = Queued | Running | Succeeded | Failed | Cancelled | Interrupted

  datatype RunRow = RunRow(job: nat, attempt: nat, status: Status)

  datatype JobRow = JobRow(status: Status, cancellationRequested: bool)

  /** A worker waits on the queue, awaits the executor for a run, or has ended. */
  datatype Worker = Idle | Busy(run: nat) | Dead

  datatype State = State(
    runs: seq<RunRow>,
    jobs: seq<JobRow>,
    queue: seq<nat>,
    workers: seq<Worker>,
    active: map<nat, nat>)

  /** The two bounds, after the constructor's `max(1, ...)`. */
  datatype Config = Config(maxConcurrency: nat, queueMax: nat)

  predicate Terminal(s: Status) {
    s != Queued && s != Running
  }

  /* ---------- attempts ---------- */

  function CountRuns(runs: seq<RunRow>, job: nat): nat {
    if runs == [] then 0
    else CountRuns(runs[..|runs| - 1], job) + (if runs[|runs| - 1].job == job then 1 else 0)
  }

  /** `SELECT MAX(attempt)`, 0 when there is none. */
  function MaxAttempt(runs: seq<RunRow>, job: nat): nat {
    if runs == [] then 0
    else
      var before, last := MaxAttempt(runs[..|runs| - 1], job), runs[|runs| - 1];
      if last.job == job && last.attempt > before then last.attempt else before
  }

  /** The attempts of each job are 1, 2, ... in the order the runs were created. */
  predicate Numbered(runs: seq<RunRow>) {
    forall r :: 0 <= r < |runs| ==> runs[r].attempt == CountRuns(runs[..r], runs[r].job) + 1
  }

  lemma {:induction false} MaxIsCount(runs: seq<RunRow>, job: nat)
    requires Numbered(runs)
    ensures MaxAttempt(runs, job) == CountRuns(runs, job)
  {
    if runs != [] {
      var n := |runs| - 1;
      assert forall r :: 0 <= r < n ==> runs[..n][..r] == runs[..r];
      MaxIsCount(runs[..n], job);
    }
  }

  lemma {:induction false} CountIgnoresStatus(runs: seq<RunRow>, runs': seq<RunRow>, job: nat)
    requires |runs| == |runs'|
    requires forall r :: 0 <= r < |runs| ==> runs'[r].job == runs[r].job
    ensures CountRuns(runs', job) == CountRuns(runs, job)
  {
    if runs != [] {
      CountIgnoresStatus(runs[..|runs| - 1], runs'[..|runs| - 1], job);
    }
  }

  lemma NumberedIgnoresStatus(runs: seq<RunRow>, runs': seq<RunRow>)
    requires Numbered(runs) && |runs| == |runs'|
    requires forall r :: 0 <= r < |runs| ==> runs'[r] == runs[r].(status := runs'[r].status)
    ensures Numbered(runs')
  {
    forall r | 0 <= r < |runs'| ensures runs'[r].attempt == CountRuns(runs'[..r], runs'[r].job) + 1 {
      CountIgnoresStatus(runs[..r], runs'[..r], runs[r].job);
    }
  }

  lemma NumberedAppend(runs: seq<RunRow>, job: nat, status: Status)
    requires Numbered(runs)
    ensures Numbered(runs + [RunRow(job, MaxAttempt(runs, job) + 1, status)])
  {
    var runs' := runs + [RunRow(job, MaxAttempt(runs, job) + 1, status)];
    MaxIsCount(runs, job);
    forall r | 0 <= r < |runs'| ensures runs'[r].attempt == CountRuns(runs'[..r], runs'[r].job) + 1 {
      assert runs'[..r] == runs[..r];
      assert r == |runs| ==> runs[..r] == runs;
    }
  }

  /* ---------- steps ---------- */

  datatype Step =
    | Start
    | CreateJob
    | Submit(job: nat)
    | RequestCancel(job: nat)
    | Take(worker: nat)
    | Finish(worker: nat, outcome: Status)
    | StopIdle(worker: nat)
    | ShutdownDone
    | Restart

  function SetRun(runs: seq<RunRow>, r: nat, status: Status): seq<RunRow>
    requires r < |runs|
  {
    runs[r := runs[r].(status := status)]
  }

  function SetJob(jobs: seq<JobRow>, j: nat, status: Status): seq<JobRow>
    requires j < |jobs|
  {
    jobs[j := jobs[j].(status := status)]
  }

  /** `UPDATE ... WHERE status='queued'`. */
  function MarkJobRunning(jobs: seq<JobRow>, j: nat): seq<JobRow>
    requires j < |jobs|
  {
    if jobs[j].status == Queued then SetJob(jobs, j, Running) else jobs
  }

  function MarkRunRunning(runs: seq<RunRow>, r: nat): seq<RunRow>
    requires r < |runs|
  {
    if runs[r].status == Queued then SetRun(runs, r, Running) else runs
  }

  function RecoverRuns(runs: seq<RunRow>): seq<RunRow> {
    seq(|runs|, r requires 0 <= r < |runs| =>
      if Terminal(runs[r].status) then runs[r] else runs[r].(status := Interrupted))
  }

  function RecoverJobs(jobs: seq<JobRow>): seq<JobRow> {
    seq(|jobs|, j requires 0 <= j < |jobs| =>
      if Terminal(jobs[j].status) then jobs[j] else jobs[j].(status := Interrupted))
  }

  function SubmitJob(cfg: Config, s: State, j: nat): State
    requires j < |s.jobs|
  {
    var attempt := MaxAttempt(s.runs, j) + 1;
    if |s.queue| < cfg.queueMax
    then State(s.runs + [RunRow(j, attempt, Queued)], s.jobs, s.queue + [|s.runs|], s.workers, s.active)
    else State(s.runs + [RunRow(j, attempt, Failed)], SetJob(s.jobs, j, Failed), s.queue, s.workers, s.active)
  }

  predicate CanTake(s: State, w: nat) {
    w < |s.workers| && s.workers[w] == Idle && s.queue != []
    && s.queue[0] < |s.runs| && s.runs[s.queue[0]].job < |s.jobs|
  }

  predicate CanFinish(s: State, w: nat, outcome: Status) {
    w < |s.workers| && s.workers[w].Busy? && outcome in {Succeeded, Failed, Cancelled}
    && s.workers[w].run < |s.runs| && s.runs[s.workers[w].run].job < |s.jobs|
  }

  function TakeRun(s: State, w: nat): State
    requires CanTake(s, w)
  {
    var r := s.queue[0];
    var j := s.runs[r].job;
    State(MarkRunRunning(s.runs, r), MarkJobRunning(s.jobs, j), s.queue[1..], s.workers[w := Busy(r)], s.active[j := w])
  }

  /** A cancelled executor ends its worker; otherwise the worker goes back to the queue. */
  function FinishRun(s: State, w: nat, outcome: Status): State
    requires CanFinish(s, w, outcome)
  {
    var r := s.workers[w].run;
    var j := s.runs[r].job;
    State(SetRun(s.runs, r, outcome), SetJob(s.jobs, j, outcome), s.queue,
          s.workers[w := if outcome == Cancelled then Dead else Idle], s.active - {j})
  }

  /** A step that is not possible changes nothing. */
  function Next(cfg: Config, s: State, step: Step): State {
    match step
    case Start =>
      if s.workers == [] then s.(workers := seq(cfg.maxConcurrency, i => Idle)) else s
    case CreateJob => s.(jobs := s.jobs + [JobRow(Queued, false)])
    case Submit(j) => if j < |s.jobs| then SubmitJob(cfg, s, j) else s
    case RequestCancel(j) =>
      if j < |s.jobs| && !Terminal(s.jobs[j].status)
      then s.(jobs := s.jobs[j := s.jobs[j].(cancellationRequested := true)])
      else s
    case Take(w) => if CanTake(s, w) then TakeRun(s, w) else s
    case Finish(w, outcome) => if CanFinish(s, w, outcome) then FinishRun(s, w, outcome) else s
    case StopIdle(w) => if w < |s.workers| && s.workers[w] == Idle then s.(workers := s.workers[w := Dead]) else s
    case ShutdownDone =>
      if forall w :: 0 <= w < |s.workers| ==> s.workers[w] == Dead then s.(workers := [], active := map[]) else s
    case Restart => State(RecoverRuns(s.runs), RecoverJobs(s.jobs), [], [], map[])
  }

  function Run(cfg: Config, steps: seq<Step>): State {
    if steps == [] then State([], [], [], [], map[])
    else Next(cfg, Run(cfg, steps[..|steps| - 1]), steps[|steps| - 1])
  }

  /* ---------- ownership ---------- */

  predicate NoDuplicates(q: seq<nat>) {
    forall i, k :: 0 <= i < k < |q| ==> q[i] != q[k]
  }

  /** A queued run is in the queue, a running one is held by a worker, and nothing else is. */
  predicate Placed(s: State) {
    && (forall r :: 0 <= r < |s.runs| ==> (s.runs[r].status == Queued <==> r in s.queue))
    && (forall r :: 0 <= r < |s.runs| ==> (s.runs[r].status == Running <==> Busy(r) in s.workers))
    && (forall i :: 0 <= i < |s.queue| ==> s.queue[i] < |s.runs|)
    && (forall w :: 0 <= w < |s.workers| && s.workers[w].Busy? ==> s.workers[w].run < |s.runs|)
  }

  /** No run is in the queue twice or held by two workers. */
  predicate Exclusive(s: State) {
    && NoDuplicates(s.queue)
    && (forall v, w :: 0 <= v < w < |s.workers| && s.workers[v].Busy? ==> s.workers[v] != s.workers[w])
  }

  predicate Bounded(cfg: Config, s: State) {
    && |s.queue| <= cfg.queueMax
    && (|s.workers| == 0 || |s.workers| == cfg.maxConcurrency)
    && (forall r :: 0 <= r < |s.runs| ==> s.runs[r].job < |s.jobs|)
  }

  predicate Inv(cfg: Config, s: State) {
    Placed(s) && Exclusive(s) && Bounded(cfg, s) && Numbered(s.runs)
  }

  lemma SubmitKeeps(cfg: Config, s: State, j: nat)
    requires Inv(cfg, s) && j < |s.jobs|
    ensures Inv(cfg, SubmitJob(cfg, s, j))
  {
    hide Numbered, MaxAttempt;
    var s' := SubmitJob(cfg, s, j);
    if |s.queue| < cfg.queueMax {
      NumberedAppend(s.runs, j, Queued);
      forall i, k | 0 <= i < k < |s'.queue| ensures s'.queue[i] != s'.queue[k] {
        assert s.queue[i] in s.queue;
      }
    } else {
      NumberedAppend(s.runs, j, Failed);
    }
    forall w | 0 <= w < |s'.workers| && s'.workers[w].Busy? ensures s'.workers[w].run < |s.runs| {
    }
    assert forall r: nat :: Busy(r) in s'.workers ==> r < |s.runs|;
    assert forall r :: r in s.queue ==> r < |s.runs|;
  }

  lemma TakeKeeps(cfg: Config, s: State, w: nat)
    requires Inv(cfg, s) && CanTake(s, w)
    ensures Inv(cfg, TakeRun(s, w))
  {
    hide Numbered;
    var s', r := TakeRun(s, w), s.queue[0];
    assert r in s.queue;
    NumberedIgnoresStatus(s.runs, s'.runs);
    assert forall i :: 0 <= i < |s'.queue| ==> s'.queue[i] == s.queue[i + 1];
    forall q | 0 <= q < |s'.runs|
      ensures s'.runs[q].status == Queued <==> q in s'.queue
      ensures s'.runs[q].status == Running <==> Busy(q) in s'.workers
    {
      if q == r {
        assert s'.workers[w] == Busy(q);
      } else {
        SameElsewhere(s.workers, w, Busy(r), Busy(q));
        if q in s.queue {
          var i :| 0 <= i < |s.queue| && s.queue[i] == q;
          assert s'.queue[i - 1] == q;
        }
      }
    }
    forall v | 0 <= v < |s.workers| && v != w ensures s.workers[v] != Busy(r) {
      assert s.workers[v] == Busy(r) ==> Busy(r) in s.workers;
    }
  }

  /** Replacing an entry that is not `x` by another that is not `x` does not change whether `x` occurs. */
  lemma SameElsewhere(ws: seq<Worker>, w: nat, by_: Worker, x: Worker)
    requires w < |ws| && ws[w] != x && by_ != x
    ensures x in ws <==> x in ws[w := by_]
  {
    if x in ws {
      var i :| 0 <= i < |ws| && ws[i] == x;
      assert ws[w := by_][i] == x;
    }
  }

  lemma FinishKeeps(cfg: Config, s: State, w: nat, outcome: Status)
    requires Inv(cfg, s) && CanFinish(s, w, outcome)
    ensures Inv(cfg, FinishRun(s, w, outcome))
  {
    hide Numbered;
    var s', r := FinishRun(s, w, outcome), s.workers[w].run;
    assert Busy(r) in s.workers;
    NumberedIgnoresStatus(s.runs, s'.runs);
    forall q | 0 <= q < |s'.runs| ensures s'.runs[q].status == Running <==> Busy(q) in s'.workers {
      if q == r {
        assert forall v :: 0 <= v < |s.workers| && v != w ==> s.workers[v] != Busy(r);
      } else {
        SameElsewhere(s.workers, w, s'.workers[w], Busy(q));
      }
    }
  }

  lemma PoolChangeKeeps(cfg: Config, s: State, workers: seq<Worker>, active: map<nat, nat>)
    requires Inv(cfg, s)
    requires |workers| == 0 || |workers| == cfg.maxConcurrency
    requires forall r :: Busy(r) in s.workers <==> Busy(r) in workers
    requires forall v, w :: 0 <= v < w < |workers| && workers[v].Busy? ==> workers[v] != workers[w]
    ensures Inv(cfg, s.(workers := workers, active := active))
  {
    hide Numbered;
    forall w | 0 <= w < |workers| && workers[w].Busy? ensures workers[w].run < |s.runs| {
      assert workers[w] in workers;
      assert Busy(workers[w].run) in s.workers;
    }
  }

  lemma RestartKeeps(cfg: Config, s: State)
    requires Inv(cfg, s)
    ensures Inv(cfg, Next(cfg, s, Restart))
  {
    NumberedIgnoresStatus(s.runs, RecoverRuns(s.runs));
  }

  lemma StepKeeps(cfg: Config, s: State, step: Step)
    requires Inv(cfg, s)
    ensures Inv(cfg, Next(cfg, s, step))
  {
    match step
    case Submit(j) => if j < |s.jobs| { hide Inv; SubmitKeeps(cfg, s, j); }
    case Take(w) => if CanTake(s, w) { hide Inv; TakeKeeps(cfg, s, w); }
    case Finish(w, outcome) => if CanFinish(s, w, outcome) { hide Inv; FinishKeeps(cfg, s, w, outcome); }
    case Restart => RestartKeeps(cfg, s);
    case StopIdle(w) =>
      if w < |s.workers| && s.workers[w] == Idle {
        forall r ensures Busy(r) in s.workers <==> Busy(r) in s.workers[w := Dead] {
          SameElsewhere(s.workers, w, Dead, Busy(r));
        }
        PoolChangeKeeps(cfg, s, s.workers[w := Dead], s.active);
      }
    case Start => if s.workers == [] { PoolChangeKeeps(cfg, s, seq(cfg.maxConcurrency, i => Idle), s.active); }
    case ShutdownDone =>
      if forall w :: 0 <= w < |s.workers| ==> s.workers[w] == Dead { PoolChangeKeeps(cfg, s, [], map[]); }
    case _ =>
  }

  lemma {:induction false} RunKeeps(cfg: Config, steps: seq<Step>)
    ensures Inv(cfg, Run(cfg, steps))
  {
    if steps != [] {
      RunKeeps(cfg, steps[..|steps| - 1]);
      hide Inv, Next;
      StepKeeps(cfg, Run(cfg, steps[..|steps| - 1]), steps[|steps| - 1]);
    }
  }

  /** How often a run occurs in the queue and in workers' hands. */
  function QueueCount(s: State, r: nat): nat { multiset(s.queue)[r] }
  function HolderCount(s: State, r: nat): nat { multiset(s.workers)[Busy(r)] }

  lemma {:induction false} CountInQueue(q: seq<nat>, r: nat)
    requires NoDuplicates(q)
    ensures multiset(q)[r] == if r in q then 1 else 0
  {
    if q != [] {
      var n := |q| - 1;
      CountInQueue(q[..n], r);
      assert q == q[..n] + [q[n]];
      assert q[n] !in q[..n];
    }
  }

  lemma {:induction false} CountInWorkers(ws: seq<Worker>, r: nat)
    requires forall v, w :: 0 <= v < w < |ws| && ws[v].Busy? ==> ws[v] != ws[w]
    ensures multiset(ws)[Busy(r)] == if Busy(r) in ws then 1 else 0
  {
    if ws != [] {
      var n := |ws| - 1;
      CountInWorkers(ws[..n], r);
      assert ws == ws[..n] + [ws[n]];
      assert ws[n].Busy? ==> ws[n] !in ws[..n];
    }
  }

  /** Run ownership, at every await point of every run of the process, restarts included: a run
      is queued and in the queue once, or running and held by exactly one worker, or terminal
      and in nobody's hands. */
  lemma EveryRunHasOnePlace(cfg: Config, steps: seq<Step>, r: nat)
    requires r < |Run(cfg, steps).runs|
    ensures var s := Run(cfg, steps);
            match s.runs[r].status
            case Queued => QueueCount(s, r) == 1 && HolderCount(s, r) == 0
            case Running => QueueCount(s, r) == 0 && HolderCount(s, r) == 1
            case _ => QueueCount(s, r) == 0 && HolderCount(s, r) == 0
  {
    RunKeeps(cfg, steps);
    var s := Run(cfg, steps);
    CountInQueue(s.queue, r);
    CountInWorkers(s.workers, r);
  }

  function InFlight(s: State): set<nat> {
    set r | 0 <= r < |s.runs| && s.runs[r].status == Running
  }

  function BusyWorkers(s: State): set<nat> {
    set w | 0 <= w < |s.workers| && s.workers[w].Busy?
  }

  function LiveWorkers(s: State): set<nat> {
    set w | 0 <= w < |s.workers| && s.workers[w] != Dead
  }

  lemma {:induction false} HeldRunsSize(workers: seq<Worker>, ws: set<nat>)
    requires forall w :: w in ws ==> w < |workers| && workers[w].Busy?
    requires forall v, w :: v in ws && w in ws && v != w ==> workers[v] != workers[w]
    ensures |set w | w in ws :: workers[w].run| == |ws|
    decreases |ws|
  {
    if ws != {} {
      var w :| w in ws;
      var rest := ws - {w};
      HeldRunsSize(workers, rest);
      assert (set v | v in ws :: workers[v].run) == (set v | v in rest :: workers[v].run) + {workers[w].run};
      assert workers[w].run !in (set v | v in rest :: workers[v].run);
    }
  }

  lemma {:induction false} SizeBelow(ws: set<nat>, n: nat)
    requires forall w :: w in ws ==> w < n
    ensures |ws| <= n
  {
    if n == 0 {
      assert ws == {};
    } else {
      SizeBelow(ws - {n - 1}, n - 1);
    }
  }

  lemma SubsetSize<T>(a: set<T>, b: set<T>)
    requires a <= b
    ensures |a| <= |b|
  {
    assert b == a + (b - a);
  }

  /** The bounds hold at every await point: backlog, work in flight, live workers. */
  lemma BoundsHold(cfg: Config, steps: seq<Step>)
    ensures var s := Run(cfg, steps);
            && |s.queue| <= cfg.queueMax
            && |InFlight(s)| == |BusyWorkers(s)| <= |LiveWorkers(s)| <= cfg.maxConcurrency
  {
    hide Numbered, Run;
    RunKeeps(cfg, steps);
    var s := Run(cfg, steps);
    var busy := BusyWorkers(s);
    HeldRunsSize(s.workers, busy);
    var held := set w | w in busy :: s.workers[w].run;
    forall r ensures r in held <==> r in InFlight(s) {
      if r in InFlight(s) {
        assert Busy(r) in s.workers;
        var w :| 0 <= w < |s.workers| && s.workers[w] == Busy(r);
        assert w in busy;
      }
      if r in held {
        var w :| w in busy && s.workers[w].run == r;
        assert Busy(r) in s.workers;
      }
    }
    assert held == InFlight(s);
    SubsetSize(busy, LiveWorkers(s));
    SizeBelow(LiveWorkers(s), |s.workers|);
  }

  lemma StepLeavesTerminal(cfg: Config, s: State, step: Step, r: nat)
    requires Inv(cfg, s) && r < |s.runs| && Terminal(s.runs[r].status)
    ensures r < |Next(cfg, s, step).runs| && Next(cfg, s, step).runs[r] == s.runs[r]
  {
    hide Numbered, Bounded;
    match step
    case Take(w) =>
      if CanTake(s, w) {
        assert s.queue[0] in s.queue;
      }
    case Finish(w, outcome) =>
      if CanFinish(s, w, outcome) {
        assert s.workers[w] in s.workers;
        assert Busy(s.workers[w].run) in s.workers;
      }
    case _ =>
  }

  /** A terminal run is never touched again, not even by a restart. */
  lemma {:induction false} TerminalIsFinal(cfg: Config, steps: seq<Step>, more: seq<Step>, r: nat)
    requires r < |Run(cfg, steps).runs| && Terminal(Run(cfg, steps).runs[r].status)
    ensures r < |Run(cfg, steps + more).runs| && Run(cfg, steps + more).runs[r] == Run(cfg, steps).runs[r]
    decreases |more|
  {
    if more == [] {
      assert steps + more == steps;
    } else {
      var front := more[..|more| - 1];
      assert (steps + more)[..|steps + more| - 1] == steps + front;
      TerminalIsFinal(cfg, steps, front, r);
      RunKeeps(cfg, steps + front);
      hide Next, Inv;
      StepLeavesTerminal(cfg, Run(cfg, steps + front), more[|more| - 1], r);
    }
  }

  /** The attempt numbers of one job, oldest first. */
  function AttemptsOf(runs: seq<RunRow>, job: nat): seq<nat> {
    if runs == [] then []
    else
      var last := runs[|runs| - 1];
      AttemptsOf(runs[..|runs| - 1], job) + (if last.job == job then [last.attempt] else [])
  }

  lemma {:induction false} NumberedMeansConsecutive(runs: seq<RunRow>, job: nat)
    requires Numbered(runs)
    ensures |AttemptsOf(runs, job)| == CountRuns(runs, job)
    ensures forall i :: 0 <= i < |AttemptsOf(runs, job)| ==> AttemptsOf(runs, job)[i] == i + 1
  {
    if runs != [] {
      var n := |runs| - 1;
      assert forall r :: 0 <= r < n ==> runs[..n][..r] == runs[..r];
      NumberedMeansConsecutive(runs[..n], job);
    }
  }

  /** Every job's attempts are exactly 1, 2, ..., n: none repeated, none skipped. */
  lemma AttemptsAreConsecutive(cfg: Config, steps: seq<Step>, job: nat)
    ensures var attempts := AttemptsOf(Run(cfg, steps).runs, job);
            attempts == seq(|attempts|, i => i + 1)
  {
    hide Run, Inv, AttemptsOf, Numbered;
    RunKeeps(cfg, steps);
    ValidMeansNumbered(cfg, Run(cfg, steps));
    NumberedMeansConsecutive(Run(cfg, steps).runs, job);
  }

  /* ---------- the two journals agree ---------- */

  /** Whenever the job is submitted it is still queued and has no run yet. */
  predicate SubmittedFresh(cfg: Config, steps: seq<Step>, j: nat) {
    forall i :: 0 <= i < |steps| && steps[i] == Submit(j) ==>
      var s := Run(cfg, steps[..i]);
      j < |s.jobs| ==> s.jobs[j].status == Queued && CountRuns(s.runs, j) == 0
  }

  predicate Agrees(s: State, j: nat) {
    && (forall r :: 0 <= r < |s.runs| && s.runs[r].job == j ==> j < |s.jobs| && s.runs[r].status == s.jobs[j].status)
    && (forall q, r :: 0 <= q < r < |s.runs| && s.runs[q].job == j ==> s.runs[r].job != j)
  }

  /** The cancellation table knows exactly the worker that holds the job's run. */
  predicate Findable(s: State, j: nat) {
    && (j in s.active ==>
          && s.active[j] < |s.workers| && s.workers[s.active[j]].Busy?
          && s.workers[s.active[j]].run < |s.runs| && s.runs[s.workers[s.active[j]].run].job == j)
    && (forall w :: 0 <= w < |s.workers| && s.workers[w].Busy? && s.workers[w].run < |s.runs| ==>
          s.runs[s.workers[w].run].job == j ==> j in s.active && s.active[j] == w)
  }

  lemma {:induction false} NoRunsOf(runs: seq<RunRow>, j: nat)
    requires CountRuns(runs, j) == 0
    ensures forall r :: 0 <= r < |runs| ==> runs[r].job != j
  {
    if runs != [] {
      NoRunsOf(runs[..|runs| - 1], j);
    }
  }

  lemma TakeAgrees(cfg: Config, s: State, w: nat, j: nat)
    requires Inv(cfg, s) && CanTake(s, w) && Agrees(s, j) && Findable(s, j)
    ensures Agrees(TakeRun(s, w), j) && Findable(TakeRun(s, w), j)
  {
    hide Numbered, Bounded;
    var s', r := TakeRun(s, w), s.queue[0];
    assert r in s.queue;
    assert forall v :: 0 <= v < |s.workers| && s.workers[v].Busy? ==> Busy(s.workers[v].run) in s.workers;
  }

  lemma FinishAgrees(cfg: Config, s: State, w: nat, outcome: Status, j: nat)
    requires Inv(cfg, s) && CanFinish(s, w, outcome) && Agrees(s, j) && Findable(s, j)
    ensures Agrees(FinishRun(s, w, outcome), j) && Findable(FinishRun(s, w, outcome), j)
  {
    hide Numbered, Bounded;
  }

  lemma SubmitAgrees(cfg: Config, s: State, k: nat, j: nat)
    requires Inv(cfg, s) && Agrees(s, j) && Findable(s, j) && k < |s.jobs|
    requires k == j ==> s.jobs[j].status == Queued && CountRuns(s.runs, j) == 0
    ensures Agrees(SubmitJob(cfg, s, k), j) && Findable(SubmitJob(cfg, s, k), j)
  {
    hide Numbered, Exclusive, Bounded;
    if k == j {
      NoRunsOf(s.runs, j);
    }
  }

  /** Steps that leave the two journals' statuses and the held runs as they are. */
  lemma QuietAgrees(s: State, s': State, j: nat)
    requires Agrees(s, j) && Findable(s, j)
    requires s'.runs == s.runs && |s.jobs| <= |s'.jobs|
    requires forall k :: 0 <= k < |s.jobs| ==> s'.jobs[k].status == s.jobs[k].status
    requires s'.active == s.active || (s'.active == map[] && forall w :: 0 <= w < |s.workers| ==> !s.workers[w].Busy?)
    requires forall w :: 0 <= w < |s.workers| && s.workers[w].Busy? ==>
               w < |s'.workers| && s'.workers[w] == s.workers[w]
    requires forall w :: 0 <= w < |s'.workers| && s'.workers[w].Busy? ==>
               w < |s.workers| && s'.workers[w] == s.workers[w]
    ensures Agrees(s', j) && Findable(s', j)
  {
  }

  lemma RestartAgrees(cfg: Config, s: State, j: nat)
    requires Agrees(s, j)
    ensures Agrees(Next(cfg, s, Restart), j) && Findable(Next(cfg, s, Restart), j)
  {
  }

  lemma StepAgrees(cfg: Config, s: State, step: Step, j: nat)
    requires Inv(cfg, s) && Agrees(s, j) && Findable(s, j)
    requires step == Submit(j) && j < |s.jobs| ==> s.jobs[j].status == Queued && CountRuns(s.runs, j) == 0
    ensures Agrees(Next(cfg, s, step), j) && Findable(Next(cfg, s, step), j)
  {
    hide Inv, Agrees, Findable;
    match step
    case Submit(k) => if k < |s.jobs| { SubmitAgrees(cfg, s, k, j); }
    case Take(w) => if CanTake(s, w) { TakeAgrees(cfg, s, w, j); }
    case Finish(w, outcome) => if CanFinish(s, w, outcome) { FinishAgrees(cfg, s, w, outcome, j); }
    case Restart => RestartAgrees(cfg, s, j);
    case _ => QuietAgrees(s, Next(cfg, s, step), j);
  }

  /** Job and run agree: for a job submitted once, fresh, its status is its run's status at
      every await point and after every restart, through overflow, cancellation and recovery;
      and a cancel request finds exactly the worker that has it. */
  lemma {:induction false} JobAndRunAgree(cfg: Config, steps: seq<Step>, j: nat)
    requires SubmittedFresh(cfg, steps, j)
    ensures Agrees(Run(cfg, steps), j) && Findable(Run(cfg, steps), j)
  {
    if steps != [] {
      var n := |steps| - 1;
      var before := steps[..n];
      assert forall i :: 0 <= i < n ==> before[i] == steps[i] && before[..i] == steps[..i];
      JobAndRunAgree(cfg, before, j);
      RunKeeps(cfg, before);
      hide Next, Inv, Agrees, Findable;
      StepAgrees(cfg, Run(cfg, before), steps[n], j);
    }
  }

  /** Nothing a queued run can meet prevents its turn: whatever a caller asks to cancel, an idle
      worker still takes the oldest run and marks it and its job running. */
  lemma CancelRequestDoesNotUnqueue(cfg: Config, steps: seq<Step>, j: nat, w: nat)
    requires var s := Run(cfg, steps); s.queue != [] && w < |s.workers| && s.workers[w] == Idle
    ensures var s := Run(cfg, steps);
            var s' := Next(cfg, Next(cfg, s, RequestCancel(j)), Take(w));
            && s.queue[0] < |s'.runs| && s'.runs[s.queue[0]].status == Running && s'.workers[w] == Busy(s.queue[0])
            && s'.queue == s.queue[1..]
  {
    RunKeeps(cfg, steps);
    var s := Run(cfg, steps);
    assert s.queue[0] in s.queue;
  }

  /* ---------- the dispatcher object ---------- */

  class JobDispatcher {
    const maxConcurrency: nat
    const queueMax: nat
    var runs: seq<RunRow>
    var jobs: seq<JobRow>
    var queue: seq<nat>
    var workers: seq<Worker>
    var active: map<nat, nat>

    constructor (maxConcurrency: int, queueMax: int)
      ensures Valid() && runs == [] && jobs == [] && queue == [] && workers == [] && active == map[]
      ensures this.maxConcurrency == (if maxConcurrency >= 1 then maxConcurrency else 1)
      ensures this.queueMax == (if queueMax >= 1 then queueMax else 1)
    {
      this.maxConcurrency := if maxConcurrency > 1 then maxConcurrency else 1;
      this.queueMax := if queueMax > 1 then queueMax else 1;
      runs, jobs, queue, workers, active := [], [], [], [], map[];
    }

    function Snapshot(): State
      reads this
    {
      State(runs, jobs, queue, workers, active)
    }

    function Bounds(): Config {
      Config(maxConcurrency, queueMax)
    }

    predicate Valid()
      reads this
    {
      Inv(Bounds(), Snapshot())
    }

    method NextAttempt(job: nat) returns (attempt: nat)
      requires Valid()
      ensures attempt == MaxAttempt(runs, job) + 1 == CountRuns(runs, job) + 1
    {
      hide Inv;
      var highest := 0;
      for i := 0 to |runs|
        invariant highest == MaxAttempt(runs[..i], job)
      {
        assert runs[..i + 1][..i] == runs[..i];
        if runs[i].job == job && runs[i].attempt > highest {
          highest := runs[i].attempt;
        }
      }
      assert runs[..|runs|] == runs;
      assert Numbered(runs) by {
        ValidMeansNumbered(Bounds(), Snapshot());
      }
      MaxIsCount(runs, job);
      attempt := highest + 1;
    }

    method StartWorkers()
      requires Valid()
      modifies this`workers
      ensures Valid() && Snapshot() == Next(Bounds(), old(Snapshot()), Start)
      ensures old(workers) != [] ==> workers == old(workers)
      ensures old(workers) == [] ==> |workers| == maxConcurrency
      ensures old(workers) == [] ==> forall w :: 0 <= w < |workers| ==> workers[w] == Idle
    {
      StepKeeps(Bounds(), Snapshot(), Start);
      if workers == [] {
        workers := seq(maxConcurrency, i => Idle);
      }
    }

    /** `ok` is false when the queue is full; the attempt is then on record as failed. */
    method SubmitJob(job: nat) returns (run: nat, ok: bool)
      requires Valid() && job < |jobs|
      modifies this`runs, this`jobs, this`queue
      ensures Valid() && Snapshot() == Next(Bounds(), old(Snapshot()), Submit(job))
      ensures run == |old(runs)| && |runs| == run + 1
      ensures runs[run] == RunRow(job, CountRuns(old(runs), job) + 1, if ok then Queued else Failed)
      ensures ok <==> |old(queue)| < queueMax
      ensures runs[..run] == old(runs) && queue == old(queue) + if ok then [run] else []
      ensures jobs == if ok then old(jobs) else old(jobs)[job := old(jobs)[job].(status := Failed)]
    {
      hide Inv;
      StepKeeps(Bounds(), Snapshot(), Submit(job));
      var attempt := NextAttempt(job);
      run := |runs|;
      runs := runs + [RunRow(job, attempt, Queued)];
      ok := |queue| < queueMax;
      if ok {
        queue := queue + [run];
      } else {
        runs := SetRun(runs, run, Failed);
        jobs := SetJob(jobs, job, Failed);
        assert runs == old(runs) + [RunRow(job, attempt, Failed)];
      }
    }

    /** An idle worker takes the oldest queued run up to its first await. */
    method TakeNext(worker: nat)
      requires Valid() && worker < |workers| && workers[worker] == Idle && queue != []
      modifies this
      ensures Valid() && Snapshot() == Next(Bounds(), old(Snapshot()), Take(worker))
      ensures queue == old(queue)[1..] && workers == old(workers)[worker := Busy(old(queue)[0])]
      // The run is now running; so is its job, unless that is already past being queued
      ensures old(queue)[0] < |old(runs)| && old(runs)[old(queue)[0]].job < |old(jobs)|
      ensures runs == old(runs)[old(queue)[0] := old(runs)[old(queue)[0]].(status := Running)]
      ensures var j := old(runs)[old(queue)[0]].job;
              jobs == if old(jobs)[j].status == Queued
                      then old(jobs)[j := old(jobs)[j].(status := Running)] else old(jobs)
    {
      ghost var before := Snapshot();
      QueuedFacts(Bounds(), before);
      hide Inv;
      StepKeeps(Bounds(), before, Take(worker));
      var r := queue[0];
      var j := runs[r].job;
      queue := queue[1..];
      runs := MarkRunRunning(runs, r);
      jobs := MarkJobRunning(jobs, j);
      active := active[j := worker];
      workers := workers[worker := Busy(r)];
    }

    /** The executor returned, raised, or was cancelled. */
    method Complete(worker: nat, outcome: Status)
      requires Valid() && worker < |workers| && workers[worker].Busy? && outcome in {Succeeded, Failed, Cancelled}
      modifies this
      ensures Valid() && Snapshot() == Next(Bounds(), old(Snapshot()), Finish(worker, outcome))
      ensures workers == old(workers)[worker := if outcome == Cancelled then Dead else Idle] && queue == old(queue)
      // The run the worker held and that run's job have the outcome, and nothing else changes
      ensures old(workers)[worker].run < |old(runs)| && old(runs)[old(workers)[worker].run].job < |old(jobs)|
      ensures var r := old(workers)[worker].run;
              var j := old(runs)[r].job;
              && runs == old(runs)[r := old(runs)[r].(status := outcome)]
              && jobs == old(jobs)[j := old(jobs)[j].(status := outcome)]
    {
      ghost var before := Snapshot();
      hide Numbered;
      assert CanFinish(before, worker, outcome);
      hide Inv;
      StepKeeps(Bounds(), before, Finish(worker, outcome));
      var r := workers[worker].run;
      var j := runs[r].job;
      runs := SetRun(runs, r, outcome);
      jobs := SetJob(jobs, j, outcome);
      active := active - {j};
      workers := workers[worker := if outcome == Cancelled then Dead else Idle];
    }

    /** A new process over the same journals. */
    method RecoverInterrupted()
      requires Valid()
      modifies this
      ensures Valid() && Snapshot() == Next(Bounds(), old(Snapshot()), Restart)
      ensures queue == [] && workers == [] && |runs| == |old(runs)| && |jobs| == |old(jobs)|
      // What was queued or running is interrupted, everything else stays
      ensures forall r :: 0 <= r < |runs| ==>
                runs[r] == if old(runs)[r].status in {Queued, Running}
                           then old(runs)[r].(status := Interrupted) else old(runs)[r]
      ensures forall j :: 0 <= j < |jobs| ==>
                jobs[j] == if old(jobs)[j].status in {Queued, Running}
                           then old(jobs)[j].(status := Interrupted) else old(jobs)[j]
    {
      hide Inv;
      StepKeeps(Bounds(), Snapshot(), Restart);
      queue, workers, active := [], [], map[];
      jobs := RecoverJobs(jobs);
      runs := RecoverRuns(runs);
    }
  }

  lemma QueuedFacts(cfg: Config, s: State)
    requires Inv(cfg, s) && s.queue != []
    ensures s.queue[0] < |s.runs| && s.runs[s.queue[0]].job < |s.jobs| && s.runs[s.queue[0]].status == Queued
  {
    hide Numbered;
    assert s.queue[0] in s.queue;
  }

  lemma ValidMeansNumbered(cfg: Config, s: State)
    requires Inv(cfg, s)
    ensures Numbered(s.runs)
  {
  }
}
