/** When a remote call is let through and what is written down for it
    (src/sovereign_ai/inference/broker.py, src/sovereign_ai/inference/remote_quota.py): both
    directions of every refusal, and the account of every call. */
module BudgetAnswers {
  import opened Json
  import opened RemoteBudget

  /* ---------- the circuit breaker ---------- */

  /** The engine's latest `threshold` calls that really went out have all failed. */
  predicate LatestFailed(rs: seq<Row>, threshold: int) {
    threshold <= |rs| && forall i :: 0 <= i < |rs| && |rs| - threshold <= i ==> rs[i].status == Failure
  }

  /** A failure is less than the cooldown ago. */
  predicate FailedLately(rs: seq<Row>, since: int) {
    exists i :: 0 <= i < |rs| && rs[i].status == Failure && since < rs[i].at
  }

  /** The breaker is open exactly then, and at no other time. */
  lemma {:induction false} BreakerOpenIff(rows: seq<Row>, e: Engine, now: int)
    ensures Refusal(rows, e, now) == Some(BreakerOpen)
            <==> LatestFailed(RealRows(rows, e.id), e.threshold) && FailedLately(RealRows(rows, e.id), now - e.cooldown)
  {
    hide Streak, LastFailure, RealRows, UsageSince;
    StreakMeaning(rows, e.id);
    var rs, k := RealRows(rows, e.id), Streak(rows, e.id);
    assert k < |rs| ==> rs[|rs| - k - 1].status == Success;
  }

  /** Rows are real if they are the engine's and not refusals, and keep their order. */
  lemma {:induction false} RealRowsOf(rows: seq<Row>, r: Row, id: string)
    ensures RealRows([], id) == []
    ensures RealRows(rows + [r], id)
         == RealRows(rows, id) + if r.engine == id && r.status in {Success, Failure} then [r] else []
  {
    assert (rows + [r])[..|rows|] == rows;
  }

  /* ---------- the quotas ---------- */

  /** A day begins at its last midnight, UTC. */
  lemma DayBegins(now: int)
    ensures DayStart(now) <= now < DayStart(now) + 86400 * 1_000_000
    ensures DayStart(now) % (86400 * 1_000_000) == 0
  {
  }

  /** Usage adds up over the ledger. */
  lemma {:induction false} UsageAdds(xs: seq<Row>, ys: seq<Row>, id: string, since: int)
    ensures var u, v := UsageSince(xs, id, since), UsageSince(ys, id, since);
            UsageSince(xs + ys, id, since) == Usage(u.requests + v.requests, u.tokens + v.tokens, u.cost + v.cost)
  {
    if ys == [] {
      assert xs + ys == xs;
    } else {
      UsageAdds(xs, ys[..|ys| - 1], id, since);
      assert (xs + ys)[..|xs + ys| - 1] == xs + ys[..|ys| - 1];
    }
  }

  /** One row counts as a request, refused or not, if it is the engine's and not older; only a
      success has tokens and cost. */
  lemma {:induction false} UsageOfOne(r: Row, id: string, since: int)
    ensures UsageSince([], id, since) == Usage(0, 0, 0.0)
    ensures UsageSince([r], id, since)
         == if r.engine == id && since <= r.at
            then (match r.status
                  case Success => Usage(1, r.tokens, r.cost)
                  case Failure => Usage(1, 0, 0.0)
                  case Refused => Usage(1, 0, 0.0))
            else Usage(0, 0, 0.0)
  {
    assert [r][..0] == [];
    assert UsageSince([r][..0], id, since) == Usage(0, 0, 0.0);
  }

  /** The whole answer: an open breaker first, then the quotas in turn, each once its limit is
      reached; and a call is let through exactly when none of them applies. */
  lemma {:induction false} RefusalAnswers(rows: seq<Row>, e: Engine, now: int)
    ensures var rs, today := RealRows(rows, e.id), UsageSince(rows, e.id, DayStart(now));
            Refusal(rows, e, now) ==
            if LatestFailed(rs, e.threshold) && FailedLately(rs, now - e.cooldown) then Some(BreakerOpen)
            else if e.maxRequests.Some? && e.maxRequests.value <= today.requests then Some(RequestQuota)
            else if e.maxTokens.Some? && e.maxTokens.value <= today.tokens then Some(TokenQuota)
            else if e.maxCost.Some? && e.maxCost.value <= today.cost then Some(CostQuota)
            else None
  {
    BreakerOpenIff(rows, e, now);
    hide Streak, LastFailure, RealRows, UsageSince;
  }

  /* ---------- what is written down ---------- */

  /** A check that is refused leaves one refused row, one that is let through one call in flight. */
  lemma CheckAnswers(engines: map<string, Engine>, s: State, id: string)
    ensures var s' := Next(engines, s, Check(id));
            if id !in engines then s' == s
            else if Refusal(s.rows, engines[id].(id := id), s.now).Some?
            then s' == State(s.now, s.rows + [Row(id, Refused, 0, 0.0, s.now)], s.inFlight)
            else s' == State(s.now, s.rows, s.inFlight[id := s.inFlight[id] + 1])
  {
    hide Refusal;
  }

  /** A call that comes back leaves one row with its outcome, its tokens and its cost, now; an
      abandoned one none. */
  lemma ReturnAnswers(engines: map<string, Engine>, s: State, id: string, tokens: nat, cost: real)
    requires s.inFlight[id] > 0
    ensures var rest := s.inFlight[id := s.inFlight[id] - 1];
            && Next(engines, s, Succeed(id, tokens, cost))
               == State(s.now, s.rows + [Row(id, Success, tokens, cost, s.now)], rest)
            && Next(engines, s, Fail(id)) == State(s.now, s.rows + [Row(id, Failure, 0, 0.0, s.now)], rest)
            && Next(engines, s, Abandon(id)) == State(s.now, s.rows, rest)
  {
    assert s.inFlight - multiset{id} == s.inFlight[id := s.inFlight[id] - 1];
  }

  /** The checks of a run that let a call to the engine through. */
  function Admitted(engines: map<string, Engine>, steps: seq<Step>, id: string): nat {
    if steps == [] then 0
    else
      var front, last := steps[..|steps| - 1], steps[|steps| - 1];
      var s := Run(engines, front);
      Admitted(engines, front, id)
      + if last == Check(id) && id in engines && Refusal(s.rows, engines[id].(id := id), s.now).None? then 1 else 0
  }

  function Abandoned(engines: map<string, Engine>, steps: seq<Step>, id: string): nat {
    if steps == [] then 0
    else
      var front, last := steps[..|steps| - 1], steps[|steps| - 1];
      Abandoned(engines, front, id) + if last == Abandon(id) && Run(engines, front).inFlight[id] > 0 then 1 else 0
  }

  /** Every call that was let through is accounted for: it has its one row, or was abandoned, or
      is still in flight. */
  lemma {:induction false} CallsBalance(engines: map<string, Engine>, steps: seq<Step>, id: string)
    ensures var s := Run(engines, steps);
            Admitted(engines, steps, id) == |RealRows(s.rows, id)| + Abandoned(engines, steps, id) + s.inFlight[id]
  {
    if steps != [] {
      var n := |steps| - 1;
      CallsBalance(engines, steps[..n], id);
      var s := Run(engines, steps[..n]);
      BalanceStep(engines, s, steps[n], id);
      hide Next, Refusal, RealRows;
    }
  }

  lemma {:induction false} BalanceStep(engines: map<string, Engine>, s: State, step: Step, id: string)
    ensures var s' := Next(engines, s, step);
            var admitted := step == Check(id) && id in engines && Refusal(s.rows, engines[id].(id := id), s.now).None?;
            var abandoned := step == Abandon(id) && s.inFlight[id] > 0;
            |RealRows(s'.rows, id)| + s'.inFlight[id] + (if abandoned then 1 else 0)
            == |RealRows(s.rows, id)| + s.inFlight[id] + (if admitted then 1 else 0)
  {
    hide Refusal, RealRows;
    var s' := Next(engines, s, step);
    if |s'.rows| > |s.rows| {
      RealRowsOf(s.rows, s'.rows[|s.rows|], id);
    }
  }

  /* ---------- one call after the other ---------- */

  function LastDone(calls: seq<Call>): int {
    if calls == [] then 0 else calls[|calls| - 1].doneAt
  }

  function OneCallSteps(e: Engine, c: Call, now: int): seq<Step>
    requires now <= c.checkAt <= c.doneAt
  {
    [Wait(c.checkAt - now), Check(e.id), Wait(c.doneAt - c.checkAt),
     if c.ok then Succeed(e.id, c.tokens, c.cost) else Fail(e.id)]
  }

  /** The steps of a client that makes its calls one after the other, from time 0 on. */
  function StepsOf(e: Engine, calls: seq<Call>): seq<Step>
    requires Sequential(calls) && (calls != [] ==> calls[0].checkAt >= 0)
  {
    if calls == [] then []
    else
      var c, front := calls[|calls| - 1], calls[..|calls| - 1];
      assert c.checkAt >= LastDone(front) by {
        assert |calls| > 1 ==> calls[0].checkAt <= calls[0].doneAt;
      }
      StepsOf(e, front) + OneCallSteps(e, c, LastDone(front))
  }

  /** The ledger that the breaker's rate bound speaks of is the one these steps leave behind. */
  lemma {:induction false} LedgerIsOfRun(e: Engine, calls: seq<Call>)
    requires Sequential(calls) && (calls != [] ==> calls[0].checkAt >= 0)
    ensures Run(map[e.id := e], StepsOf(e, calls)) == State(LastDone(calls), LedgerOf(e, calls), multiset{})
  {
    hide Next, Run;
    if calls == [] {
      RunNothing(map[e.id := e]);
    } else {
      var c, front := calls[|calls| - 1], calls[..|calls| - 1];
      assert |calls| > 1 ==> calls[0].checkAt <= calls[0].doneAt;
      LedgerIsOfRun(e, front);
      LedgerOne(e, calls);
      RunOneCall(e, StepsOf(e, front), LedgerOf(e, front), LastDone(front), c);
    }
  }

  lemma {:induction false} RunNothing(engines: map<string, Engine>)
    ensures Run(engines, []) == State(0, [], multiset{})
  {
  }

  lemma {:induction false} RunOneCall(e: Engine, before: seq<Step>, rows: seq<Row>, now: int, c: Call)
    requires Run(map[e.id := e], before) == State(now, rows, multiset{}) && now <= c.checkAt <= c.doneAt
    ensures Run(map[e.id := e], before + OneCallSteps(e, c, now))
         == State(c.doneAt,
                  rows + [if Refusal(rows, e, c.checkAt).Some? then Row(e.id, Refused, 0, 0.0, c.checkAt)
                          else if c.ok then Row(e.id, Success, c.tokens, c.cost, c.doneAt)
                          else Row(e.id, Failure, 0, 0.0, c.doneAt)],
                  multiset{})
  {
    hide Next, Run, Refusal;
    var steps := OneCallSteps(e, c, now);
    RunFour(map[e.id := e], before, steps[0], steps[1], steps[2], steps[3]);
    OneAfterTheOther(e, State(now, rows, multiset{}), c);
  }

  lemma {:induction false} LedgerOne(e: Engine, calls: seq<Call>)
    requires calls != []
    ensures var rows, c := LedgerOf(e, calls[..|calls| - 1]), calls[|calls| - 1];
            LedgerOf(e, calls)
            == rows + [if Refusal(rows, e, c.checkAt).Some? then Row(e.id, Refused, 0, 0.0, c.checkAt)
                       else if c.ok then Row(e.id, Success, c.tokens, c.cost, c.doneAt)
                       else Row(e.id, Failure, 0, 0.0, c.doneAt)]
  {
    hide Refusal;
  }

  lemma {:induction false} RunFour(engines: map<string, Engine>, steps: seq<Step>, a: Step, b: Step, c: Step, d: Step)
    ensures Run(engines, steps + [a, b, c, d])
         == Next(engines, Next(engines, Next(engines, Next(engines, Run(engines, steps), a), b), c), d)
  {
    hide Next;
    var all := steps + [a, b, c, d];
    assert all[..|all| - 1] == steps + [a, b, c];
    assert (steps + [a, b, c])[..|steps| + 2] == steps + [a, b];
    assert (steps + [a, b])[..|steps| + 1] == steps + [a];
    assert (steps + [a])[..|steps|] == steps;
    assert Run(engines, steps + [a]) == Next(engines, Run(engines, steps), a);
    assert Run(engines, steps + [a, b]) == Next(engines, Run(engines, steps + [a]), b);
    assert Run(engines, steps + [a, b, c]) == Next(engines, Run(engines, steps + [a, b]), c);
  }

  lemma OneAfterTheOther(e: Engine, s: State, c: Call)
    requires s.inFlight == multiset{} && s.now <= c.checkAt <= c.doneAt
    ensures var engines := map[e.id := e];
            var checked := Next(engines, Next(engines, s, Wait(c.checkAt - s.now)), Check(e.id));
            var end := if c.ok then Succeed(e.id, c.tokens, c.cost) else Fail(e.id);
            Next(engines, Next(engines, checked, Wait(c.doneAt - c.checkAt)), end)
            == State(c.doneAt,
                     s.rows + [if Refusal(s.rows, e, c.checkAt).Some? then Row(e.id, Refused, 0, 0.0, c.checkAt)
                               else if c.ok then Row(e.id, Success, c.tokens, c.cost, c.doneAt)
                               else Row(e.id, Failure, 0, 0.0, c.doneAt)],
                     multiset{})
  {
    hide Refusal;
    assert e.(id := e.id) == e;
  }
}
