/** Daily budgets and the circuit breaker for remote engines
    (src/sovereign_ai/inference/remote_quota.py and the broker in
    src/sovereign_ai/inference/broker.py).

    Time is a whole number of ticks that never goes back.  The budget check and the ledger row of
    a call are separated by awaits, so other calls run in between. */
module RemoteBudget {
  import opened Json

  const TICKS_PER_SECOND := 1_000_000
  const DAY := 86400 * TICKS_PER_SECOND

  datatype Status = Success | Failure | Refused

  datatype Row = Row(engine: string, status: Status, tokens: nat, cost: real, at: int)

  datatype Engine = Engine(
    id: string,
    maxRequests: Option<int>,
    maxTokens: Option<int>,
    maxCost: Option<real>,
    threshold: int,
    cooldown: int)

  /* ---------- ledger queries ---------- */

  function DayStart(now: int): int {
    now - now % DAY
  }

  datatype Usage = Usage(requests: nat, tokens: nat, cost: real)

  /** Every row of the engine since `since` is a request; only successes cost anything. */
  function UsageSince(rows: seq<Row>, id: string, since: int): Usage {
    if rows == [] then Usage(0, 0, 0.0)
    else
      var u, r := UsageSince(rows[..|rows| - 1], id, since), rows[|rows| - 1];
      if r.engine != id || r.at < since then u
      else if r.status == Success then Usage(u.requests + 1, u.tokens + r.tokens, u.cost + r.cost)
      else Usage(u.requests + 1, u.tokens, u.cost)
  }

  /** Failures since the latest success; refused rows neither extend nor end the streak. */
  function Streak(rows: seq<Row>, id: string): nat {
    if rows == [] then 0
    else
      var front, r := rows[..|rows| - 1], rows[|rows| - 1];
      if r.engine != id || r.status == Refused then Streak(front, id)
      else if r.status == Failure then Streak(front, id) + 1
      else 0
  }

  /** `MAX(created_at)` over the engine's failures. */
  function LastFailure(rows: seq<Row>, id: string): Option<int> {
    if rows == [] then None
    else
      var earlier, r := LastFailure(rows[..|rows| - 1], id), rows[|rows| - 1];
      if r.engine == id && r.status == Failure && (earlier.None? || earlier.value < r.at) then Some(r.at) else earlier
  }

  /** The engine's rows that are not refusals, oldest first. */
  function RealRows(rows: seq<Row>, id: string): seq<Row> {
    if rows == [] then []
    else
      var r := rows[|rows| - 1];
      RealRows(rows[..|rows| - 1], id) + (if r.engine == id && r.status != Refused then [r] else [])
  }

  /** The streak is the longest run of failures at the end of the engine's real rows, and the
      last failure is the latest of them all. */
  lemma {:induction false} StreakMeaning(rows: seq<Row>, id: string)
    ensures var rs, k := RealRows(rows, id), Streak(rows, id);
            && k <= |rs|
            && (forall i :: |rs| - k <= i < |rs| ==> rs[i].status == Failure)
            && (k < |rs| ==> rs[|rs| - k - 1].status == Success)
    ensures var rs, last := RealRows(rows, id), LastFailure(rows, id);
            && (forall i :: 0 <= i < |rs| && rs[i].status == Failure ==> last.Some? && rs[i].at <= last.value)
            && (last.Some? ==> exists i :: 0 <= i < |rs| && rs[i].status == Failure && rs[i].at == last.value)
  {
    if rows != [] {
      var front, r := rows[..|rows| - 1], rows[|rows| - 1];
      StreakMeaning(front, id);
      var before, rs := RealRows(front, id), RealRows(rows, id);
      assert forall i :: 0 <= i < |before| ==> rs[i] == before[i];
      if r.engine == id && r.status != Refused {
        assert rs[|before|] == r;
      }
    }
  }

  datatype Reason = BreakerOpen | RequestQuota | TokenQuota | CostQuota

  predicate BreakerTripped(rows: seq<Row>, e: Engine, now: int) {
    && Streak(rows, e.id) >= e.threshold
    && LastFailure(rows, e.id).Some?
    && now - LastFailure(rows, e.id).value < e.cooldown
  }

  /** `None` lets the call through. */
  function Refusal(rows: seq<Row>, e: Engine, now: int): Option<Reason> {
    var usage := UsageSince(rows, e.id, DayStart(now));
    if BreakerTripped(rows, e, now) then Some(BreakerOpen)
    else if e.maxRequests.Some? && usage.requests >= e.maxRequests.value then Some(RequestQuota)
    else if e.maxTokens.Some? && usage.tokens >= e.maxTokens.value then Some(TokenQuota)
    else if e.maxCost.Some? && usage.cost >= e.maxCost.value then Some(CostQuota)
    else None
  }

  /* ---------- concurrent calls ---------- */

  datatype State = State(now: int, rows: seq<Row>, inFlight: multiset<string>)

  datatype Step =
    | Wait(ticks: nat)
    | Check(engine: string)
    | Succeed(engine: string, tokens: nat, cost: real)
    | Fail(engine: string)
    | Abandon(engine: string)

  function Record(s: State, row: Row): State {
    State(s.now, s.rows + [row], s.inFlight)
  }

  function Return(s: State, id: string, row: Row): State {
    State(s.now, s.rows + [row], s.inFlight - multiset{id})
  }

  /** A step that is not possible changes nothing.  An abandoned call (unhealthy backend, or
      cancelled while waiting) leaves no row. */
  function Next(engines: map<string, Engine>, s: State, step: Step): State {
    match step
    case Wait(ticks) => State(s.now + ticks, s.rows, s.inFlight)
    case Check(id) =>
      if id !in engines then s
      else if Refusal(s.rows, engines[id].(id := id), s.now).Some? then Record(s, Row(id, Refused, 0, 0.0, s.now))
      else State(s.now, s.rows, s.inFlight + multiset{id})
    case Succeed(id, tokens, cost) =>
      if s.inFlight[id] > 0 then Return(s, id, Row(id, Success, tokens, cost, s.now)) else s
    case Fail(id) => if s.inFlight[id] > 0 then Return(s, id, Row(id, Failure, 0, 0.0, s.now)) else s
    case Abandon(id) => if s.inFlight[id] > 0 then State(s.now, s.rows, s.inFlight - multiset{id}) else s
  }

  function Run(engines: map<string, Engine>, steps: seq<Step>): State {
    if steps == [] then State(0, [], multiset{})
    else Next(engines, Run(engines, steps[..|steps| - 1]), steps[|steps| - 1])
  }

  /** What a daily limit meters: calls that really went out, or the tokens or the money they took. */
  datatype Meter = Requests | Tokens | Cost

  function Weight(m: Meter, r: Row): real {
    match m
    case Requests => if r.status == Refused then 0.0 else 1.0
    case Tokens => if r.status == Success then r.tokens as real else 0.0
    case Cost => if r.status == Success then r.cost else 0.0
  }

  function Limit(m: Meter, e: Engine): Option<real> {
    match m
    case Requests => if e.maxRequests.Some? then Some(e.maxRequests.value as real) else None
    case Tokens => if e.maxTokens.Some? then Some(e.maxTokens.value as real) else None
    case Cost => e.maxCost
  }

  function Metered(m: Meter, u: Usage): real {
    match m
    case Requests => u.requests as real
    case Tokens => u.tokens as real
    case Cost => u.cost
  }

  /** The metered total of one engine on one UTC day. */
  function Spent(m: Meter, rows: seq<Row>, id: string, day: int): real {
    if rows == [] then 0.0
    else
      var r := rows[|rows| - 1];
      Spent(m, rows[..|rows| - 1], id, day) + (if r.engine == id && r.at / DAY == day then Weight(m, r) else 0.0)
  }

  /** Calls and tokens are counted in whole numbers. */
  function SpentWhole(m: Meter, rows: seq<Row>, id: string, day: int): nat {
    if rows == [] then 0
    else
      var r := rows[|rows| - 1];
      SpentWhole(m, rows[..|rows| - 1], id, day)
      + (if r.engine != id || r.at / DAY != day || r.status == Refused then 0
         else if m == Requests then 1
         else if r.status == Success then r.tokens else 0)
  }

  lemma {:induction false} SpentIsWhole(m: Meter, rows: seq<Row>, id: string, day: int)
    requires m != Cost
    ensures Spent(m, rows, id, day) == SpentWhole(m, rows, id, day) as real
  {
    if rows != [] {
      SpentIsWhole(m, rows[..|rows| - 1], id, day);
    }
  }

  predicate AllUpTo(rows: seq<Row>, now: int) {
    forall i :: 0 <= i < |rows| ==> rows[i].at <= now
  }

  lemma {:induction false} SpentWithinUsage(m: Meter, rows: seq<Row>, id: string, now: int)
    requires m == Cost ==> AllUpTo(rows, now)
    ensures Spent(m, rows, id, now / DAY) <= Metered(m, UsageSince(rows, id, DayStart(now)))
    ensures m == Cost ==> Spent(m, rows, id, now / DAY) == Metered(m, UsageSince(rows, id, DayStart(now)))
  {
    if rows != [] {
      SpentWithinUsage(m, rows[..|rows| - 1], id, now);
      var r := rows[|rows| - 1];
      SameDayIff(r.at, now);
    }
  }

  lemma SameDayIff(at: int, now: int)
    ensures at / DAY == now / DAY ==> at >= DayStart(now)
    ensures at <= now ==> (at / DAY == now / DAY <==> at >= DayStart(now))
  {
  }

  /** Whoever is let through was below the limit at that moment. */
  lemma {:induction false} AdmittedBelowLimit(m: Meter, rows: seq<Row>, e: Engine, now: int)
    requires Refusal(rows, e, now).None? && Limit(m, e).Some?
    requires m == Cost ==> AllUpTo(rows, now)
    ensures Spent(m, rows, e.id, now / DAY) < Limit(m, e).value
  {
    SpentWithinUsage(m, rows, e.id, now);
  }

  lemma {:induction false} NothingSpentLater(m: Meter, rows: seq<Row>, id: string, now: int, day: int)
    requires AllUpTo(rows, now) && day > now / DAY
    ensures Spent(m, rows, id, day) == 0.0
  {
    if rows != [] {
      NothingSpentLater(m, rows[..|rows| - 1], id, now, day);
    }
  }

  lemma {:induction false} SpentAppend(m: Meter, rows: seq<Row>, r: Row, id: string, day: int)
    ensures Spent(m, rows + [r], id, day)
         == Spent(m, rows, id, day) + (if r.engine == id && r.at / DAY == day then Weight(m, r) else 0.0)
  {
    assert (rows + [r])[..|rows|] == rows;
  }

  /** At most `perCall` is spent by one call. */
  predicate PerCallAtMost(m: Meter, perCall: real, step: Step) {
    match m
    case Requests => perCall >= 1.0
    case Tokens => perCall >= 0.0 && (step.Succeed? ==> step.tokens as real <= perCall)
    case Cost => perCall >= 0.0 && (step.Succeed? ==> step.cost <= perCall)
  }

  function Load(k: nat, perCall: real): real {
    k as real * perCall
  }

  lemma LoadLaws(a: nat, b: nat, perCall: real)
    requires perCall >= 0.0
    ensures a <= b ==> Load(a, perCall) <= Load(b, perCall)
    ensures Load(a + 1, perCall) == Load(a, perCall) + perCall
    ensures Load(0, perCall) == 0.0
  {
    assert (a + 1) as real == a as real + 1.0;
    if a <= b {
      assert (b as real - a as real) * perCall >= 0.0;
    }
  }

  /** Today's spending plus what is still in flight stays below the ceiling; past days are closed
      below it. */
  ghost predicate UnderCeiling(m: Meter, s: State, id: string, perCall: real, ceiling: real) {
    && AllUpTo(s.rows, s.now)
    && Spent(m, s.rows, id, s.now / DAY) + Load(s.inFlight[id], perCall) < ceiling
    && forall day :: day < s.now / DAY ==> Spent(m, s.rows, id, day) < ceiling
  }

  lemma {:induction false} WaitKeepsCeiling(m: Meter, s: State, ticks: nat, id: string, perCall: real, ceiling: real)
    requires perCall >= 0.0 && UnderCeiling(m, s, id, perCall, ceiling) && Load(s.inFlight[id], perCall) < ceiling
    ensures UnderCeiling(m, State(s.now + ticks, s.rows, s.inFlight), id, perCall, ceiling)
  {
    hide Spent, Load;
    LoadLaws(0, s.inFlight[id], perCall);
    var today, later := s.now / DAY, (s.now + ticks) / DAY;
    assert today <= later;
    if later > today {
      NothingSpentLater(m, s.rows, id, s.now, later);
    }
    forall day | day < later ensures Spent(m, s.rows, id, day) < ceiling {
      if day > today {
        NothingSpentLater(m, s.rows, id, s.now, day);
      }
    }
  }

  lemma {:induction false} RowKeepsCeiling(m: Meter, s: State, row: Row, inFlight: multiset<string>, id: string,
                                           perCall: real, ceiling: real)
    requires UnderCeiling(m, s, id, perCall, ceiling) && row.at == s.now
    requires row.engine == id ==> Weight(m, row) + Load(inFlight[id], perCall) <= Load(s.inFlight[id], perCall)
    requires row.engine != id ==> inFlight[id] == s.inFlight[id]
    ensures UnderCeiling(m, State(s.now, s.rows + [row], inFlight), id, perCall, ceiling)
  {
    hide Weight, Load, Spent;
    SpentAppend(m, s.rows, row, id, s.now / DAY);
    forall day | day < s.now / DAY ensures Spent(m, s.rows + [row], id, day) < ceiling {
      SpentAppend(m, s.rows, row, id, day);
    }
  }

  lemma {:induction false} ReturnKeepsCeiling(m: Meter, s: State, who: string, row: Row, id: string, perCall: real,
                                              ceiling: real)
    requires perCall >= 0.0 && UnderCeiling(m, s, id, perCall, ceiling)
    requires s.inFlight[who] > 0 && row.engine == who && row.at == s.now && Weight(m, row) <= perCall
    ensures UnderCeiling(m, Return(s, who, row), id, perCall, ceiling)
  {
    hide UnderCeiling, Load, Weight;
    var rest := s.inFlight - multiset{who};
    if who == id {
      assert rest[id] + 1 == s.inFlight[id];
      LoadLaws(rest[id], 0, perCall);
    }
    RowKeepsCeiling(m, s, row, rest, id, perCall, ceiling);
  }

  lemma {:induction false} AdmissionKeepsCeiling(engines: map<string, Engine>, m: Meter, s: State, who: string,
                                                 id: string, perCall: real, n: nat, ceiling: real)
    requires id in engines && Limit(m, engines[id]).Some? && perCall >= 0.0
    requires ceiling == Limit(m, engines[id]).value + Load(n, perCall)
    requires UnderCeiling(m, s, id, perCall, ceiling)
    requires who in engines && Refusal(s.rows, engines[who].(id := who), s.now).None?
    requires (s.inFlight + multiset{who})[id] <= n
    ensures UnderCeiling(m, State(s.now, s.rows, s.inFlight + multiset{who}), id, perCall, ceiling)
  {
    hide Refusal, Spent, Load;
    LoadLaws((s.inFlight + multiset{who})[id], n, perCall);
    if who == id {
      AdmittedBelowLimit(m, s.rows, engines[id].(id := id), s.now);
    }
  }

  lemma AbandonKeepsCeiling(m: Meter, s: State, who: string, id: string, perCall: real, ceiling: real)
    requires perCall >= 0.0 && UnderCeiling(m, s, id, perCall, ceiling)
    ensures UnderCeiling(m, State(s.now, s.rows, s.inFlight - multiset{who}), id, perCall, ceiling)
  {
    hide Spent, Load;
    LoadLaws((s.inFlight - multiset{who})[id], s.inFlight[id], perCall);
  }

  lemma {:induction false} StepKeepsCeiling(engines: map<string, Engine>, m: Meter, s: State, step: Step, id: string,
                                            perCall: real, n: nat, ceiling: real)
    requires id in engines && Limit(m, engines[id]).Some? && Limit(m, engines[id]).value > 0.0
    requires ceiling == Limit(m, engines[id]).value + Load(n, perCall)
    requires UnderCeiling(m, s, id, perCall, ceiling)
    requires PerCallAtMost(m, perCall, step)
    requires s.inFlight[id] <= n && Next(engines, s, step).inFlight[id] <= n
    ensures UnderCeiling(m, Next(engines, s, step), id, perCall, ceiling)
  {
    hide UnderCeiling, Refusal, Load, Limit;
    LoadLaws(s.inFlight[id], n, perCall);
    LoadLaws(0, n, perCall);
    match step
    case Wait(ticks) => WaitKeepsCeiling(m, s, ticks, id, perCall, ceiling);
    case Check(who) =>
      if who in engines {
        if Refusal(s.rows, engines[who].(id := who), s.now).Some? {
          RowKeepsCeiling(m, s, Row(who, Refused, 0, 0.0, s.now), s.inFlight, id, perCall, ceiling);
        } else {
          AdmissionKeepsCeiling(engines, m, s, who, id, perCall, n, ceiling);
        }
      }
    case Succeed(who, tokens, cost) =>
      if s.inFlight[who] > 0 {
        ReturnKeepsCeiling(m, s, who, Row(who, Success, tokens, cost, s.now), id, perCall, ceiling);
      }
    case Fail(who) =>
      if s.inFlight[who] > 0 {
        ReturnKeepsCeiling(m, s, who, Row(who, Failure, 0, 0.0, s.now), id, perCall, ceiling);
      }
    case Abandon(who) => if s.inFlight[who] > 0 { AbandonKeepsCeiling(m, s, who, id, perCall, ceiling); }
  }

  predicate Concurrency(engines: map<string, Engine>, steps: seq<Step>, id: string, n: nat) {
    forall i :: 0 <= i <= |steps| ==> Run(engines, steps[..i]).inFlight[id] <= n
  }

  lemma {:induction false} RunKeepsCeiling(engines: map<string, Engine>, m: Meter, steps: seq<Step>, id: string,
                                           perCall: real, n: nat)
    requires id in engines && Limit(m, engines[id]).Some? && Limit(m, engines[id]).value > 0.0 && perCall >= 0.0
    requires Concurrency(engines, steps, id, n)
    requires forall i :: 0 <= i < |steps| ==> PerCallAtMost(m, perCall, steps[i])
    ensures UnderCeiling(m, Run(engines, steps), id, perCall, Limit(m, engines[id]).value + Load(n, perCall))
  {
    hide Next, Load, Limit, PerCallAtMost;
    if steps == [] {
      LoadLaws(0, n, perCall);
    } else {
      var k := |steps| - 1;
      var front := steps[..k];
      assert forall i :: 0 <= i <= k ==> front[..i] == steps[..i];
      assert steps[..|steps|] == steps;
      RunKeepsCeiling(engines, m, front, id, perCall, n);
      hide UnderCeiling;
      StepKeepsCeiling(engines, m, Run(engines, front), steps[k], id, perCall, n,
                       Limit(m, engines[id]).value + Load(n, perCall));
    }
  }

  /** Overshoot, for each meter: with at most `n` calls to an engine in flight at any time and at
      most `perCall` spent by one, every UTC day's spending stays below the limit plus `n` calls'
      worth, even when calls straddle midnight. */
  lemma {:induction false} DailyOvershoot(engines: map<string, Engine>, m: Meter, steps: seq<Step>, id: string,
                                          perCall: real, n: nat, day: int)
    requires id in engines && Limit(m, engines[id]).Some? && Limit(m, engines[id]).value > 0.0 && perCall >= 0.0
    requires Concurrency(engines, steps, id, n)
    requires forall i :: 0 <= i < |steps| ==> PerCallAtMost(m, perCall, steps[i])
    ensures Spent(m, Run(engines, steps).rows, id, day) < Limit(m, engines[id]).value + n as real * perCall
  {
    hide Spent, Limit, PerCallAtMost, Concurrency, Run;
    RunKeepsCeiling(engines, m, steps, id, perCall, n);
    var s := Run(engines, steps);
    LoadLaws(0, s.inFlight[id], perCall);
    LoadLaws(0, n, perCall);
    if day > s.now / DAY {
      NothingSpentLater(m, s.rows, id, s.now, day);
    }
  }

  /** So the calls that went out on a day exceed the request limit by at most `n - 1`. */
  lemma {:induction false} RequestOvershoot(engines: map<string, Engine>, steps: seq<Step>, id: string, n: nat,
                                            day: int)
    requires id in engines && engines[id].maxRequests.Some? && engines[id].maxRequests.value >= 1
    requires Concurrency(engines, steps, id, n)
    ensures Spent(Requests, Run(engines, steps).rows, id, day) <= (engines[id].maxRequests.value + n - 1) as real
  {
    hide Spent, SpentWhole, Concurrency, Run;
    DailyOvershoot(engines, Requests, steps, id, (1 as nat) as real, n, day);
    SpentIsWhole(Requests, Run(engines, steps).rows, id, day);
    WholeBelow(SpentWhole(Requests, Run(engines, steps).rows, id, day), engines[id].maxRequests.value, n, 1);
  }

  /** The same for tokens, when one call moves at most `perCall` of them. */
  lemma {:induction false} TokenOvershoot(engines: map<string, Engine>, steps: seq<Step>, id: string,
                                          n: nat, perCall: nat, day: int)
    requires id in engines && engines[id].maxTokens.Some? && engines[id].maxTokens.value >= 1
    requires Concurrency(engines, steps, id, n)
    requires forall i :: 0 <= i < |steps| && steps[i].Succeed? ==> steps[i].tokens <= perCall
    ensures Spent(Tokens, Run(engines, steps).rows, id, day) <= (engines[id].maxTokens.value - 1 + n * perCall) as real
  {
    hide Spent, SpentWhole, Concurrency, Run;
    DailyOvershoot(engines, Tokens, steps, id, perCall as real, n, day);
    SpentIsWhole(Tokens, Run(engines, steps).rows, id, day);
    WholeBelow(SpentWhole(Tokens, Run(engines, steps).rows, id, day), engines[id].maxTokens.value, n, perCall);
  }

  /** The same for money, when one call costs at most `perCall`. */
  lemma {:induction false} CostOvershoot(engines: map<string, Engine>, steps: seq<Step>, id: string,
                                         n: nat, perCall: real, day: int)
    requires id in engines && engines[id].maxCost.Some? && engines[id].maxCost.value > 0.0 && perCall >= 0.0
    requires Concurrency(engines, steps, id, n)
    requires forall i :: 0 <= i < |steps| && steps[i].Succeed? ==> steps[i].cost <= perCall
    ensures Spent(Cost, Run(engines, steps).rows, id, day) < engines[id].maxCost.value + n as real * perCall
  {
    hide Spent, Concurrency, Run;
    DailyOvershoot(engines, Cost, steps, id, perCall, n, day);
  }

  lemma WholeBelow(k: nat, limit: int, n: nat, c: nat)
    requires k as real < limit as real + n as real * c as real
    ensures k <= limit - 1 + n * c
  {
    assert (n * c) as real == n as real * c as real;
    assert k as real < (limit + n * c) as real;
  }

  /* ---------- the bounds are exact ---------- */

  function Repeat(step: Step, k: nat): seq<Step> {
    seq(k, i => step)
  }

  /** `serial` calls of one token one after the other, then `n` of `tokens` each that are all
      checked before any returns. */
  function Burst(id: string, serial: nat, n: nat, tokens: nat): seq<Step> {
    if serial > 0 then [Check(id), Succeed(id, 1, 0.0)] + Burst(id, serial - 1, n, tokens)
    else Repeat(Check(id), n) + Repeat(Succeed(id, tokens, 0.0), n)
  }

  function RunFrom(engines: map<string, Engine>, s: State, steps: seq<Step>): State
    decreases |steps|
  {
    if steps == [] then s else RunFrom(engines, Next(engines, s, steps[0]), steps[1..])
  }

  lemma {:induction false} RunFromAppend(engines: map<string, Engine>, s: State, xs: seq<Step>, ys: seq<Step>)
    ensures RunFrom(engines, s, xs + ys) == RunFrom(engines, RunFrom(engines, s, xs), ys)
    decreases |xs|
  {
    hide Next;
    if xs == [] {
      assert xs + ys == ys;
    } else {
      assert (xs + ys)[1..] == xs[1..] + ys;
      RunFromAppend(engines, Next(engines, s, xs[0]), xs[1..], ys);
    }
  }

  lemma {:induction false} RunIsRunFrom(engines: map<string, Engine>, steps: seq<Step>)
    ensures Run(engines, steps) == RunFrom(engines, State(0, [], multiset{}), steps)
  {
    hide Next;
    if steps != [] {
      var n := |steps| - 1;
      RunIsRunFrom(engines, steps[..n]);
      RunFromAppend(engines, State(0, [], multiset{}), steps[..n], [steps[n]]);
      assert steps[..n] + [steps[n]] == steps;
      assert [steps[n]][1..] == [];
    }
  }

  /** `k` successful calls of one token, then `j` of `tokens` each. */
  function Successes(id: string, k: nat, j: nat, tokens: nat): seq<Row> {
    seq(k + j, i => Row(id, Success, if i < k then 1 else tokens, 0.0, 0))
  }

  lemma {:induction false} OneMoreSuccess(id: string, rows: seq<Row>, t: nat)
    ensures var u, rows' := UsageSince(rows, id, 0), rows + [Row(id, Success, t, 0.0, 0)];
            && UsageSince(rows', id, 0) == Usage(u.requests + 1, u.tokens + t, u.cost)
            && Streak(rows', id) == 0 && LastFailure(rows', id) == LastFailure(rows, id)
            && SpentWhole(Requests, rows', id, 0) == SpentWhole(Requests, rows, id, 0) + 1
            && SpentWhole(Tokens, rows', id, 0) == SpentWhole(Tokens, rows, id, 0) + t
  {
    assert (rows + [Row(id, Success, t, 0.0, 0)])[..|rows|] == rows;
  }

  lemma {:induction false} NoRows(id: string)
    ensures UsageSince([], id, 0) == Usage(0, 0, 0.0) && Streak([], id) == 0 && LastFailure([], id) == None
    ensures SpentWhole(Requests, [], id, 0) == SpentWhole(Tokens, [], id, 0) == 0
  {
  }

  lemma {:induction false} AfterSuccesses(id: string, k: nat, j: nat, tokens: nat)
    ensures var rows := Successes(id, k, j, tokens);
            && UsageSince(rows, id, 0) == Usage(k + j, k + j * tokens, 0.0)
            && Streak(rows, id) == 0 && LastFailure(rows, id) == None
            && SpentWhole(Requests, rows, id, 0) == k + j
            && SpentWhole(Tokens, rows, id, 0) == k + j * tokens
    decreases k + j
  {
    hide UsageSince, Streak, LastFailure, SpentWhole;
    if j > 0 {
      AfterSuccesses(id, k, j - 1, tokens);
      OneMoreSuccess(id, Successes(id, k, j - 1, tokens), tokens);
      assert Successes(id, k, j, tokens) == Successes(id, k, j - 1, tokens) + [Row(id, Success, tokens, 0.0, 0)];
      assert j * tokens == (j - 1) * tokens + tokens;
    } else if k > 0 {
      AfterSuccesses(id, k - 1, 0, tokens);
      OneMoreSuccess(id, Successes(id, k - 1, 0, tokens), 1);
      assert Successes(id, k, 0, tokens) == Successes(id, k - 1, 0, tokens) + [Row(id, Success, 1, 0.0, 0)];
    } else {
      NoRows(id);
    }
  }

  /** An engine that limits nothing but its daily requests, or its daily tokens. */
  function OnlyLimit(m: Meter, id: string, limit: int): map<string, Engine> {
    var requests, tokens := if m == Requests then Some(limit) else None, if m == Tokens then Some(limit) else None;
    map[id := Engine(id, requests, tokens, None, 1, 1)]
  }

  lemma {:induction false} CheckAdmits(m: Meter, id: string, limit: int, k: nat, tokens: nat,
                                       inFlight: multiset<string>)
    requires k < limit
    ensures Next(OnlyLimit(m, id, limit), State(0, Successes(id, k, 0, tokens), inFlight), Check(id))
         == State(0, Successes(id, k, 0, tokens), inFlight + multiset{id})
  {
    AfterSuccesses(id, k, 0, tokens);
    hide UsageSince, Streak, LastFailure, Successes, Spent;
  }

  lemma {:induction false} SucceedRecords(m: Meter, id: string, limit: int, k: nat, j: nat, tokens: nat,
                                          inFlight: multiset<string>)
    requires inFlight[id] > 0
    ensures j == 0 ==>
              Next(OnlyLimit(m, id, limit), State(0, Successes(id, k, 0, tokens), inFlight), Succeed(id, 1, 0.0))
              == State(0, Successes(id, k + 1, 0, tokens), inFlight - multiset{id})
    ensures Next(OnlyLimit(m, id, limit), State(0, Successes(id, k, j, tokens), inFlight), Succeed(id, tokens, 0.0))
         == State(0, Successes(id, k, j + 1, tokens), inFlight - multiset{id})
  {
    assert Successes(id, k, j + 1, tokens) == Successes(id, k, j, tokens) + [Row(id, Success, tokens, 0.0, 0)];
    assert Successes(id, k + 1, 0, tokens) == Successes(id, k, 0, tokens) + [Row(id, Success, 1, 0.0, 0)];
  }

  function Copies(id: string, k: nat): multiset<string> {
    multiset{}[id := k]
  }

  lemma CopiesStep(id: string, k: nat)
    ensures Copies(id, k) + multiset{id} == Copies(id, k + 1)
    ensures Copies(id, k + 1) - multiset{id} == Copies(id, k)
    ensures Copies(id, k)[id] == k
  {
  }

  lemma {:induction false} ManyChecks(m: Meter, id: string, limit: int, k: nat, tokens: nat, before: nat, n: nat)
    requires k < limit
    ensures RunFrom(OnlyLimit(m, id, limit), State(0, Successes(id, k, 0, tokens), Copies(id, before)),
                    Repeat(Check(id), n))
         == State(0, Successes(id, k, 0, tokens), Copies(id, before + n))
    decreases n
  {
    hide Next, Successes, OnlyLimit, Copies;
    if n > 0 {
      CheckAdmits(m, id, limit, k, tokens, Copies(id, before));
      CopiesStep(id, before);
      assert Repeat(Check(id), n)[1..] == Repeat(Check(id), n - 1);
      ManyChecks(m, id, limit, k, tokens, before + 1, n - 1);
    }
  }

  /** `n` of the calls in flight return; `left` stay. */
  lemma {:induction false} ManySuccesses(m: Meter, id: string, limit: int, k: nat, j: nat, tokens: nat, n: nat,
                                         left: nat)
    ensures RunFrom(OnlyLimit(m, id, limit), State(0, Successes(id, k, j, tokens), Copies(id, left + n)),
                    Repeat(Succeed(id, tokens, 0.0), n))
         == State(0, Successes(id, k, j + n, tokens), Copies(id, left))
    decreases n
  {
    hide Next, Successes, OnlyLimit, Copies;
    if n > 0 {
      CopiesStep(id, left + n - 1);
      CopiesStep(id, left + n);
      SucceedRecords(m, id, limit, k, j, tokens, Copies(id, left + n));
      assert Repeat(Succeed(id, tokens, 0.0), n)[1..] == Repeat(Succeed(id, tokens, 0.0), n - 1);
      ManySuccesses(m, id, limit, k, j + 1, tokens, n - 1, left);
    }
  }

  /** At no point of the run are more than `n` calls in flight. */
  predicate Calm(engines: map<string, Engine>, s: State, steps: seq<Step>, id: string, n: nat) {
    forall i :: 0 <= i <= |steps| ==> RunFrom(engines, s, steps[..i]).inFlight[id] <= n
  }

  lemma {:induction false} CalmAppend(engines: map<string, Engine>, s: State, xs: seq<Step>, ys: seq<Step>,
                                      id: string, n: nat)
    requires Calm(engines, s, xs, id, n) && Calm(engines, RunFrom(engines, s, xs), ys, id, n)
    ensures Calm(engines, s, xs + ys, id, n)
  {
    hide RunFrom;
    forall i | 0 <= i <= |xs + ys| ensures RunFrom(engines, s, (xs + ys)[..i]).inFlight[id] <= n {
      if i <= |xs| {
        assert (xs + ys)[..i] == xs[..i];
      } else {
        assert (xs + ys)[..i] == xs + ys[..i - |xs|];
        RunFromAppend(engines, s, xs, ys[..i - |xs|]);
      }
    }
  }

  lemma {:induction false} ChecksAreCalm(m: Meter, id: string, limit: int, k: nat, tokens: nat, n: nat)
    requires k < limit
    ensures Calm(OnlyLimit(m, id, limit), State(0, Successes(id, k, 0, tokens), Copies(id, 0)),
                 Repeat(Check(id), n), id, n)
  {
    hide RunFrom, OnlyLimit, Successes, Copies;
    var s := State(0, Successes(id, k, 0, tokens), Copies(id, 0));
    forall i | 0 <= i <= n ensures RunFrom(OnlyLimit(m, id, limit), s, Repeat(Check(id), n)[..i]).inFlight[id] <= n {
      assert Repeat(Check(id), n)[..i] == Repeat(Check(id), i);
      ManyChecks(m, id, limit, k, tokens, 0, i);
      CopiesStep(id, i);
    }
  }

  lemma {:induction false} SuccessesAreCalm(m: Meter, id: string, limit: int, k: nat, tokens: nat, n: nat)
    ensures Calm(OnlyLimit(m, id, limit), State(0, Successes(id, k, 0, tokens), Copies(id, n)),
                 Repeat(Succeed(id, tokens, 0.0), n), id, n)
  {
    hide RunFrom, OnlyLimit, Successes, Copies;
    var s, steps := State(0, Successes(id, k, 0, tokens), Copies(id, n)), Repeat(Succeed(id, tokens, 0.0), n);
    forall i | 0 <= i <= n ensures RunFrom(OnlyLimit(m, id, limit), s, steps[..i]).inFlight[id] <= n {
      assert steps[..i] == Repeat(Succeed(id, tokens, 0.0), i);
      ManySuccesses(m, id, limit, k, 0, tokens, i, n - i);
      CopiesStep(id, n - i);
    }
  }

  lemma {:induction false} OneCall(m: Meter, id: string, limit: int, k: nat, tokens: nat, n: nat)
    requires k < limit && n >= 1
    ensures Leads(m, id, limit, tokens, n, k, [Check(id), Succeed(id, 1, 0.0)], k + 1, 0)
  {
    hide Next, OnlyLimit, Successes, Copies, RunFrom;
    var engines, s := OnlyLimit(m, id, limit), Quiet(id, k, 0, tokens);
    var call := [Check(id), Succeed(id, 1, 0.0)];
    CheckAdmits(m, id, limit, k, tokens, Copies(id, 0));
    CopiesStep(id, 0);
    CopiesStep(id, 1);
    SucceedRecords(m, id, limit, k, 0, tokens, Copies(id, 1));
    RunTwo(engines, s, call[0], call[1]);
    forall i | 0 <= i <= 2 ensures RunFrom(engines, s, call[..i]).inFlight[id] <= n {
      assert call[..i] == if i == 0 then [] else if i == 1 then [call[0]] else call;
    }
  }

  lemma {:induction false} RunTwo(engines: map<string, Engine>, s: State, x: Step, y: Step)
    ensures RunFrom(engines, s, []) == s
    ensures RunFrom(engines, s, [x]) == Next(engines, s, x)
    ensures RunFrom(engines, s, [x, y]) == Next(engines, Next(engines, s, x), y)
  {
    hide Next;
    assert [x, y][1..] == [y] && [x][1..] == [] && [y][1..] == [];
    var mid := Next(engines, s, x);
    assert RunFrom(engines, mid, [y]) == RunFrom(engines, Next(engines, mid, y), []);
    assert RunFrom(engines, s, [x, y]) == RunFrom(engines, mid, [y]);
  }

  /** The state after `k` calls of one token and `j` of `tokens`, with nothing in flight. */
  function Quiet(id: string, k: nat, j: nat, tokens: nat): State {
    State(0, Successes(id, k, j, tokens), Copies(id, 0))
  }

  /** From a quiet state the steps lead to a quiet one with more calls, calmly. */
  predicate Leads(m: Meter, id: string, limit: int, tokens: nat, n: nat, k: nat, steps: seq<Step>, k': nat, j': nat) {
    && RunFrom(OnlyLimit(m, id, limit), Quiet(id, k, 0, tokens), steps) == Quiet(id, k', j', tokens)
    && Calm(OnlyLimit(m, id, limit), Quiet(id, k, 0, tokens), steps, id, n)
  }

  lemma {:induction false} VolleyLeads(m: Meter, id: string, limit: int, tokens: nat, n: nat, k: nat)
    requires k < limit
    ensures Leads(m, id, limit, tokens, n, k, Repeat(Check(id), n) + Repeat(Succeed(id, tokens, 0.0), n), k, n)
  {
    hide RunFrom, Successes, OnlyLimit, Copies, Calm, Repeat;
    var sent, answered := Repeat(Check(id), n), Repeat(Succeed(id, tokens, 0.0), n);
    ManyChecks(m, id, limit, k, tokens, 0, n);
    ManySuccesses(m, id, limit, k, 0, tokens, n, 0);
    RunFromAppend(OnlyLimit(m, id, limit), Quiet(id, k, 0, tokens), sent, answered);
    ChecksAreCalm(m, id, limit, k, tokens, n);
    SuccessesAreCalm(m, id, limit, k, tokens, n);
    CalmAppend(OnlyLimit(m, id, limit), Quiet(id, k, 0, tokens), sent, answered, id, n);
  }

  lemma {:induction false} LeadsOn(m: Meter, id: string, limit: int, tokens: nat, n: nat, k: nat,
                                   xs: seq<Step>, k': nat, ys: seq<Step>, k'': nat, j'': nat)
    requires Leads(m, id, limit, tokens, n, k, xs, k', 0) && Leads(m, id, limit, tokens, n, k', ys, k'', j'')
    ensures Leads(m, id, limit, tokens, n, k, xs + ys, k'', j'')
  {
    hide RunFrom, OnlyLimit, Calm, Quiet;
    RunFromAppend(OnlyLimit(m, id, limit), Quiet(id, k, 0, tokens), xs, ys);
    CalmAppend(OnlyLimit(m, id, limit), Quiet(id, k, 0, tokens), xs, ys, id, n);
  }

  lemma {:induction false} BurstLeads(m: Meter, id: string, limit: int, tokens: nat, n: nat, k: nat, serial: nat)
    requires k + serial < limit && n >= 1
    ensures Leads(m, id, limit, tokens, n, k, Burst(id, serial, n, tokens), k + serial, n)
    decreases serial
  {
    hide Leads, Burst;
    BurstStep(id, serial, n, tokens);
    if serial > 0 {
      OneCall(m, id, limit, k, tokens, n);
      BurstLeads(m, id, limit, tokens, n, k + 1, serial - 1);
      LeadsOn(m, id, limit, tokens, n, k, [Check(id), Succeed(id, 1, 0.0)], k + 1,
              Burst(id, serial - 1, n, tokens), k + serial, n);
    } else {
      VolleyLeads(m, id, limit, tokens, n, k);
    }
  }

  lemma {:induction false} BurstStep(id: string, serial: nat, n: nat, tokens: nat)
    ensures Burst(id, serial, n, tokens)
         == if serial > 0 then [Check(id), Succeed(id, 1, 0.0)] + Burst(id, serial - 1, n, tokens)
            else Repeat(Check(id), n) + Repeat(Succeed(id, tokens, 0.0), n)
  {
  }

  /** The request and token bounds cannot be improved: for every limit, every concurrency and
      every size of a call, a run with at most `n` calls in flight and at most `tokens` tokens a
      call reaches the bound within one day. */
  lemma {:induction false} OvershootIsReached(m: Meter, id: string, limit: nat, n: nat, tokens: nat)
    requires m != Cost && limit >= 1 && n >= 1 && tokens >= 1
    ensures var engines, steps := OnlyLimit(m, id, limit), Burst(id, limit - 1, n, tokens);
            && Concurrency(engines, steps, id, n)
            && (forall i :: 0 <= i < |steps| && steps[i].Succeed? ==> steps[i].tokens <= tokens)
            && Spent(m, Run(engines, steps).rows, id, 0)
               == (limit - 1 + n * (if m == Requests then 1 else tokens)) as real
  {
    hide RunFrom, Run, Burst, OnlyLimit, Successes, Copies;
    var engines, steps := OnlyLimit(m, id, limit), Burst(id, limit - 1, n, tokens);
    NothingRecorded(id, tokens);
    BurstLeads(m, id, limit, tokens, n, 0, limit - 1);
    AfterSuccesses(id, limit - 1, n, tokens);
    RunIsRunFrom(engines, steps);
    forall i | 0 <= i <= |steps| ensures Run(engines, steps[..i]).inFlight[id] <= n {
      RunIsRunFrom(engines, steps[..i]);
    }
    BurstTokens(id, limit - 1, n, tokens);
    SpentIsWhole(m, Run(engines, steps).rows, id, 0);
  }

  lemma NothingRecorded(id: string, tokens: nat)
    ensures Successes(id, 0, 0, tokens) == [] && Copies(id, 0) == multiset{}
  {
  }

  lemma {:induction false} BurstTokens(id: string, serial: nat, n: nat, tokens: nat)
    requires tokens >= 1
    ensures var steps := Burst(id, serial, n, tokens);
            forall i :: 0 <= i < |steps| && steps[i].Succeed? ==> steps[i].tokens <= tokens
  {
    hide Burst;
    BurstStep(id, serial, n, tokens);
    if serial > 0 {
      BurstTokens(id, serial - 1, n, tokens);
    }
  }

  /* ---------- the circuit breaker ---------- */

  /** One call of a client that waits for each call before the next. */
  datatype Call = Call(checkAt: int, doneAt: int, ok: bool, tokens: nat, cost: real)

  /** The ledger such a client leaves behind. */
  function LedgerOf(e: Engine, calls: seq<Call>): seq<Row> {
    if calls == [] then []
    else
      var rows, c := LedgerOf(e, calls[..|calls| - 1]), calls[|calls| - 1];
      if Refusal(rows, e, c.checkAt).Some? then rows + [Row(e.id, Refused, 0, 0.0, c.checkAt)]
      else if c.ok then rows + [Row(e.id, Success, c.tokens, c.cost, c.doneAt)]
      else rows + [Row(e.id, Failure, 0, 0.0, c.doneAt)]
  }

  predicate Sequential(calls: seq<Call>) {
    && (forall i :: 0 <= i < |calls| ==> calls[i].checkAt <= calls[i].doneAt)
    && (forall i, j :: 0 <= i < j < |calls| ==> calls[i].doneAt < calls[j].checkAt)
  }

  function FailuresIn(rows: seq<Row>, from: int, to: int): nat {
    if rows == [] then 0
    else
      var r := rows[|rows| - 1];
      FailuresIn(rows[..|rows| - 1], from, to) + (if r.status == Failure && from <= r.at <= to then 1 else 0)
  }

  predicate NoSuccessIn(rows: seq<Row>, from: int, to: int) {
    forall i :: 0 <= i < |rows| && from <= rows[i].at <= to ==> rows[i].status != Success
  }

  predicate OneEngine(rows: seq<Row>, id: string) {
    forall i :: 0 <= i < |rows| ==> rows[i].engine == id
  }

  predicate Rising(rows: seq<Row>) {
    forall i, j :: 0 <= i < j < |rows| ==> rows[i].at < rows[j].at
  }

  lemma {:induction false} LedgerLast(e: Engine, calls: seq<Call>)
    requires calls != []
    ensures var n := |calls| - 1;
            var front, rows, c := LedgerOf(e, calls[..n]), LedgerOf(e, calls), calls[n];
            && |rows| == |front| + 1 && rows == front + [rows[|front|]]
            && var r := rows[|front|];
               r.engine == e.id && r.at in {c.checkAt, c.doneAt}
               && (r.status == Failure ==> Refusal(front, e, c.checkAt).None? && r.at == c.doneAt)
  {
    hide Refusal;
  }

  lemma {:induction false} LedgerShape(e: Engine, calls: seq<Call>)
    requires Sequential(calls)
    ensures var rows := LedgerOf(e, calls);
            && |rows| == |calls| && OneEngine(rows, e.id) && Rising(rows)
            && forall i :: 0 <= i < |calls| ==> calls[i].checkAt <= rows[i].at <= calls[i].doneAt
  {
    hide Refusal;
    if calls != [] {
      var n := |calls| - 1;
      LedgerShape(e, calls[..n]);
      LedgerLast(e, calls);
      hide LedgerOf;
      var front, rows := LedgerOf(e, calls[..n]), LedgerOf(e, calls);
      assert forall i :: 0 <= i < n ==> rows[i] == front[i] && calls[..n][i] == calls[i];
    }
  }

  /** Without a success in the window, every failure in it still counts towards the streak. */
  lemma {:induction false} StreakCoversWindow(rows: seq<Row>, id: string, from: int, to: int)
    requires OneEngine(rows, id) && Rising(rows) && AllUpTo(rows, to) && NoSuccessIn(rows, from, to)
    ensures Streak(rows, id) >= FailuresIn(rows, from, to)
  {
    if rows != [] {
      var front := rows[..|rows| - 1];
      StreakCoversWindow(front, id, from, to);
      if rows[|rows| - 1].status == Success {
        NoFailuresBefore(front, from, to);
      }
    }
  }

  lemma {:induction false} NoFailuresBefore(rows: seq<Row>, from: int, to: int)
    requires forall i :: 0 <= i < |rows| ==> rows[i].at < from
    ensures FailuresIn(rows, from, to) == 0
  {
    if rows != [] {
      NoFailuresBefore(rows[..|rows| - 1], from, to);
    }
  }

  /** The latest failure up to `to`. */
  function LastFailureBy(rows: seq<Row>, to: int): Option<int> {
    if rows == [] then None
    else
      var r := rows[|rows| - 1];
      if r.status == Failure && r.at <= to then Some(r.at) else LastFailureBy(rows[..|rows| - 1], to)
  }

  lemma {:induction false} LastFailureIsLatest(rows: seq<Row>, id: string, to: int)
    requires OneEngine(rows, id) && Rising(rows) && AllUpTo(rows, to)
    ensures LastFailure(rows, id) == LastFailureBy(rows, to)
    ensures LastFailure(rows, id).Some? ==> rows != [] && LastFailure(rows, id).value <= rows[|rows| - 1].at
  {
    if rows != [] {
      LastFailureIsLatest(rows[..|rows| - 1], id, to);
    }
  }

  lemma {:induction false} FailureInWindowIsLast(rows: seq<Row>, from: int, to: int)
    requires Rising(rows) && FailuresIn(rows, from, to) > 0
    ensures LastFailureBy(rows, to).Some? && from <= LastFailureBy(rows, to).value <= to
  {
    var front, r := rows[..|rows| - 1], rows[|rows| - 1];
    if FailuresIn(front, from, to) > 0 {
      FailureInWindowIsLast(front, from, to);
    }
    if r.at < from {
      NoFailuresBefore(rows, from, to);
    }
  }

  /** The time that `k` failures take at least, once the first `threshold` are free. */
  function Toll(e: Engine, k: int): int {
    (k - e.threshold) * e.cooldown
  }

  /** Every failure beyond the threshold has cost at least one cooldown. */
  predicate Paid(e: Engine, rows: seq<Row>, from: int, to: int) {
    var k := FailuresIn(rows, from, to);
    k > e.threshold ==>
      LastFailureBy(rows, to).Some? && LastFailureBy(rows, to).value - from >= Toll(e, k)
  }

  lemma {:induction false} NextFailurePays(e: Engine, rows: seq<Row>, c: Call, from: int, to: int)
    requires e.threshold >= 1 && e.cooldown > 0
    requires OneEngine(rows, e.id) && Rising(rows) && AllUpTo(rows, to)
    requires NoSuccessIn(rows, from, to) && Paid(e, rows, from, to)
    requires Refusal(rows, e, c.checkAt).None? && c.checkAt <= c.doneAt
    requires FailuresIn(rows, from, to) >= e.threshold
    ensures c.doneAt - from >= Toll(e, FailuresIn(rows, from, to) + 1)
  {
    hide Refusal, Toll;
    var k := FailuresIn(rows, from, to);
    StreakCoversWindow(rows, e.id, from, to);
    LastFailureIsLatest(rows, e.id, to);
    FailureInWindowIsLast(rows, from, to);
    AdmittedMeansCooled(rows, e, c.checkAt);
    var last := LastFailureBy(rows, to).value;
    NextToll(e, k);
    assert last - from >= Toll(e, k);
  }

  lemma NextToll(e: Engine, k: int)
    ensures Toll(e, k + 1) == Toll(e, k) + e.cooldown && Toll(e, e.threshold) == 0
  {
  }

  lemma {:induction false} AdmittedMeansCooled(rows: seq<Row>, e: Engine, now: int)
    requires Refusal(rows, e, now).None?
    requires Streak(rows, e.id) >= e.threshold && LastFailure(rows, e.id).Some?
    ensures now - LastFailure(rows, e.id).value >= e.cooldown
  {
  }

  lemma {:induction false} PaidExtends(e: Engine, rows: seq<Row>, r: Row, from: int, to: int)
    requires Paid(e, rows, from, to) && FailuresIn(rows, from, to) >= 0
    requires forall i :: 0 <= i < |rows| ==> rows[i].at < r.at
    requires r.status == Failure && from <= r.at <= to && FailuresIn(rows, from, to) >= e.threshold ==>
               r.at - from >= Toll(e, FailuresIn(rows, from, to) + 1)
    requires r.status == Failure && r.at < from ==> FailuresIn(rows, from, to) == 0
    requires e.threshold >= 1
    ensures Paid(e, rows + [r], from, to)
  {
    hide Toll, FailuresIn, LastFailureBy;
    FailuresAppend(rows, r, from, to);
  }

  lemma {:induction false} FailuresAppend(rows: seq<Row>, r: Row, from: int, to: int)
    ensures var counts := r.status == Failure && from <= r.at <= to;
            FailuresIn(rows + [r], from, to) == FailuresIn(rows, from, to) + if counts then 1 else 0
    ensures LastFailureBy(rows + [r], to)
         == if r.status == Failure && r.at <= to then Some(r.at) else LastFailureBy(rows, to)
  {
    assert (rows + [r])[..|rows|] == rows;
  }

  lemma {:induction false} LedgerStep(e: Engine, calls: seq<Call>)
    requires Sequential(calls) && calls != []
    ensures var n := |calls| - 1;
            var front, rows := LedgerOf(e, calls[..n]), LedgerOf(e, calls);
            && |rows| == n + 1 == |front| + 1 && rows == front + [rows[n]]
            && Sequential(calls[..n]) && calls[n].checkAt <= calls[n].doneAt && OneEngine(front, e.id) && Rising(front)
            && (forall i :: 0 <= i < n ==> front[i].at < rows[n].at)
            && (rows[n].status == Failure ==>
                 Refusal(front, e, calls[n].checkAt).None? && rows[n].at == calls[n].doneAt)
  {
    hide Refusal, LedgerOf;
    LedgerShape(e, calls[..|calls| - 1]);
    LedgerShape(e, calls);
    LedgerLast(e, calls);
    assert forall i :: 0 <= i < |calls| - 1 ==> LedgerOf(e, calls)[i] == LedgerOf(e, calls[..|calls| - 1])[i];
  }

  lemma {:induction false} EmptyLedgerPays(e: Engine, from: int, to: int)
    requires e.threshold >= 1
    ensures Paid(e, LedgerOf(e, []), from, to)
  {
  }

  lemma {:induction false} LedgerPays(e: Engine, calls: seq<Call>, from: int, to: int)
    requires e.threshold >= 1 && e.cooldown > 0 && Sequential(calls)
    requires NoSuccessIn(LedgerOf(e, calls), from, to)
    ensures Paid(e, LedgerOf(e, calls), from, to)
  {
    hide Refusal, Paid, LedgerOf, FailuresIn, LastFailureBy, Toll, Sequential, Rising;
    if calls == [] {
      EmptyLedgerPays(e, from, to);
    } else {
      var n := |calls| - 1;
      var front, rows := LedgerOf(e, calls[..n]), LedgerOf(e, calls);
      LedgerStep(e, calls);
      var r := rows[n];
      assert forall i :: 0 <= i < n ==> front[i] == rows[i];
      LedgerPays(e, calls[..n], from, to);
      if r.status == Failure && from <= r.at <= to && FailuresIn(front, from, to) >= e.threshold {
        NextFailurePays(e, front, calls[n], from, to);
      }
      if r.at < from {
        NoFailuresBefore(front, from, to);
      }
      PaidExtends(e, front, r, from, to);
    }
  }

  function FailureAllowance(e: Engine, width: nat): int
    requires e.cooldown > 0
  {
    e.threshold + width / e.cooldown
  }

  lemma TollDivides(e: Engine, k: int, width: nat)
    requires e.cooldown > 0 && Toll(e, k) <= width
    ensures k <= FailureAllowance(e, width)
  {
    var m, c := k - e.threshold, e.cooldown;
    assert width == width / c * c + width % c;
    if m > width / c {
      MulMonotoneInt(width / c + 1, m, c);
    }
  }

  lemma AllowanceCoversThreshold(e: Engine, width: nat)
    requires e.cooldown > 0
    ensures e.threshold <= FailureAllowance(e, width)
  {
  }

  lemma MulMonotoneInt(a: int, b: int, c: int)
    requires a <= b && c > 0
    ensures a * c <= b * c
  {
  }

  /** The breaker limits the failure rate: in any window free of successes, sequential calls
      record at most the threshold plus one failure per full cooldown. */
  lemma {:induction false} BreakerRateBound(e: Engine, calls: seq<Call>, from: int, width: nat)
    requires e.threshold >= 1 && e.cooldown > 0 && Sequential(calls)
    requires NoSuccessIn(LedgerOf(e, calls), from, from + width)
    ensures FailuresIn(LedgerOf(e, calls), from, from + width) <= FailureAllowance(e, width)
  {
    hide Toll, FailureAllowance, LedgerOf, FailuresIn, LastFailureBy, Sequential;
    var rows := LedgerOf(e, calls);
    var k := FailuresIn(rows, from, from + width);
    LedgerPays(e, calls, from, from + width);
    AllowanceCoversThreshold(e, width);
    if k > e.threshold {
      LedgerShape(e, calls);
      FailureInWindowIsLast(rows, from, from + width);
      TollDivides(e, k, width);
    }
  }

  /* ---------- the ledger object ---------- */

  class RemoteQuotaLedger {
    var rows: seq<Row>

    constructor ()
      ensures rows == []
    {
      rows := [];
    }

    method RecordCall(row: Row)
      modifies this
      ensures rows == old(rows) + [row]
    {
      rows := rows + [row];
    }

    /** Newest first, stopping at the first row that is not a failure. */
    method ConsecutiveFailures(id: string) returns (streak: nat)
      ensures streak == Streak(rows, id)
    {
      streak := 0;
      var i := |rows|;
      assert rows[..i] == rows;
      while i > 0
        invariant 0 <= i <= |rows|
        invariant Streak(rows, id) == streak + Streak(rows[..i], id)
      {
        i := i - 1;
        assert rows[..i + 1][..i] == rows[..i];
        if rows[i].engine == id && rows[i].status != Refused {
          if rows[i].status != Failure {
            return;
          }
          streak := streak + 1;
        }
      }
    }

    method UsageToday(id: string, now: int) returns (u: Usage)
      ensures u == UsageSince(rows, id, DayStart(now))
    {
      u := Usage(0, 0, 0.0);
      for i := 0 to |rows|
        invariant u == UsageSince(rows[..i], id, DayStart(now))
      {
        assert rows[..i + 1][..i] == rows[..i];
        var r := rows[i];
        if r.engine == id && r.at >= DayStart(now) {
          u := Usage(u.requests + 1,
                     u.tokens + (if r.status == Success then r.tokens else 0),
                     u.cost + (if r.status == Success then r.cost else 0.0));
        }
      }
      assert rows[..|rows|] == rows;
    }

    /** The broker's check before a call. */
    method BudgetRefusal(e: Engine, now: int) returns (reason: Option<Reason>)
      ensures reason == Refusal(rows, e, now)
      ensures reason.None? ==>
        && (Streak(rows, e.id) >= e.threshold && LastFailure(rows, e.id).Some? ==>
              now - LastFailure(rows, e.id).value >= e.cooldown)
        && (forall m :: Limit(m, e).Some? && (m == Cost ==> AllUpTo(rows, now)) ==>
              Spent(m, rows, e.id, now / DAY) < Limit(m, e).value)
    {
      forall m | Refusal(rows, e, now).None? && Limit(m, e).Some? && (m == Cost ==> AllUpTo(rows, now))
        ensures Spent(m, rows, e.id, now / DAY) < Limit(m, e).value
      {
        AdmittedBelowLimit(m, rows, e, now);
      }
      var streak := ConsecutiveFailures(e.id);
      if streak >= e.threshold {
        var last := LastFailure(rows, e.id);
        if last.Some? && now - last.value < e.cooldown {
          return Some(BreakerOpen);
        }
      }
      var usage := UsageToday(e.id, now);
      if e.maxRequests.Some? && usage.requests >= e.maxRequests.value {
        return Some(RequestQuota);
      }
      if e.maxTokens.Some? && usage.tokens >= e.maxTokens.value {
        return Some(TokenQuota);
      }
      if e.maxCost.Some? && usage.cost >= e.maxCost.value {
        return Some(CostQuota);
      }
      return None;
    }
  }
}
