/** What the authority pipeline answers and records, call by call and over runs, said in terms of
    the rows themselves (src/sovereign_ai/execution/broker.py, src/sovereign_ai/kernel/roster.py
    and the stores of grants, approval requests and delegations). */
module Enforcement {
  import opened Json
  import opened Policy
  import opened Authority

  /* ---------- the answer to a request for authority ---------- */

  /** The row is for exactly this, nobody has revoked it, and its time is not up. */
  predicate InForce(g: Grant, subject: string, action: string, scope: string, now: int) {
    && g.subject == subject && g.action == action && g.scope == scope
    && g.revokedAt == None && now < g.expiresAt
  }

  predicate HasRowInForce(b: Books, subject: string, action: string, scope: string) {
    exists k :: 0 <= k < |b.grants| && InForce(b.grants[k], subject, action, scope, b.now)
  }

  lemma ActiveMeansInForce(b: Books, subject: string, action: string, scope: string)
    ensures IsActive(b, subject, action, scope) <==> HasRowInForce(b, subject, action, scope)
  {
    if HasRowInForce(b, subject, action, scope) {
      var k :| 0 <= k < |b.grants| && InForce(b.grants[k], subject, action, scope, b.now);
      assert Active(b.grants[k], b.now);
    }
    if IsActive(b, subject, action, scope) {
      var k :| 0 <= k < |b.grants| && Active(b.grants[k], b.now)
               && b.grants[k].subject == subject && b.grants[k].action == action && b.grants[k].scope == scope;
      assert InForce(b.grants[k], subject, action, scope, b.now);
    }
  }

  /** Every answer of `authorize`: a named subject with a row in force is let through at medium
      risk; anybody else gets policy's verdict, refusals and unmet approvals being errors. */
  lemma AuthorizeAnswers(p: PolicyEngine, b: Books, q: Query)
    ensures Authorize(p, b, q)
         == if q.subject.Some? && q.subject.value != ""
               && HasRowInForce(b, q.subject.value, q.request.action, q.request.scope)
            then Some(Decision(true, false, Medium))
            else
              var d := Evaluate(p, q.request);
              if d.allowed && (q.approved || !d.approvalRequired) then Some(d) else None
  {
    if q.subject.Some? {
      ActiveMeansInForce(b, q.subject.value, q.request.action, q.request.scope);
    }
  }

  /** For an untrusted mutation that leaves one way: some row with exactly its subject, action and
      scope is neither revoked nor expired. */
  lemma UntrustedNeedsRowInForce(p: PolicyEngine, b: Books, q: Query)
    requires Gated(q.request)
    ensures Authorize(p, b, q).Some?
            <==> q.subject.Some? && q.subject.value != ""
                 && exists k :: 0 <= k < |b.grants|
                      && InForce(b.grants[k], q.subject.value, q.request.action, q.request.scope, b.now)
  {
    AuthorizeAnswers(p, b, q);
  }

  /* ---------- revocation ---------- */

  /** Revoking marks that row with the time, once, and nothing else changes. */
  lemma RevokeMarksOneRow(p: PolicyEngine, b: Books, k: nat)
    ensures var b' := Apply(p, b, Revoke(k));
            && b' == b.(grants := b'.grants) && |b'.grants| == |b.grants|
            && forall i :: 0 <= i < |b.grants| ==>
                 b'.grants[i] == if i == k && b.grants[i].revokedAt == None
                                 then b.grants[i].(revokedAt := Some(b.now))
                                 else b.grants[i]
  {
  }

  lemma {:induction false} ProposeLeavesGrants(p: PolicyEngine, b: Books, parent: string, inputs: map<string, Field>,
                                               rs: seq<Requested>, trust: Trust)
    ensures b.grants <= Propose(p, b, parent, inputs, rs, trust).grants
  {
    hide ProposeFrom, HasCeiling;
    if WithinCeiling(b, parent, rs) {
      ProposeIssues(p, Opened(b, parent, inputs, rs), |b.delegations|, trust, rs, true);
    }
  }

  lemma {:induction false} StepKeepsRevoked(p: PolicyEngine, b: Books, op: Op, k: nat)
    requires k < |b.grants| && b.grants[k].revokedAt.Some?
    ensures k < |Apply(p, b, op).grants| && Apply(p, b, op).grants[k] == b.grants[k]
  {
    hide Propose, IsActive;
    match op
    case ProposeDelegation(parent, inputs, rs, trust) => ProposeLeavesGrants(p, b, parent, inputs, rs, trust);
    case _ =>
  }

  /** Once revoked, a row stays as it is for good. */
  lemma {:induction false} RevokedStaysRevoked(p: PolicyEngine, b: Books, ops: seq<Op>, k: nat)
    requires k < |b.grants| && b.grants[k].revokedAt.Some?
    ensures k < |Run(p, b, ops).grants| && Run(p, b, ops).grants[k] == b.grants[k]
  {
    if ops != [] {
      RevokedStaysRevoked(p, b, ops[..|ops| - 1], k);
      RunLast(p, b, ops);
      hide Run, Apply;
      StepKeepsRevoked(p, Run(p, b, ops[..|ops| - 1]), ops[|ops| - 1], k);
    }
  }

  /** After a revocation, whatever happens next, an untrusted mutation that is authorised rests on
      some other row in force. */
  lemma RevokedNeverAuthorizes(p: PolicyEngine, b: Books, k: nat, ops: seq<Op>, q: Query)
    requires k < |b.grants| && Gated(q.request)
    requires Authorize(p, Run(p, Apply(p, b, Revoke(k)), ops), q).Some?
    ensures var b' := Run(p, Apply(p, b, Revoke(k)), ops);
            && q.subject.Some?
            && exists j :: 0 <= j < |b'.grants| && j != k
                 && InForce(b'.grants[j], q.subject.value, q.request.action, q.request.scope, b'.now)
  {
    var revoked := Apply(p, b, Revoke(k));
    var b' := Run(p, revoked, ops);
    RevokeMarksOneRow(p, b, k);
    RevokedStaysRevoked(p, revoked, ops, k);
    hide Run, Apply, Authorize;
    UntrustedNeedsRowInForce(p, b', q);
    var j :| 0 <= j < |b'.grants| && InForce(b'.grants[j], q.subject.value, q.request.action, q.request.scope, b'.now);
    assert j != k;
  }

  /* ---------- answering a request ---------- */

  /** A pending request can be answered up to and including the second in which it expires. */
  predicate Answerable(b: Books, id: nat) {
    id < |b.approvals| && b.approvals[id].status == Pending && b.now <= b.approvals[id].expiresAt
  }

  /** A request's row after an attempt to answer request `id`. */
  function AnsweredRow(b: Books, i: nat, id: nat, resolver: string, approved: bool): Approval
    requires i < |b.approvals|
  {
    var a := b.approvals[i];
    if i == id && Answerable(b, id) then a.(status := if approved then Approved else Denied, resolver := Some(resolver))
    else if a.status == Pending && a.expiresAt < b.now then a.(status := Expired)
    else a
  }

  predicate WaitsFor(b: Books, id: nat, d: nat) {
    && Answerable(b, id) && b.approvals[id].delegationId == Some(d)
    && d < |b.delegations| && b.delegations[d].status == AwaitingApproval
  }

  /** What answering does to the requests: exactly one row is stamped, if it can be; whatever is
      overdue expires; nothing else changes. */
  lemma ResolveStampsOneRequest(b: Books, id: nat, resolver: string, approved: bool)
    ensures var b' := Resolve(b, id, resolver, approved);
            && |b'.approvals| == |b.approvals| && b'.now == b.now && b'.ceilings == b.ceilings
            && (forall i :: 0 <= i < |b.approvals| ==> b'.approvals[i] == AnsweredRow(b, i, id, resolver, approved))
            && ((forall d :: 0 <= d < |b.delegations| ==> !WaitsFor(b, id, d)) ==>
                  b'.grants == b.grants && b'.delegations == b.delegations && b'.jobs == b.jobs)
  {
    hide IsActive;
    if Answerable(b, id) && b.approvals[id].delegationId.Some? {
      var d := b.approvals[id].delegationId.value;
      assert d < |b.delegations| && b.delegations[d].status == AwaitingApproval ==> WaitsFor(b, id, d);
    }
  }

  /** A denial rejects the waiting delegation and revokes exactly the grants it had, now. */
  lemma DenialRevokesExactly(b: Books, id: nat, resolver: string, d: nat)
    requires WaitsFor(b, id, d)
    ensures var b' := Resolve(b, id, resolver, false);
            && b'.delegations == b.delegations[d := b.delegations[d].(status := Rejected)] && b'.jobs == b.jobs
            && |b'.grants| == |b.grants|
            && forall i :: 0 <= i < |b.grants| ==>
                 b'.grants[i] == if b.grants[i].delegationId == Some(d) && b.grants[i].revokedAt == None
                                 then b.grants[i].(revokedAt := Some(b.now))
                                 else b.grants[i]
  {
  }

  /** An approval issues one grant for an hour, for exactly what was asked and in the name of who
      answered; and if every requested pair then has a row in force, it starts the one job. */
  lemma ApprovalIssuesExactly(b: Books, id: nat, resolver: string, d: nat)
    requires WaitsFor(b, id, d)
    ensures var b', a, del := Resolve(b, id, resolver, true), b.approvals[id], b.delegations[d];
            var issued := Grant(a.subject, a.action, a.scope, resolver, Some(id), Some(d), b.now + 3600, None);
            var complete := forall i :: 0 <= i < |del.requested| ==>
                              HasRowInForce(b.(grants := b.grants + [issued]), del.parent,
                                            del.requested[i].action, del.requested[i].scope);
            && b'.grants == b.grants + [issued]
            && b'.delegations
               == (if complete then b.delegations[d := del.(status := Accepted, childJob := Some(|b.jobs|))]
                   else b.delegations)
            && b'.jobs == (if complete then b.jobs + [ChildJob(d, del)] else b.jobs)
  {
    var a, del := b.approvals[id], b.delegations[d];
    var stamped := Stamp(ExpireStale(b), id, resolver, true);
    var granted := IssueApproved(stamped, id, resolver, d);
    var plain := b.(grants := granted.grants);
    hide IsActive;
    forall i | 0 <= i < |del.requested|
      ensures IsActive(granted, del.parent, del.requested[i].action, del.requested[i].scope)
              <==> HasRowInForce(plain, del.parent, del.requested[i].action, del.requested[i].scope)
    {
      ActiveMeansInForce(granted, del.parent, del.requested[i].action, del.requested[i].scope);
    }
    assert AllRequestedActive(granted, del)
           <==> forall i :: 0 <= i < |del.requested| ==>
                  HasRowInForce(plain, del.parent, del.requested[i].action, del.requested[i].scope);
  }

  /** The job's request: the subject is the delegating one whatever the inputs say; the other
      inputs are passed on as they are, and the delegation is named unless they name another. */
  lemma ChildJobSays(d: nat, del: Delegation, key: string)
    ensures var job := ChildJob(d, del);
            if key == "agent_profile_id" then key in job && job[key] == Text(del.parent)
            else if key in del.inputs then key in job && job[key] == del.inputs[key]
            else if key == "delegation_id" then key in job && job[key] == Ref(d)
            else key !in job
  {
  }

  /* ---------- proposing ---------- */

  /** A flag that is left out counts as set. */
  lemma OmittedFlagsCount(r: Requested, trust: Trust)
    ensures AsRequest(r, trust)
         == ActionRequest(r.action, r.scope, trust, r.mutatesState != Some(false), r.usesCredentials != Some(false))
  {
  }

  /** The requests that need a human, one for each pair that policy does not grant outright. */
  function Asks(p: PolicyEngine, parent: string, rs: seq<Requested>, trust: Trust, d: nat, now: int): seq<Approval> {
    if rs == [] then []
    else
      var r := rs[0];
      var first := Approval(parent, r.action, r.scope, Evaluate(p, AsRequest(r, trust)).risk, Some(d), Pending, None,
                            now + 86400);
      (if Outright(p, AsRequest(r, trust)) then [] else [first]) + Asks(p, parent, rs[1..], trust, d, now)
  }

  /** The grants that policy gives, each for an hour. */
  function Gives(p: PolicyEngine, parent: string, rs: seq<Requested>, trust: Trust, d: nat, now: int): seq<Grant> {
    if rs == [] then []
    else
      var r := rs[0];
      var first := Grant(parent, r.action, r.scope, "policy", None, Some(d), now + 3600, None);
      (if Outright(p, AsRequest(r, trust)) then [first] else []) + Gives(p, parent, rs[1..], trust, d, now)
  }

  predicate AllOutright(p: PolicyEngine, rs: seq<Requested>, trust: Trust) {
    forall k :: 0 <= k < |rs| ==> Outright(p, AsRequest(rs[k], trust))
  }

  /** A delegation once all its requests have been worked through. */
  function Concluded(del: Delegation, accepted: bool, job: nat): Delegation {
    if accepted then del.(status := Accepted, childJob := Some(job)) else del.(status := AwaitingApproval)
  }

  /** The books once the requests have been worked through, unless one was asked for before. */
  function WorkedThrough(p: PolicyEngine, b: Books, d: nat, trust: Trust, rs: seq<Requested>, allActive: bool): Books
    requires d < |b.delegations|
  {
    var del, accepted := b.delegations[d], allActive && AllOutright(p, rs, trust);
    Books(b.now, b.ceilings,
          b.grants + Gives(p, del.parent, rs, trust, d, b.now),
          b.approvals + Asks(p, del.parent, rs, trust, d, b.now),
          b.delegations[d := Concluded(del, accepted, |b.jobs|)],
          if accepted then b.jobs + [ChildJob(d, del)] else b.jobs)
  }

  lemma WorkedThroughOne(p: PolicyEngine, b: Books, d: nat, trust: Trust, rs: seq<Requested>, allActive: bool)
    requires d < |b.delegations| && rs != []
    ensures var r, parent := rs[0], b.delegations[d].parent;
            var risk := Evaluate(p, AsRequest(r, trust)).risk;
            WorkedThrough(p, b, d, trust, rs, allActive)
            == if Outright(p, AsRequest(r, trust))
               then WorkedThrough(p, AddGrant(b, parent, r.action, r.scope, "policy", None, Some(d), 3600), d, trust,
                                  rs[1..], allActive)
               else WorkedThrough(p, AddApproval(b, parent, r.action, r.scope, risk, d), d, trust, rs[1..], false)
  {
    hide Evaluate, Outright, ChildJob, Asks, Gives, AllOutright, AsRequest;
    FirstRequest(p, b.delegations[d].parent, rs, trust, d, b.now);
  }

  lemma WorkedThroughNone(p: PolicyEngine, b: Books, d: nat, trust: Trust, allActive: bool)
    requires d < |b.delegations|
    ensures WorkedThrough(p, b, d, trust, [], allActive) == Conclude(b, d, allActive)
  {
    hide ChildJob;
    FirstRequest(p, b.delegations[d].parent, [], trust, d, b.now);
  }

  lemma {:induction false} ProposeFromAnswers(p: PolicyEngine, b: Books, d: nat, trust: Trust, rs: seq<Requested>,
                                              allActive: bool)
    requires d < |b.delegations|
    ensures ProposeFrom(p, b, d, trust, rs, allActive) == WorkedThrough(p, b, d, trust, rs, allActive)
    decreases |rs|
  {
    hide Evaluate, Outright, WorkedThrough, Conclude;
    if rs == [] {
      WorkedThroughNone(p, b, d, trust, allActive);
    } else {
      var r, parent := rs[0], b.delegations[d].parent;
      var decision := Evaluate(p, AsRequest(r, trust));
      OutrightIff(p, AsRequest(r, trust));
      RefusalAsksForApproval(p, AsRequest(r, trust));
      WorkedThroughOne(p, b, d, trust, rs, allActive);
      if decision.approvalRequired {
        ProposeFromAnswers(p, AddApproval(b, parent, r.action, r.scope, decision.risk, d), d, trust, rs[1..], false);
      } else {
        ProposeFromAnswers(p, AddGrant(b, parent, r.action, r.scope, "policy", None, Some(d), GRANT_TTL),
                           d, trust, rs[1..], allActive);
      }
    }
  }

  lemma {:induction false} FirstRequest(p: PolicyEngine, parent: string, rs: seq<Requested>, trust: Trust, d: nat,
                                        now: int)
    ensures rs == [] ==>
              && AllOutright(p, rs, trust)
              && Asks(p, parent, rs, trust, d, now) == [] && Gives(p, parent, rs, trust, d, now) == []
    ensures rs != [] ==>
              var r, rest := rs[0], rs[1..];
              var outright := Outright(p, AsRequest(r, trust));
              var risk := Evaluate(p, AsRequest(r, trust)).risk;
              var ask := Approval(parent, r.action, r.scope, risk, Some(d), Pending, None, now + 86400);
              var grant := Grant(parent, r.action, r.scope, "policy", None, Some(d), now + 3600, None);
              && (AllOutright(p, rs, trust) <==> outright && AllOutright(p, rest, trust))
              && Asks(p, parent, rs, trust, d, now)
                 == (if outright then [] else [ask]) + Asks(p, parent, rest, trust, d, now)
              && Gives(p, parent, rs, trust, d, now)
                 == (if outright then [grant] else []) + Gives(p, parent, rest, trust, d, now)
  {
    hide Evaluate, Outright;
    if rs != [] {
      assert forall k :: 0 < k < |rs| ==> rs[k] == rs[1..][k - 1];
    }
  }

  /** Everything a proposal does.  A pair outside the ceiling, and nothing happens.  Otherwise one
      more delegation: policy's outright grants are issued, the rest is asked for, in order, and
      the delegation is accepted with its job exactly when there is nothing to ask. */
  lemma ProposalAnswers(p: PolicyEngine, b: Books, parent: string, inputs: map<string, Field>, rs: seq<Requested>,
                        trust: Trust)
    ensures var d, accepted := |b.delegations|, AllOutright(p, rs, trust);
            var del := Delegation(parent, inputs, rs, Proposed, None);
            Propose(p, b, parent, inputs, rs, trust)
            == if exists i :: 0 <= i < |rs|
                    && !(parent in b.ceilings && rs[i].action + ":" + rs[i].scope in b.ceilings[parent])
               then b
               else Books(b.now, b.ceilings,
                          b.grants + Gives(p, parent, rs, trust, d, b.now),
                          b.approvals + Asks(p, parent, rs, trust, d, b.now),
                          b.delegations + [Concluded(del, accepted, |b.jobs|)],
                          if accepted then b.jobs + [ChildJob(d, del)] else b.jobs)
  {
    hide ProposeFrom, ChildJob;
    var del := Delegation(parent, inputs, rs, Proposed, None);
    ProposeFromAnswers(p, Opened(b, parent, inputs, rs), |b.delegations|, trust, rs, true);
    assert forall i :: 0 <= i < |rs| ==>
             (HasCeiling(b, parent, rs[i])
              <==> parent in b.ceilings && rs[i].action + ":" + rs[i].scope in b.ceilings[parent]);
    assert forall x :: (b.delegations + [del])[|b.delegations| := x] == b.delegations + [x];
  }

  /* ---------- the other steps ---------- */

  /** Operators, time and other callers: what each adds, and that nothing else changes. */
  lemma OtherStepsAnswer(p: PolicyEngine, b: Books, op: Op)
    ensures match op
            case CreateProfile(id, ceiling) =>
              Apply(p, b, op) == if id in b.ceilings then b else b.(ceilings := b.ceilings[id := ceiling])
            case OperatorGrant(subject, action, scope, issuer, ttl) =>
              Apply(p, b, op)
              == b.(grants := b.grants + [Grant(subject, action, scope, issuer, None, None, b.now + ttl, None)])
            case ListPending =>
              && Apply(p, b, op) == b.(approvals := Apply(p, b, op).approvals)
              && |Apply(p, b, op).approvals| == |b.approvals|
              && forall i :: 0 <= i < |b.approvals| ==>
                   Apply(p, b, op).approvals[i]
                   == (if b.approvals[i].status == Pending && b.approvals[i].expiresAt < b.now
                       then b.approvals[i].(status := Expired) else b.approvals[i])
            case OtherJob(request) => Apply(p, b, op) == b.(jobs := b.jobs + [request])
            case Wait(seconds) => Apply(p, b, op) == b.(now := b.now + seconds)
            case _ => true
  {
    hide Propose, Resolve;
  }

  function FirstCeiling(ops: seq<Op>, id: string): Option<set<string>> {
    if ops == [] then None
    else if ops[0].CreateProfile? && ops[0].profile == id then Some(ops[0].ceiling)
    else FirstCeiling(ops[1..], id)
  }

  lemma {:induction false} FirstCeilingLast(ops: seq<Op>, op: Op, id: string)
    ensures FirstCeiling(ops + [op], id)
         == if FirstCeiling(ops, id).Some? then FirstCeiling(ops, id)
            else if op.CreateProfile? && op.profile == id then Some(op.ceiling)
            else None
  {
    if ops == [] {
      assert [op][1..] == [];
    } else {
      FirstCeilingLast(ops[1..], op, id);
      assert (ops + [op])[1..] == ops[1..] + [op];
    }
  }

  /** A profile's ceiling is the one it was first created with, for ever. */
  lemma {:induction false} CeilingIsTheFirst(p: PolicyEngine, ops: seq<Op>, id: string)
    ensures var ceilings := Run(p, EMPTY, ops).ceilings;
            FirstCeiling(ops, id) == if id in ceilings then Some(ceilings[id]) else None
  {
    if ops != [] {
      var n := |ops| - 1;
      CeilingIsTheFirst(p, ops[..n], id);
      RunLast(p, EMPTY, ops);
      StepCeilings(p, Run(p, EMPTY, ops[..n]), ops[n]);
      FirstCeilingLast(ops[..n], ops[n], id);
      assert ops[..n] + [ops[n]] == ops;
      hide *;
    }
  }

  lemma StepCeilings(p: PolicyEngine, b: Books, op: Op)
    ensures Apply(p, b, op).ceilings
         == if op.CreateProfile? && op.profile !in b.ceilings then b.ceilings[op.profile := op.ceiling] else b.ceilings
  {
    hide Propose, Resolve;
    match op
    case ProposeDelegation(parent, inputs, rs, trust) => ProposalAnswers(p, b, parent, inputs, rs, trust);
    case ResolveApproval(id, resolver, approved) => ResolveStampsOneRequest(b, id, resolver, approved);
    case _ =>
  }
}
