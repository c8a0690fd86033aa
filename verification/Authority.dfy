/** How authority comes into being and is used: delegations, approval requests and capability
    grants (src/sovereign_ai/kernel/roster.py and its stores), and the one question every
    enforcement point asks (`authorize` in src/sovereign_ai/execution/broker.py).

    The stores are one value, `Books`; rows are never deleted, so a row's position is its id.
    Time is a whole number of seconds that never goes back. */
module Authority {
  import opened Json
  import opened Policy

  const GRANT_TTL := 3600
  const APPROVAL_TTL := 86400

  datatype Grant = Grant(
    subject: string, action: string, scope: string, grantedBy: string,
    approvalId: Option<nat>, delegationId: Option<nat>,
    expiresAt: int, revokedAt: Option<int>)

  datatype ApprovalStatus = Pending | Approved | Denied | Expired

  datatype Approval = Approval(
    subject: string, action: string, scope: string, risk: Risk, delegationId: Option<nat>,
    status: ApprovalStatus, resolver: Option<string>, expiresAt: int)

  /** `None` is an entry the request left out. */
  datatype Requested = Requested(
    action: string, scope: string, mutatesState: Option<bool>, usesCredentials: Option<bool>)

  datatype DelegationStatus = Proposed | AwaitingApproval | Accepted | Rejected

  datatype Field = Ref(id: nat) | Text(s: string)

  datatype Delegation = Delegation(
    parent: string, inputs: map<string, Field>, requested: seq<Requested>,
    status: DelegationStatus, childJob: Option<nat>)

  type Job = map<string, Field>

  datatype Books = Books(
    now: int,
    ceilings: map<string, set<string>>,
    grants: seq<Grant>,
    approvals: seq<Approval>,
    delegations: seq<Delegation>,
    jobs: seq<Job>)

  /* ---------- queries ---------- */

  predicate Active(g: Grant, now: int) {
    g.revokedAt.None? && g.expiresAt > now
  }

  predicate IsActive(b: Books, subject: string, action: string, scope: string) {
    exists i :: 0 <= i < |b.grants| && Active(b.grants[i], b.now)
                && b.grants[i].subject == subject && b.grants[i].action == action && b.grants[i].scope == scope
  }

  predicate HasCeiling(b: Books, subject: string, r: Requested) {
    subject in b.ceilings && r.action + ":" + r.scope in b.ceilings[subject]
  }

  function AsRequest(r: Requested, trust: Trust): ActionRequest {
    ActionRequest(r.action, r.scope, trust,
                  r.mutatesState.None? || r.mutatesState.value,
                  r.usesCredentials.None? || r.usesCredentials.value)
  }

  /* ---------- store updates ---------- */

  function AddGrant(b: Books, subject: string, action: string, scope: string, issuer: string,
                    approvalId: Option<nat>, delegationId: Option<nat>, ttl: int): Books
  {
    b.(grants := b.grants + [Grant(subject, action, scope, issuer, approvalId, delegationId, b.now + ttl, None)])
  }

  function AddApproval(b: Books, subject: string, action: string, scope: string, risk: Risk, d: nat): Books {
    b.(approvals := b.approvals
                    + [Approval(subject, action, scope, risk, Some(d), Pending, None, b.now + APPROVAL_TTL)])
  }

  function SetStatus(b: Books, d: nat, status: DelegationStatus, childJob: Option<nat>): Books
    requires d < |b.delegations|
  {
    var current := b.delegations[d];
    var child := if childJob.Some? then childJob else current.childJob;
    b.(delegations := b.delegations[d := current.(status := status, childJob := child)])
  }

  function ExpireStale(b: Books): Books {
    b.(approvals := seq(|b.approvals|, i requires 0 <= i < |b.approvals| =>
                      if b.approvals[i].status == Pending && b.approvals[i].expiresAt < b.now
                      then b.approvals[i].(status := Expired)
                      else b.approvals[i]))
  }

  function RevokeForDelegation(b: Books, d: nat): Books {
    b.(grants := seq(|b.grants|, i requires 0 <= i < |b.grants| =>
                   if b.grants[i].delegationId == Some(d) && b.grants[i].revokedAt.None?
                   then b.grants[i].(revokedAt := Some(b.now))
                   else b.grants[i]))
  }

  function RevokeGrant(b: Books, id: nat): Books {
    if id < |b.grants| && b.grants[id].revokedAt.None?
    then b.(grants := b.grants[id := b.grants[id].(revokedAt := Some(b.now))])
    else b
  }

  /** The child job's request: caller inputs may shadow the delegation id, never the subject. */
  function ChildJob(d: nat, del: Delegation): Job {
    (map["delegation_id" := Ref(d)] + del.inputs)["agent_profile_id" := Text(del.parent)]
  }

  function CreateChild(b: Books, d: nat): Books
    requires d < |b.delegations|
  {
    SetStatus(b.(jobs := b.jobs + [ChildJob(d, b.delegations[d])]), d, Accepted, Some(|b.jobs|))
  }

  /* ---------- proposing ---------- */

  predicate WithinCeiling(b: Books, parent: string, rs: seq<Requested>) {
    forall i :: 0 <= i < |rs| ==> HasCeiling(b, parent, rs[i])
  }

  function Conclude(b: Books, d: nat, allActive: bool): Books
    requires d < |b.delegations|
  {
    if allActive then CreateChild(b, d) else SetStatus(b, d, AwaitingApproval, None)
  }

  /** Works through the requests that are left, one policy decision each. */
  function ProposeFrom(p: PolicyEngine, b: Books, d: nat, trust: Trust, rs: seq<Requested>, allActive: bool): Books
    requires d < |b.delegations|
    decreases |rs|
  {
    if rs == [] then Conclude(b, d, allActive)
    else
      var r, parent := rs[0], b.delegations[d].parent;
      var decision := Evaluate(p, AsRequest(r, trust));
      if decision.approvalRequired then
        ProposeFrom(p, AddApproval(b, parent, r.action, r.scope, decision.risk, d), d, trust, rs[1..], false)
      else if decision.allowed then
        ProposeFrom(p, AddGrant(b, parent, r.action, r.scope, "policy", None, Some(d), GRANT_TTL),
                    d, trust, rs[1..], allActive)
      else SetStatus(b, d, Rejected, None)
  }

  function Opened(b: Books, parent: string, inputs: map<string, Field>, rs: seq<Requested>): Books {
    b.(delegations := b.delegations + [Delegation(parent, inputs, rs, Proposed, None)])
  }

  function Propose(p: PolicyEngine, b: Books, parent: string, inputs: map<string, Field>,
                   rs: seq<Requested>, trust: Trust): Books
  {
    if WithinCeiling(b, parent, rs)
    then ProposeFrom(p, Opened(b, parent, inputs, rs), |b.delegations|, trust, rs, true)
    else b
  }

  /* ---------- resolving ---------- */

  predicate Resolvable(b: Books, id: nat) {
    id < |b.approvals| && ExpireStale(b).approvals[id].status == Pending
  }

  function Stamp(b: Books, id: nat, resolver: string, approved: bool): Books
    requires id < |b.approvals|
  {
    b.(approvals := b.approvals[id := b.approvals[id].(status := if approved then Approved else Denied,
                                                      resolver := Some(resolver))])
  }

  predicate AllRequestedActive(b: Books, del: Delegation) {
    forall i :: 0 <= i < |del.requested| ==> IsActive(b, del.parent, del.requested[i].action, del.requested[i].scope)
  }

  function IssueApproved(b: Books, id: nat, resolver: string, d: nat): Books
    requires id < |b.approvals|
  {
    var a := b.approvals[id];
    AddGrant(b, a.subject, a.action, a.scope, resolver, Some(id), Some(d), GRANT_TTL)
  }

  /** What follows once a human has answered request `id`, which delegation `d` waits on. */
  function Answered(b: Books, id: nat, resolver: string, approved: bool, d: nat): Books
    requires id < |b.approvals| && d < |b.delegations|
  {
    if !approved then SetStatus(RevokeForDelegation(b, d), d, Rejected, None)
    else
      var granted := IssueApproved(b, id, resolver, d);
      if AllRequestedActive(granted, granted.delegations[d]) then CreateChild(granted, d) else granted
  }

  function Resolve(b: Books, id: nat, resolver: string, approved: bool): Books {
    var current := ExpireStale(b);
    if !Resolvable(b, id) then current
    else
      var stamped := Stamp(current, id, resolver, approved);
      match stamped.approvals[id].delegationId
      case None => stamped
      case Some(d) =>
        if d < |stamped.delegations| && stamped.delegations[d].status == AwaitingApproval
        then Answered(stamped, id, resolver, approved, d)
        else stamped
  }

  /* ---------- runs ---------- */

  datatype Op =
    | CreateProfile(profile: string, ceiling: set<string>)
    | ProposeDelegation(parent: string, inputs: map<string, Field>, requested: seq<Requested>, trust: Trust)
    | ResolveApproval(id: nat, resolver: string, approved: bool)
    | OperatorGrant(subject: string, action: string, scope: string, issuer: string, ttl: int)
    | Revoke(grantId: nat)
    | ListPending
    | OtherJob(request: Job)
    | Wait(seconds: nat)

  function Apply(p: PolicyEngine, b: Books, op: Op): Books {
    match op
    case CreateProfile(id, ceiling) =>
      if id in b.ceilings then b else b.(ceilings := b.ceilings[id := ceiling])
    case ProposeDelegation(parent, inputs, rs, trust) => Propose(p, b, parent, inputs, rs, trust)
    case ResolveApproval(id, resolver, approved) => Resolve(b, id, resolver, approved)
    case OperatorGrant(subject, action, scope, issuer, ttl) =>
      AddGrant(b, subject, action, scope, issuer, None, None, ttl)
    case Revoke(id) => RevokeGrant(b, id)
    case ListPending => ExpireStale(b)
    case OtherJob(request) => b.(jobs := b.jobs + [request])
    case Wait(seconds) => b.(now := b.now + seconds)
  }

  function Run(p: PolicyEngine, b: Books, ops: seq<Op>): Books {
    if ops == [] then b else Apply(p, Run(p, b, ops[..|ops| - 1]), ops[|ops| - 1])
  }

  const EMPTY := Books(0, map[], [], [], [], [])

  /* ---------- the invariant ---------- */

  predicate Requests(del: Delegation, subject: string, action: string, scope: string) {
    subject == del.parent
    && exists i :: 0 <= i < |del.requested| && del.requested[i].action == action && del.requested[i].scope == scope
  }

  /** A grant tagged with a delegation is for its subject and one of its requested pairs, and is
      revoked if the delegation was rejected; one tagged with an approval was approved by a
      human for exactly its subject, action and scope. */
  predicate GrantOk(b: Books, g: Grant) {
    && (g.delegationId.Some? ==>
          && g.delegationId.value < |b.delegations|
          && Requests(b.delegations[g.delegationId.value], g.subject, g.action, g.scope)
          && (b.delegations[g.delegationId.value].status == Rejected ==> g.revokedAt.Some?))
    && (g.approvalId.Some? ==>
          && g.approvalId.value < |b.approvals|
          && var a := b.approvals[g.approvalId.value];
             a.status == Approved && a.subject == g.subject && a.action == g.action && a.scope == g.scope)
  }

  predicate ApprovalOk(b: Books, a: Approval) {
    a.delegationId.Some? ==>
      && a.delegationId.value < |b.delegations|
      && Requests(b.delegations[a.delegationId.value], a.subject, a.action, a.scope)
  }

  /** Everything requested is inside the ceiling; accepted means there is a child job, which
      acts for the delegating subject. */
  predicate DelegationOk(b: Books, del: Delegation) {
    && WithinCeiling(b, del.parent, del.requested)
    && (del.childJob.Some? <==> del.status == Accepted)
    && (del.childJob.Some? ==>
          && del.childJob.value < |b.jobs|
          && "agent_profile_id" in b.jobs[del.childJob.value]
          && b.jobs[del.childJob.value]["agent_profile_id"] == Text(del.parent))
  }

  predicate DistinctChildren(b: Books) {
    forall d, e :: 0 <= d < e < |b.delegations| && b.delegations[d].childJob.Some? ==>
                     b.delegations[d].childJob != b.delegations[e].childJob
  }

  predicate Consistent(b: Books) {
    && (forall i :: 0 <= i < |b.grants| ==> GrantOk(b, b.grants[i]))
    && (forall i :: 0 <= i < |b.approvals| ==> ApprovalOk(b, b.approvals[i]))
    && (forall d :: 0 <= d < |b.delegations| ==> DelegationOk(b, b.delegations[d]))
    && DistinctChildren(b)
  }

  /** Between calls no delegation is left half proposed. */
  predicate Settled(b: Books) {
    forall d :: 0 <= d < |b.delegations| ==> b.delegations[d].status != Proposed
  }

  /* ---------- each store update keeps it ---------- */

  /** Adding rows, jobs, profiles or time is harmless when the added rows are in order. */
  lemma ExtensionKeeps(b: Books, b': Books)
    requires Consistent(b)
    requires b.grants <= b'.grants && b.approvals <= b'.approvals
    requires b.delegations <= b'.delegations && b.jobs <= b'.jobs
    requires forall id :: id in b.ceilings ==> id in b'.ceilings && b'.ceilings[id] == b.ceilings[id]
    requires forall i :: |b.grants| <= i < |b'.grants| ==> GrantOk(b', b'.grants[i])
    requires forall i :: |b.approvals| <= i < |b'.approvals| ==> ApprovalOk(b', b'.approvals[i])
    requires forall d :: |b.delegations| <= d < |b'.delegations| ==>
                           DelegationOk(b', b'.delegations[d]) && b'.delegations[d].childJob.None?
    ensures Consistent(b')
  {
    forall i | 0 <= i < |b'.grants| ensures GrantOk(b', b'.grants[i]) {
      assert i < |b.grants| ==> GrantOk(b, b.grants[i]);
    }
    forall i | 0 <= i < |b'.approvals| ensures ApprovalOk(b', b'.approvals[i]) {
      assert i < |b.approvals| ==> ApprovalOk(b, b.approvals[i]);
    }
    forall d | 0 <= d < |b'.delegations| ensures DelegationOk(b', b'.delegations[d]) {
      if d < |b.delegations| {
        assert DelegationOk(b, b.delegations[d]);
        assert forall i :: 0 <= i < |b.delegations[d].requested| ==>
                             HasCeiling(b, b.delegations[d].parent, b.delegations[d].requested[i]);
      }
    }
  }

  lemma GrantRowKeeps(b: Books, subject: string, action: string, scope: string, issuer: string,
                      approvalId: Option<nat>, delegationId: Option<nat>, ttl: int)
    requires Consistent(b)
    requires GrantOk(b, Grant(subject, action, scope, issuer, approvalId, delegationId, b.now + ttl, None))
    ensures Consistent(AddGrant(b, subject, action, scope, issuer, approvalId, delegationId, ttl))
  {
    hide Consistent;
    ExtensionKeeps(b, AddGrant(b, subject, action, scope, issuer, approvalId, delegationId, ttl));
  }

  lemma ApprovalRowKeeps(b: Books, subject: string, action: string, scope: string, risk: Risk, d: nat)
    requires Consistent(b)
    requires d < |b.delegations| && Requests(b.delegations[d], subject, action, scope)
    ensures Consistent(AddApproval(b, subject, action, scope, risk, d))
  {
    hide Consistent;
    ExtensionKeeps(b, AddApproval(b, subject, action, scope, risk, d));
  }

  /** Rows of approvals may change as long as an approved row stays as it is. */
  lemma ApprovalUpdateKeeps(b: Books, b': Books)
    requires Consistent(b)
    requires b' == b.(approvals := b'.approvals) && |b'.approvals| == |b.approvals|
    requires forall i :: 0 <= i < |b.approvals| ==>
               && b'.approvals[i] == b.approvals[i].(status := b'.approvals[i].status,
                                                              resolver := b'.approvals[i].resolver)
               && (b.approvals[i].status == Approved ==> b'.approvals[i].status == Approved)
    ensures Consistent(b')
  {
    forall i | 0 <= i < |b'.grants| ensures GrantOk(b', b'.grants[i]) {
      assert GrantOk(b, b.grants[i]);
    }
    forall i | 0 <= i < |b'.approvals| ensures ApprovalOk(b', b'.approvals[i]) {
      assert ApprovalOk(b, b.approvals[i]);
    }
    forall e | 0 <= e < |b'.delegations| ensures DelegationOk(b', b'.delegations[e]) {
      assert DelegationOk(b, b.delegations[e]);
    }
  }

  /** Revoking never breaks anything. */
  lemma RevocationKeeps(b: Books, b': Books)
    requires Consistent(b)
    requires b' == b.(grants := b'.grants) && |b'.grants| == |b.grants|
    requires forall i :: 0 <= i < |b.grants| ==>
               && b'.grants[i] == b.grants[i].(revokedAt := b'.grants[i].revokedAt)
               && (b.grants[i].revokedAt.Some? ==> b'.grants[i].revokedAt.Some?)
    ensures Consistent(b')
  {
    forall i | 0 <= i < |b'.grants| ensures GrantOk(b', b'.grants[i]) {
      assert GrantOk(b, b.grants[i]);
    }
    forall i | 0 <= i < |b'.approvals| ensures ApprovalOk(b', b'.approvals[i]) {
      assert ApprovalOk(b, b.approvals[i]);
    }
    forall e | 0 <= e < |b'.delegations| ensures DelegationOk(b', b'.delegations[e]) {
      assert DelegationOk(b, b.delegations[e]);
    }
  }

  /** Any status but `Accepted` may be set on an open delegation; `Rejected` only once its
      grants are revoked. */
  lemma SetStatusKeeps(b: Books, d: nat, status: DelegationStatus)
    requires Consistent(b) && d < |b.delegations|
    requires status != Accepted && b.delegations[d].status != Accepted
    requires status == Rejected ==>
               forall i :: 0 <= i < |b.grants| && b.grants[i].delegationId == Some(d) ==> b.grants[i].revokedAt.Some?
    ensures Consistent(SetStatus(b, d, status, None))
  {
    var b' := SetStatus(b, d, status, None);
    assert DelegationOk(b, b.delegations[d]);
    forall i | 0 <= i < |b'.grants| ensures GrantOk(b', b'.grants[i]) {
      assert GrantOk(b, b.grants[i]);
    }
    forall i | 0 <= i < |b'.approvals| ensures ApprovalOk(b', b'.approvals[i]) {
      assert ApprovalOk(b, b.approvals[i]);
    }
    forall e | 0 <= e < |b'.delegations| ensures DelegationOk(b', b'.delegations[e]) {
      assert DelegationOk(b, b.delegations[e]);
    }
  }

  lemma CreateChildKeeps(b: Books, d: nat)
    requires Consistent(b) && d < |b.delegations| && b.delegations[d].status != Accepted
    ensures Consistent(CreateChild(b, d))
  {
    var b' := CreateChild(b, d);
    assert DelegationOk(b, b.delegations[d]);
    forall i | 0 <= i < |b'.grants| ensures GrantOk(b', b'.grants[i]) {
      assert GrantOk(b, b.grants[i]);
    }
    forall i | 0 <= i < |b'.approvals| ensures ApprovalOk(b', b'.approvals[i]) {
      assert ApprovalOk(b, b.approvals[i]);
    }
    forall e | 0 <= e < |b'.delegations| ensures DelegationOk(b', b'.delegations[e]) {
      assert DelegationOk(b, b.delegations[e]);
    }
  }

  /* ---------- each call keeps it ---------- */

  /** Closed delegations are left exactly as they are, and rows are only ever added. */
  predicate Preserves(b: Books, b': Books) {
    && |b.delegations| <= |b'.delegations| && |b.grants| <= |b'.grants| && |b.approvals| <= |b'.approvals|
    && (forall d :: 0 <= d < |b.delegations| && b.delegations[d].status in {Accepted, Rejected} ==>
          b'.delegations[d] == b.delegations[d])
    && b.now <= b'.now
  }

  lemma {:induction false} ProposeFromKeeps(p: PolicyEngine, b: Books, d: nat, trust: Trust, rs: seq<Requested>,
                                            allActive: bool)
    requires Consistent(b) && d < |b.delegations| && b.delegations[d].status == Proposed
    requires forall i :: 0 <= i < |rs| ==>
               Requests(b.delegations[d], b.delegations[d].parent, rs[i].action, rs[i].scope)
    ensures var b' := ProposeFrom(p, b, d, trust, rs, allActive);
            && Consistent(b') && Preserves(b, b') && |b'.delegations| == |b.delegations|
            && b'.delegations[d].status in {AwaitingApproval, Accepted}
            && forall e :: 0 <= e < |b.delegations| && e != d ==> b'.delegations[e] == b.delegations[e]
    decreases |rs|
  {
    hide Consistent, Requests, Evaluate;
    if rs == [] {
      if allActive {
        CreateChildKeeps(b, d);
      } else {
        SetStatusKeeps(b, d, AwaitingApproval);
      }
    } else {
      var r, parent := rs[0], b.delegations[d].parent;
      var decision := Evaluate(p, AsRequest(r, trust));
      RefusalAsksForApproval(p, AsRequest(r, trust));
      assert forall i :: 0 <= i < |rs[1..]| ==> rs[1..][i] == rs[i + 1];
      if decision.approvalRequired {
        ApprovalRowKeeps(b, parent, r.action, r.scope, decision.risk, d);
        ProposeFromKeeps(p, AddApproval(b, parent, r.action, r.scope, decision.risk, d), d, trust, rs[1..], false);
      } else {
        GrantRowKeeps(b, parent, r.action, r.scope, "policy", None, Some(d), GRANT_TTL);
        ProposeFromKeeps(p, AddGrant(b, parent, r.action, r.scope, "policy", None, Some(d), GRANT_TTL),
                         d, trust, rs[1..], allActive);
      }
    }
  }

  lemma ProposeKeeps(p: PolicyEngine, b: Books, parent: string, inputs: map<string, Field>, rs: seq<Requested>,
                     trust: Trust)
    requires Consistent(b) && Settled(b)
    ensures var b' := Propose(p, b, parent, inputs, rs, trust); Consistent(b') && Settled(b') && Preserves(b, b')
  {
    hide Consistent, ProposeFrom;
    if WithinCeiling(b, parent, rs) {
      var start := Opened(b, parent, inputs, rs);
      ExtensionKeeps(b, start);
      ProposeFromKeeps(p, start, |b.delegations|, trust, rs, true);
    }
  }

  lemma ExpireStaleKeeps(b: Books)
    requires Consistent(b)
    ensures Consistent(ExpireStale(b))
  {
    ApprovalUpdateKeeps(b, ExpireStale(b));
  }

  lemma AnsweredKeeps(b: Books, id: nat, resolver: string, approved: bool, d: nat)
    requires Consistent(b) && id < |b.approvals| && d < |b.delegations|
    requires b.approvals[id].delegationId == Some(d) && b.delegations[d].status == AwaitingApproval
    requires approved ==> b.approvals[id].status == Approved
    ensures var b' := Answered(b, id, resolver, approved, d);
            && Consistent(b') && |b'.delegations| == |b.delegations|
            && (b'.delegations[d].status in {AwaitingApproval, Accepted, Rejected})
            && (forall e :: 0 <= e < |b.delegations| && e != d ==> b'.delegations[e] == b.delegations[e])
            && b'.approvals == b.approvals && |b'.grants| >= |b.grants| && b'.now == b.now
  {
    assert ApprovalOk(b, b.approvals[id]);
    if approved {
      var a := b.approvals[id];
      assert GrantOk(b, Grant(a.subject, a.action, a.scope, resolver, Some(id), Some(d), b.now + GRANT_TTL, None));
      hide Consistent, IsActive, Requests, DelegationOk;
      GrantRowKeeps(b, a.subject, a.action, a.scope, resolver, Some(id), Some(d), GRANT_TTL);
      var granted := IssueApproved(b, id, resolver, d);
      if AllRequestedActive(granted, granted.delegations[d]) {
        CreateChildKeeps(granted, d);
      }
    } else {
      hide Consistent, Requests, DelegationOk;
      RevocationKeeps(b, RevokeForDelegation(b, d));
      SetStatusKeeps(RevokeForDelegation(b, d), d, Rejected);
    }
  }

  lemma ResolveKeeps(b: Books, id: nat, resolver: string, approved: bool)
    requires Consistent(b) && Settled(b)
    ensures var b' := Resolve(b, id, resolver, approved); Consistent(b') && Settled(b') && Preserves(b, b')
  {
    hide Consistent, Answered;
    ExpireStaleKeeps(b);
    if Resolvable(b, id) {
      var current := ExpireStale(b);
      var stamped := Stamp(current, id, resolver, approved);
      ApprovalUpdateKeeps(current, stamped);
      var tag := stamped.approvals[id].delegationId;
      if tag.Some? && tag.value < |stamped.delegations| && stamped.delegations[tag.value].status == AwaitingApproval {
        AnsweredKeeps(stamped, id, resolver, approved, tag.value);
      }
    }
  }

  /** The delegation invariant, for every call. */
  lemma StepKeeps(p: PolicyEngine, b: Books, op: Op)
    requires Consistent(b) && Settled(b)
    ensures var b' := Apply(p, b, op); Consistent(b') && Settled(b') && Preserves(b, b')
  {
    hide Consistent, Propose, Resolve;
    match op
    case CreateProfile(id, ceiling) => ExtensionKeeps(b, Apply(p, b, op));
    case ProposeDelegation(parent, inputs, rs, trust) => ProposeKeeps(p, b, parent, inputs, rs, trust);
    case ResolveApproval(id, resolver, approved) => ResolveKeeps(b, id, resolver, approved);
    case OperatorGrant(subject, action, scope, issuer, ttl) =>
      GrantRowKeeps(b, subject, action, scope, issuer, None, None, ttl);
    case Revoke(id) => RevocationKeeps(b, RevokeGrant(b, id));
    case ListPending => ExpireStaleKeeps(b);
    case OtherJob(_) => ExtensionKeeps(b, Apply(p, b, op));
    case Wait(_) => ExtensionKeeps(b, Apply(p, b, op));
  }

  /** The delegation invariant, over whole runs. */
  lemma {:induction false} RunKeeps(p: PolicyEngine, ops: seq<Op>)
    ensures Consistent(Run(p, EMPTY, ops)) && Settled(Run(p, EMPTY, ops))
  {
    if ops != [] {
      RunKeeps(p, ops[..|ops| - 1]);
      hide Consistent, Settled, Apply, Preserves;
      StepKeeps(p, Run(p, EMPTY, ops[..|ops| - 1]), ops[|ops| - 1]);
    }
  }

  /** Accepted and rejected are final: from any reachable point, no further calls change such a
      delegation in any way. */
  lemma {:induction false} ClosedStaysClosed(p: PolicyEngine, ops: seq<Op>, more: seq<Op>, d: nat)
    requires d < |Run(p, EMPTY, ops).delegations|
    requires Run(p, EMPTY, ops).delegations[d].status in {Accepted, Rejected}
    ensures d < |Run(p, EMPTY, ops + more).delegations|
    ensures Run(p, EMPTY, ops + more).delegations[d] == Run(p, EMPTY, ops).delegations[d]
    decreases |more|
  {
    hide *;
    if more == [] {
      assert ops + more == ops;
    } else {
      var all, butLast := ops + more, more[..|more| - 1];
      assert all[..|all| - 1] == ops + butLast;
      ClosedStaysClosed(p, ops, butLast, d);
      RunKeeps(p, ops + butLast);
      RunLast(p, EMPTY, all);
      StepKeeps(p, Run(p, EMPTY, ops + butLast), more[|more| - 1]);
      ClosedRowKept(Run(p, EMPTY, ops + butLast), Run(p, EMPTY, all), d);
    }
  }

  lemma ClosedRowKept(b: Books, b': Books, d: nat)
    requires Preserves(b, b') && d < |b.delegations| && b.delegations[d].status in {Accepted, Rejected}
    ensures d < |b'.delegations| && b'.delegations[d] == b.delegations[d]
  {
  }

  /* ---------- where jobs come from ---------- */

  predicate OnlyStatusChanged(x: Delegation, y: Delegation) {
    y == x.(status := y.status)
  }

  /** No job was added and no delegation got a child. */
  predicate NoNewChild(b: Books, b': Books) {
    && b'.jobs == b.jobs && |b.delegations| <= |b'.delegations|
    && (forall e :: 0 <= e < |b.delegations| ==> OnlyStatusChanged(b.delegations[e], b'.delegations[e]))
    && (forall e :: |b.delegations| <= e < |b'.delegations| ==> b'.delegations[e].childJob.None?)
  }

  /** One job was added, and delegation `d`, which had no child, has it. */
  predicate NewChild(b: Books, b': Books, d: nat) {
    && d < |b'.delegations| && |b.delegations| <= |b'.delegations|
    && b'.jobs == b.jobs + [ChildJob(d, b'.delegations[d])]
    && b'.delegations[d].childJob == Some(|b.jobs|)
    && (d < |b.delegations| ==> b.delegations[d].childJob.None?)
    && (forall e :: 0 <= e < |b.delegations| && e != d ==> OnlyStatusChanged(b.delegations[e], b'.delegations[e]))
    && (forall e :: |b.delegations| <= e < |b'.delegations| && e != d ==> b'.delegations[e].childJob.None?)
  }

  predicate AtMostOneChild(b: Books, b': Books) {
    NoNewChild(b, b') || exists d :: 0 <= d < |b'.delegations| && NewChild(b, b', d)
  }

  lemma {:induction false} ProposeFromJobs(p: PolicyEngine, b: Books, d: nat, trust: Trust, rs: seq<Requested>,
                                           allActive: bool)
    requires d < |b.delegations| && b.delegations[d].childJob.None?
    ensures var b' := ProposeFrom(p, b, d, trust, rs, allActive);
            |b'.delegations| == |b.delegations| && (NoNewChild(b, b') || NewChild(b, b', d))
    decreases |rs|
  {
    hide Evaluate;
    if rs != [] {
      var r, parent := rs[0], b.delegations[d].parent;
      var decision := Evaluate(p, AsRequest(r, trust));
      if decision.approvalRequired {
        ProposeFromJobs(p, AddApproval(b, parent, r.action, r.scope, decision.risk, d), d, trust, rs[1..], false);
      } else if decision.allowed {
        ProposeFromJobs(p, AddGrant(b, parent, r.action, r.scope, "policy", None, Some(d), GRANT_TTL),
                        d, trust, rs[1..], allActive);
      }
    }
  }

  lemma ResolveJobs(b: Books, id: nat, resolver: string, approved: bool)
    requires Consistent(b)
    ensures AtMostOneChild(b, Resolve(b, id, resolver, approved))
  {
    hide IsActive, GrantOk, ApprovalOk, AllRequestedActive;
    var b' := Resolve(b, id, resolver, approved);
    if Resolvable(b, id) {
      var tag := b.approvals[id].delegationId;
      if tag.Some? && tag.value < |b.delegations| && b.delegations[tag.value].status == AwaitingApproval {
        assert DelegationOk(b, b.delegations[tag.value]);
        assert NoNewChild(b, b') || NewChild(b, b', tag.value);
      }
    }
  }

  lemma StepJobs(p: PolicyEngine, b: Books, op: Op)
    requires Consistent(b)
    ensures !op.OtherJob? ==> AtMostOneChild(b, Apply(p, b, op))
  {
    hide Consistent, ProposeFrom, Resolve, NewChild;
    match op
    case ProposeDelegation(parent, inputs, rs, trust) =>
      if WithinCeiling(b, parent, rs) {
        var start := Opened(b, parent, inputs, rs);
        ProposeFromJobs(p, start, |b.delegations|, trust, rs, true);
        SameFromOpened(b, start, Apply(p, b, op));
      }
    case ResolveApproval(id, resolver, approved) => ResolveJobs(b, id, resolver, approved);
    case _ =>
  }

  lemma SameFromOpened(b: Books, start: Books, b': Books)
    requires start.jobs == b.jobs && |start.delegations| == |b.delegations| + 1 == |b'.delegations|
    requires start.delegations[..|b.delegations|] == b.delegations && start.delegations[|b.delegations|].childJob.None?
    requires NoNewChild(start, b') || NewChild(start, b', |b.delegations|)
    ensures AtMostOneChild(b, b')
  {
    assert forall e :: 0 <= e < |b.delegations| ==> start.delegations[e] == b.delegations[e];
    if NewChild(start, b', |b.delegations|) {
      assert NewChild(b, b', |b.delegations|);
    }
  }

  predicate IsChild(b: Books, j: nat) {
    exists d :: 0 <= d < |b.delegations| && b.delegations[d].childJob == Some(j)
  }

  /** The job was created by a step that is none of the roster's. */
  predicate Submitted(p: PolicyEngine, ops: seq<Op>, j: nat) {
    exists i :: 0 <= i < |ops| && ops[i].OtherJob? && |Run(p, EMPTY, ops[..i]).jobs| == j
  }

  predicate ChildrenMade(b: Books) {
    forall d :: 0 <= d < |b.delegations| && b.delegations[d].childJob.Some? ==>
      var j := b.delegations[d].childJob.value;
      j < |b.jobs| && b.jobs[j] == ChildJob(d, b.delegations[d])
  }

  lemma ChildrenStep(b: Books, b': Books, j: nat)
    requires ChildrenMade(b) && AtMostOneChild(b, b')
    ensures ChildrenMade(b') && |b.jobs| <= |b'.jobs| <= |b.jobs| + 1
    ensures j < |b.jobs| ==> (IsChild(b', j) <==> IsChild(b, j))
    ensures |b.jobs| == j < |b'.jobs| ==> IsChild(b', j)
  {
    if !NoNewChild(b, b') {
      var d :| 0 <= d < |b'.delegations| && NewChild(b, b', d);
      assert b'.delegations[d].childJob == Some(|b.jobs|);
      assert forall e :: 0 <= e < |b.delegations| && e != d ==> b'.delegations[e].childJob == b.delegations[e].childJob;
    } else {
      assert forall e :: 0 <= e < |b.delegations| ==> b'.delegations[e].childJob == b.delegations[e].childJob;
    }
  }

  lemma {:induction false} JobsFollow(p: PolicyEngine, ops: seq<Op>, j: nat)
    ensures var b := Run(p, EMPTY, ops);
            && ChildrenMade(b)
            && (j < |b.jobs| ==> (IsChild(b, j) <==> !Submitted(p, ops, j)))
            && (j >= |b.jobs| ==> !Submitted(p, ops, j))
  {
    if ops != [] {
      var n := |ops| - 1;
      var front := ops[..n];
      JobsFollow(p, front, j);
      RunKeeps(p, front);
      RunLast(p, EMPTY, ops);
      SubmittedLast(p, ops, j);
      hide *;
      var b, b' := Run(p, EMPTY, front), Run(p, EMPTY, ops);
      if ops[n].OtherJob? {
        OtherJobStep(p, b, ops[n], j);
      } else {
        StepJobs(p, b, ops[n]);
        ChildrenStep(b, b', j);
      }
    }
  }

  lemma {:induction false} SubmittedLast(p: PolicyEngine, ops: seq<Op>, j: nat)
    requires ops != []
    ensures var n := |ops| - 1;
            Submitted(p, ops, j)
            <==> Submitted(p, ops[..n], j) || (ops[n].OtherJob? && |Run(p, EMPTY, ops[..n]).jobs| == j)
  {
    hide Run;
    var n := |ops| - 1;
    assert forall i :: 0 <= i < n ==> ops[..n][..i] == ops[..i] && ops[..n][i] == ops[i];
  }

  lemma OtherJobStep(p: PolicyEngine, b: Books, op: Op, j: nat)
    requires op.OtherJob? && ChildrenMade(b)
    ensures var b' := Apply(p, b, op);
            && ChildrenMade(b') && |b'.jobs| == |b.jobs| + 1
            && (IsChild(b', j) <==> IsChild(b, j))
            && (j == |b.jobs| ==> !IsChild(b', j))
  {
  }

  /** Conservation of jobs over whole runs: every job was either submitted by a step outside the
      roster, or it is the child of exactly one delegation, which is accepted and whose subject
      and inputs it carries; never both. */
  lemma EveryJobHasOneSource(p: PolicyEngine, ops: seq<Op>, j: nat)
    requires j < |Run(p, EMPTY, ops).jobs|
    ensures var b := Run(p, EMPTY, ops);
            if Submitted(p, ops, j) then !IsChild(b, j)
            else exists d :: 0 <= d < |b.delegations| && SoleParent(b, d, j)
  {
    hide Run, Submitted;
    JobsFollow(p, ops, j);
    RunKeeps(p, ops);
    var b := Run(p, EMPTY, ops);
    if !Submitted(p, ops, j) {
      var d :| 0 <= d < |b.delegations| && b.delegations[d].childJob == Some(j);
      assert DelegationOk(b, b.delegations[d]);
      assert SoleParent(b, d, j);
    }
  }

  predicate SoleParent(b: Books, d: nat, j: nat) {
    && d < |b.delegations| && j < |b.jobs|
    && b.delegations[d].status == Accepted && b.jobs[j] == ChildJob(d, b.delegations[d])
    && forall e :: 0 <= e < |b.delegations| ==> (b.delegations[e].childJob == Some(j) <==> e == d)
  }

  /* ---------- what authorises an action ---------- */

  datatype Query = Query(subject: Option<string>, request: ActionRequest, approved: bool)

  /** The subject is named and holds an active grant for exactly this action and scope. */
  predicate Holds(b: Books, q: Query) {
    q.subject.Some? && q.subject.value != "" && IsActive(b, q.subject.value, q.request.action, q.request.scope)
  }

  /** `None` is a `PermissionError`. */
  function Authorize(p: PolicyEngine, b: Books, q: Query): Option<Decision> {
    if Holds(b, q) then Some(Decision(true, false, Medium))
    else
      var decision := Evaluate(p, q.request);
      if !decision.allowed || (decision.approvalRequired && !q.approved) then None else Some(decision)
  }

  /** For untrusted mutations a grant is the only way: neither policy rules nor the `approved`
      flag make a difference. */
  lemma GateYieldsToGrantsOnly(p: PolicyEngine, b: Books, q: Query)
    requires Gated(q.request)
    ensures Authorize(p, b, q).Some? <==> Holds(b, q)
    ensures forall rules :: Authorize(rules, b, q.(approved := true)) == Authorize(p, b, q)
  {
  }

  /** Step `op` is why grant `g` exists: an operator issued it, a human approved it, or policy
      allowed it outright when a delegation was proposed. */
  predicate CausedBy(p: PolicyEngine, op: Op, g: Grant) {
    match op
    case OperatorGrant(subject, action, scope, _, _) =>
      g.subject == subject && g.action == action && g.scope == scope && g.approvalId.None? && g.delegationId.None?
    case ResolveApproval(id, _, approved) => approved && g.approvalId == Some(id)
    case ProposeDelegation(parent, _, rs, trust) =>
      && g.subject == parent && g.approvalId.None? && g.delegationId.Some?
      && PolicyAllows(p, rs, trust, g.action, g.scope)
    case _ => false
  }

  predicate PolicyAllows(p: PolicyEngine, rs: seq<Requested>, trust: Trust, action: string, scope: string) {
    exists k :: 0 <= k < |rs| && rs[k].action == action && rs[k].scope == scope
                && Outright(p, AsRequest(rs[k], trust))
  }

  /** Existing grants keep everything but their revocation mark; new ones satisfy `why`. */
  ghost predicate GrantsExplained(old_: seq<Grant>, new_: seq<Grant>, why: Grant -> bool) {
    && |old_| <= |new_|
    && (forall i :: 0 <= i < |old_| ==> new_[i] == old_[i].(revokedAt := new_[i].revokedAt))
    && (forall i :: |old_| <= i < |new_| ==> why(new_[i]))
  }

  lemma {:induction false} ProposeExplains(p: PolicyEngine, b: Books, d: nat, trust: Trust, rs: seq<Requested>,
                                           allActive: bool)
    requires d < |b.delegations|
    ensures GrantsExplained(b.grants, ProposeFrom(p, b, d, trust, rs, allActive).grants,
              (g: Grant) => g.subject == b.delegations[d].parent && g.approvalId.None? && g.delegationId.Some?
                            && PolicyAllows(p, rs, trust, g.action, g.scope))
    decreases |rs|
  {
    hide Evaluate, Outright;
    if rs != [] {
      var r, parent := rs[0], b.delegations[d].parent;
      var decision := Evaluate(p, AsRequest(r, trust));
      OutrightIff(p, AsRequest(r, trust));
      assert forall action, scope ::
        PolicyAllows(p, rs[1..], trust, action, scope) ==> PolicyAllows(p, rs, trust, action, scope) by {
        assert forall k :: 0 <= k < |rs[1..]| ==> rs[1..][k] == rs[k + 1];
      }
      if decision.approvalRequired {
        ProposeExplains(p, AddApproval(b, parent, r.action, r.scope, decision.risk, d), d, trust, rs[1..], false);
      } else if decision.allowed {
        ProposeExplains(p, AddGrant(b, parent, r.action, r.scope, "policy", None, Some(d), GRANT_TTL),
                        d, trust, rs[1..], allActive);
        assert PolicyAllows(p, rs, trust, r.action, r.scope);
      }
    }
  }

  lemma StepExplains(p: PolicyEngine, b: Books, op: Op)
    ensures GrantsExplained(b.grants, Apply(p, b, op).grants, (g: Grant) => CausedBy(p, op, g))
  {
    match op
    case ProposeDelegation(parent, inputs, rs, trust) =>
      if WithinCeiling(b, parent, rs) {
        hide ProposeFrom, PolicyAllows, HasCeiling;
        ProposeExplains(p, Opened(b, parent, inputs, rs), |b.delegations|, trust, rs, true);
      }
    case _ =>
  }

  predicate HasCause(p: PolicyEngine, ops: seq<Op>, g: Grant) {
    exists i :: 0 <= i < |ops| && CausedBy(p, ops[i], g)
  }

  lemma {:induction false} EveryGrantHasCause(p: PolicyEngine, ops: seq<Op>, k: nat)
    requires k < |Run(p, EMPTY, ops).grants|
    ensures HasCause(p, ops, Run(p, EMPTY, ops).grants[k])
  {
    hide Apply;
    if ops != [] {
      var n := |ops| - 1;
      var before, after := Run(p, EMPTY, ops[..n]), Run(p, EMPTY, ops);
      StepExplains(p, before, ops[n]);
      if k < |before.grants| {
        EveryGrantHasCause(p, ops[..n], k);
        var i :| 0 <= i < n && CausedBy(p, ops[..n][i], before.grants[k]);
        assert CausedBy(p, ops[i], after.grants[k]);
      } else {
        assert CausedBy(p, ops[n], after.grants[k]);
      }
    }
  }

  /** Some earlier step of the run explains why the query succeeds. */
  ghost predicate Backed(p: PolicyEngine, ops: seq<Op>, q: Query, why: (Op, Grant) -> bool) {
    var b := Run(p, EMPTY, ops);
    exists i, k :: 0 <= i < |ops| && 0 <= k < |b.grants|
                   && Active(b.grants[k], b.now)
                   && q.subject == Some(b.grants[k].subject)
                   && b.grants[k].action == q.request.action && b.grants[k].scope == q.request.scope
                   && why(ops[i], b.grants[k])
  }

  /** Authority over whole runs: whenever an untrusted mutation is authorised, an unexpired,
      unrevoked grant for exactly that subject, action and scope is there, and an earlier step
      of the run is its origin. */
  lemma AuthorityHasOrigin(p: PolicyEngine, ops: seq<Op>, q: Query)
    requires Gated(q.request)
    requires Authorize(p, Run(p, EMPTY, ops), q).Some?
    ensures Backed(p, ops, q, (op: Op, g: Grant) => CausedBy(p, op, g))
  {
    var b := Run(p, EMPTY, ops);
    var k :| 0 <= k < |b.grants| && Active(b.grants[k], b.now) && b.grants[k].subject == q.subject.value
             && b.grants[k].action == q.request.action && b.grants[k].scope == q.request.scope;
    EveryGrantHasCause(p, ops, k);
  }

  /** Every pair that policy grants outright is granted, and no earlier grant is touched. */
  lemma {:induction false} ProposeIssues(p: PolicyEngine, b: Books, d: nat, trust: Trust, rs: seq<Requested>,
                                         allActive: bool)
    requires d < |b.delegations|
    ensures var b' := ProposeFrom(p, b, d, trust, rs, allActive);
            && b'.now == b.now && b.grants <= b'.grants
            && forall k :: 0 <= k < |rs| && Outright(p, AsRequest(rs[k], trust)) ==>
                 OutrightGrant(b, d, rs[k]) in b'.grants
    decreases |rs|
  {
    hide Evaluate, Outright;
    if rs != [] {
      var r, parent := rs[0], b.delegations[d].parent;
      var decision := Evaluate(p, AsRequest(r, trust));
      OutrightIff(p, AsRequest(r, trust));
      RefusalAsksForApproval(p, AsRequest(r, trust));
      assert forall k :: 0 < k < |rs| ==> rs[k] == rs[1..][k - 1];
      if decision.approvalRequired {
        ProposeIssues(p, AddApproval(b, parent, r.action, r.scope, decision.risk, d), d, trust, rs[1..], false);
      } else {
        var granted := AddGrant(b, parent, r.action, r.scope, "policy", None, Some(d), GRANT_TTL);
        ProposeIssues(p, granted, d, trust, rs[1..], allActive);
        assert granted.grants[|b.grants|] == OutrightGrant(b, d, r);
      }
    }
  }

  function OutrightGrant(b: Books, d: nat, r: Requested): Grant
    requires d < |b.delegations|
  {
    Grant(b.delegations[d].parent, r.action, r.scope, "policy", None, Some(d), b.now + GRANT_TTL, None)
  }

  /** A grant that no human had a part in: a delegation's, and not an answer to a request. */
  predicate ByPolicy(g: Grant, subject: string, action: string, scope: string) {
    && g.approvalId.None? && g.delegationId.Some?
    && g.subject == subject && g.action == action && g.scope == scope
  }

  predicate HasPolicyGrant(b: Books, subject: string, action: string, scope: string) {
    exists k :: 0 <= k < |b.grants| && ByPolicy(b.grants[k], subject, action, scope)
  }

  /** Step `op` proposes, inside the ceiling, a pair that policy grants outright. */
  predicate ProposesOutright(p: PolicyEngine, b: Books, op: Op, subject: string, action: string, scope: string) {
    && op.ProposeDelegation? && op.parent == subject
    && WithinCeiling(b, op.parent, op.requested)
    && PolicyAllows(p, op.requested, op.trust, action, scope)
  }

  predicate ProposedOutright(p: PolicyEngine, ops: seq<Op>, subject: string, action: string, scope: string) {
    exists i :: 0 <= i < |ops| && ProposesOutright(p, Run(p, EMPTY, ops[..i]), ops[i], subject, action, scope)
  }

  lemma OutrightProposalGrants(p: PolicyEngine, b: Books, op: Op, subject: string, action: string, scope: string)
    requires ProposesOutright(p, b, op, subject, action, scope)
    ensures IsActive(Apply(p, b, op), subject, action, scope)
    ensures HasPolicyGrant(Apply(p, b, op), subject, action, scope)
  {
    hide ProposeFrom, Outright;
    var d := |b.delegations|;
    var start := Opened(b, subject, op.inputs, op.requested);
    ProposeIssues(p, start, d, op.trust, op.requested, true);
    var k :| 0 <= k < |op.requested| && op.requested[k].action == action && op.requested[k].scope == scope
             && Outright(p, AsRequest(op.requested[k], op.trust));
    var g := OutrightGrant(start, d, op.requested[k]);
    var after := ProposeFrom(p, start, d, op.trust, op.requested, true);
    assert Apply(p, b, op) == after && g in after.grants;
    var j :| 0 <= j < |after.grants| && after.grants[j] == g;
    assert ByPolicy(after.grants[j], subject, action, scope) && Active(after.grants[j], after.now);
  }

  lemma PolicyGrantStep(p: PolicyEngine, b: Books, op: Op, subject: string, action: string, scope: string)
    ensures HasPolicyGrant(Apply(p, b, op), subject, action, scope)
            <==> HasPolicyGrant(b, subject, action, scope) || ProposesOutright(p, b, op, subject, action, scope)
  {
    hide Apply, PolicyAllows, WithinCeiling;
    var b' := Apply(p, b, op);
    StepExplains(p, b, op);
    if HasPolicyGrant(b, subject, action, scope) {
      var k :| 0 <= k < |b.grants| && ByPolicy(b.grants[k], subject, action, scope);
      assert ByPolicy(b'.grants[k], subject, action, scope);
    }
    if ProposesOutright(p, b, op, subject, action, scope) {
      OutrightProposalGrants(p, b, op, subject, action, scope);
    }
    if HasPolicyGrant(b', subject, action, scope) {
      var k :| 0 <= k < |b'.grants| && ByPolicy(b'.grants[k], subject, action, scope);
      if k < |b.grants| {
        assert ByPolicy(b.grants[k], subject, action, scope);
      } else {
        OutsideCeilingNothing(p, b, op);
      }
    }
  }

  lemma OutsideCeilingNothing(p: PolicyEngine, b: Books, op: Op)
    ensures op.ProposeDelegation? && !WithinCeiling(b, op.parent, op.requested) ==> Apply(p, b, op) == b
  {
  }

  /** Over whole runs, a grant without a human exists for a subject, action and scope exactly
      when some step proposed that pair inside the ceiling and policy grants it outright. */
  lemma {:induction false} PolicyGrantIff(p: PolicyEngine, ops: seq<Op>, subject: string, action: string, scope: string)
    ensures HasPolicyGrant(Run(p, EMPTY, ops), subject, action, scope)
            <==> ProposedOutright(p, ops, subject, action, scope)
  {
    hide *;
    NothingAtFirst(p, subject, action, scope);
    if ops != [] {
      var n := |ops| - 1;
      PolicyGrantIff(p, ops[..n], subject, action, scope);
      RunLast(p, EMPTY, ops);
      ProposedLast(p, ops, subject, action, scope);
      PolicyGrantStep(p, Run(p, EMPTY, ops[..n]), ops[n], subject, action, scope);
    }
  }

  lemma NothingAtFirst(p: PolicyEngine, subject: string, action: string, scope: string)
    ensures !HasPolicyGrant(Run(p, EMPTY, []), subject, action, scope)
              && !ProposedOutright(p, [], subject, action, scope)
  {
  }

  lemma {:induction false} ProposedLast(p: PolicyEngine, ops: seq<Op>, subject: string, action: string, scope: string)
    requires ops != []
    ensures var n := |ops| - 1;
            ProposedOutright(p, ops, subject, action, scope)
            <==> ProposedOutright(p, ops[..n], subject, action, scope)
                 || ProposesOutright(p, Run(p, EMPTY, ops[..n]), ops[n], subject, action, scope)
  {
    hide Run, ProposesOutright;
    var n := |ops| - 1;
    assert forall i :: 0 <= i < n ==> ops[..n][..i] == ops[..i] && ops[..n][i] == ops[i];
  }

  lemma {:induction false} RunLast(p: PolicyEngine, b: Books, ops: seq<Op>)
    requires ops != []
    ensures Run(p, b, ops) == Apply(p, Run(p, b, ops[..|ops| - 1]), ops[|ops| - 1])
  {
  }

  /** An operator's own grant for exactly this, or a human's yes to a request for exactly this. */
  predicate HumanAct(b: Books, op: Op, subject: string, action: string, scope: string) {
    || (op.OperatorGrant? && op.subject == subject && op.action == action && op.scope == scope)
    || (op.ResolveApproval? && op.approved && op.id < |b.approvals|
        && var a := b.approvals[op.id];
           a.status == Approved && a.subject == subject && a.action == action && a.scope == scope)
  }

  predicate HumanDecision(b: Books, op: Op, g: Grant) {
    HumanAct(b, op, g.subject, g.action, g.scope)
  }

  /** Unless policy was asked for exactly this and grants it outright, a human stands behind every
      authorised untrusted mutation. */
  lemma HumanBehindEveryMutation(p: PolicyEngine, ops: seq<Op>, q: Query)
    requires Gated(q.request)
    requires Authorize(p, Run(p, EMPTY, ops), q).Some?
    requires q.subject.Some? ==> !ProposedOutright(p, ops, q.subject.value, q.request.action, q.request.scope)
    ensures Backed(p, ops, q, (op: Op, g: Grant) => HumanDecision(Run(p, EMPTY, ops), op, g))
  {
    hide ProposedOutright, Apply;
    AuthorityHasOrigin(p, ops, q);
    RunKeeps(p, ops);
    var b := Run(p, EMPTY, ops);
    var i, k :| 0 <= i < |ops| && 0 <= k < |b.grants| && Active(b.grants[k], b.now)
                && q.subject == Some(b.grants[k].subject)
                && b.grants[k].action == q.request.action && b.grants[k].scope == q.request.scope
                && CausedBy(p, ops[i], b.grants[k]);
    PolicyGrantIff(p, ops, q.subject.value, q.request.action, q.request.scope);
    assert !ByPolicy(b.grants[k], q.subject.value, q.request.action, q.request.scope);
    assert GrantOk(b, b.grants[k]);
    assert HumanDecision(b, ops[i], b.grants[k]);
  }

  /** At no point of the run has a human decided on this. */
  predicate NoHumanAct(p: PolicyEngine, ops: seq<Op>, subject: string, action: string, scope: string) {
    forall n, i :: 0 <= i < n <= |ops| ==> !HumanAct(Run(p, EMPTY, ops[..n]), ops[i], subject, action, scope)
  }

  predicate EverAuthorized(p: PolicyEngine, ops: seq<Op>, q: Query) {
    exists n :: 0 <= n <= |ops| && Authorize(p, Run(p, EMPTY, ops[..n]), q).Some?
  }

  /** The exact condition: in a run without a human decision on it, an untrusted mutation is
      authorised at some point if and only if a delegation proposed that pair inside the ceiling
      and policy grants the pair, as described by the proposal, outright. */
  lemma PolicyAloneIff(p: PolicyEngine, ops: seq<Op>, q: Query)
    requires Gated(q.request) && q.subject.Some? && q.subject.value != ""
    requires NoHumanAct(p, ops, q.subject.value, q.request.action, q.request.scope)
    ensures EverAuthorized(p, ops, q)
            <==> ProposedOutright(p, ops, q.subject.value, q.request.action, q.request.scope)
  {
    hide EverAuthorized, ProposedOutright, NoHumanAct;
    if EverAuthorized(p, ops, q) {
      AuthorizedAlone(p, ops, q);
    }
    if ProposedOutright(p, ops, q.subject.value, q.request.action, q.request.scope) {
      ProposedAuthorizes(p, ops, q);
    }
  }

  lemma AuthorizedAlone(p: PolicyEngine, ops: seq<Op>, q: Query)
    requires Gated(q.request) && q.subject.Some? && EverAuthorized(p, ops, q)
    requires NoHumanAct(p, ops, q.subject.value, q.request.action, q.request.scope)
    ensures ProposedOutright(p, ops, q.subject.value, q.request.action, q.request.scope)
  {
    hide Apply, Run, HumanAct, ProposesOutright, Authorize;
    var subject, action, scope := q.subject.value, q.request.action, q.request.scope;
    var n :| 0 <= n <= |ops| && Authorize(p, Run(p, EMPTY, ops[..n]), q).Some?;
    if !ProposedOutright(p, ops[..n], subject, action, scope) {
      HumanBehindEveryMutation(p, ops[..n], q);
      assert false;
    }
    var i :| 0 <= i < n && ProposesOutright(p, Run(p, EMPTY, ops[..n][..i]), ops[..n][i], subject, action, scope);
    assert ops[..n][..i] == ops[..i] && ops[..n][i] == ops[i];
  }

  lemma ProposedAuthorizes(p: PolicyEngine, ops: seq<Op>, q: Query)
    requires q.subject.Some? && q.subject.value != ""
    requires ProposedOutright(p, ops, q.subject.value, q.request.action, q.request.scope)
    ensures EverAuthorized(p, ops, q)
  {
    hide Apply, Run, ProposesOutright, IsActive;
    var subject, action, scope := q.subject.value, q.request.action, q.request.scope;
    var i :| 0 <= i < |ops| && ProposesOutright(p, Run(p, EMPTY, ops[..i]), ops[i], subject, action, scope);
    OutrightProposalGrants(p, Run(p, EMPTY, ops[..i]), ops[i], subject, action, scope);
    RunLast(p, EMPTY, ops[..i + 1]);
    assert ops[..i + 1][..i] == ops[..i];
    assert Authorize(p, Run(p, EMPTY, ops[..i + 1]), q).Some?;
  }

  /** Two steps suffice: a delegation asks for a write and says that it changes no state.  From
      then on the subject may write, as far as any rule or trust label is concerned, and no human
      has been asked. */
  lemma PolicyWritesAlone(p: PolicyEngine, who: string, trust: Trust)
    requires who != "" && Untrusted(trust)
    requires Outright(p, ActionRequest("write", "workspace", UntrustedCollaboration, false, false))
    ensures var r := Requested("write", "workspace", Some(false), Some(false));
            var ops := [CreateProfile(who, {"write:workspace"}), ProposeDelegation(who, map[], [r],
                UntrustedCollaboration)];
            var q := Query(Some(who), ActionRequest("write", "workspace", trust, true, false), false);
            && Gated(q.request) && NoHumanAct(p, ops, who, "write", "workspace")
            && Authorize(p, Run(p, EMPTY, ops), q).Some?
            && !Backed(p, ops, q, (op: Op, g: Grant) => HumanDecision(Run(p, EMPTY, ops), op, g))
  {
    hide Apply, Run, Outright;
    var r := Requested("write", "workspace", Some(false), Some(false));
    var ops := [CreateProfile(who, {"write:workspace"}), ProposeDelegation(who, map[], [r], UntrustedCollaboration)];
    var b := Apply(p, EMPTY, ops[0]);
    RunOfTwo(p, ops[0], ops[1]);
    FreshProfile(p, who, r);
    assert PolicyAllows(p, [r], UntrustedCollaboration, "write", "workspace") by {
      assert Outright(p, AsRequest([r][0], UntrustedCollaboration));
    }
    OutrightProposalGrants(p, b, ops[1], who, "write", "workspace");
  }

  /* ---------- what one answer does ---------- */

  /** A request that can be answered and whose delegation still waits. */
  predicate Awaited(b: Books, id: nat, d: nat) {
    && Resolvable(b, id)
    && b.approvals[id].delegationId == Some(d) && d < |b.delegations|
    && b.delegations[d].status == AwaitingApproval
  }

  /** The roster promises that a denial rejects the whole delegation.  It does exactly when the
      delegation is still waiting (or already rejected): one accepted on the strength of other
      active grants stays accepted. */
  lemma DenialRejectsIffOpen(p: PolicyEngine, ops: seq<Op>, id: nat, resolver: string, d: nat)
    requires var b := Run(p, EMPTY, ops);
             Resolvable(b, id) && b.approvals[id].delegationId == Some(d) && d < |b.delegations|
    ensures var b := Run(p, EMPTY, ops);
            Resolve(b, id, resolver, false).delegations[d].status == Rejected <==> b.delegations[d].status != Accepted
  {
    RunKeeps(p, ops);
  }

  /** The roster promises the job once the last awaited approval is granted.  The job appears
      exactly when every requested pair is active at that moment, counting the grant just issued;
      earlier approvals whose grants have lapsed do not count. */
  lemma ApprovalCreatesJobIffAllActive(p: PolicyEngine, ops: seq<Op>, id: nat, resolver: string, d: nat)
    requires Awaited(Run(p, EMPTY, ops), id, d)
    ensures var b := Run(p, EMPTY, ops);
            var b' := Resolve(b, id, resolver, true);
            && b'.delegations[d].status
               == (if AllOtherPairsActive(b, d, b.approvals[id]) then Accepted else AwaitingApproval)
            && |b'.jobs| == |b.jobs| + (if AllOtherPairsActive(b, d, b.approvals[id]) then 1 else 0)
  {
    var b := Run(p, EMPTY, ops);
    RunKeeps(p, ops);
    assert ApprovalOk(b, b.approvals[id]);
    var stamped := Stamp(ExpireStale(b), id, resolver, true);
    var granted := IssueApproved(stamped, id, resolver, d);
    var del, a := b.delegations[d], b.approvals[id];
    assert granted.delegations[d] == del;
    forall i | 0 <= i < |del.requested|
      ensures var r := del.requested[i];
              IsActive(granted, del.parent, r.action, r.scope)
              <==> IsActive(b, del.parent, r.action, r.scope) || (r.action == a.action && r.scope == a.scope)
    {
      IssuedIsActive(stamped, id, resolver, d, del.parent, del.requested[i].action, del.requested[i].scope);
    }
  }

  predicate AllOtherPairsActive(b: Books, d: nat, a: Approval)
    requires d < |b.delegations|
  {
    var del := b.delegations[d];
    forall i :: 0 <= i < |del.requested| ==>
      var r := del.requested[i];
      IsActive(b, del.parent, r.action, r.scope) || (r.action == a.action && r.scope == a.scope)
  }

  lemma IssuedIsActive(b: Books, id: nat, resolver: string, d: nat, subject: string, action: string, scope: string)
    requires id < |b.approvals|
    ensures var a := b.approvals[id];
            IsActive(IssueApproved(b, id, resolver, d), subject, action, scope)
            <==> IsActive(b, subject, action, scope) || (a.subject == subject && a.action == action && a.scope == scope)
  {
    var b' := IssueApproved(b, id, resolver, d);
    var n := |b.grants|;
    assert b'.grants[..n] == b.grants;
    assert forall i :: 0 <= i < n ==> b'.grants[i] == b.grants[i];
    if IsActive(b, subject, action, scope) {
      var i :| 0 <= i < n && Active(b.grants[i], b.now)
               && b.grants[i].subject == subject && b.grants[i].action == action && b.grants[i].scope == scope;
      assert Active(b'.grants[i], b'.now);
    }
    assert Active(b'.grants[n], b'.now);
  }

  predicate NothingPendingFor(b: Books, d: nat) {
    forall i :: 0 <= i < |b.approvals| && b.approvals[i].delegationId == Some(d) ==> b.approvals[i].status != Pending
  }

  /** A new delegation's approval requests are its own; nothing else is touched. */
  lemma {:induction false} ProposeTags(p: PolicyEngine, b: Books, d: nat, trust: Trust, rs: seq<Requested>,
                                       allActive: bool)
    requires d < |b.delegations|
    ensures var b' := ProposeFrom(p, b, d, trust, rs, allActive);
            && b.approvals <= b'.approvals && |b'.delegations| == |b.delegations|
            && (forall i :: |b.approvals| <= i < |b'.approvals| ==> b'.approvals[i].delegationId == Some(d))
            && (forall e :: 0 <= e < |b.delegations| && e != d ==> b'.delegations[e] == b.delegations[e])
    decreases |rs|
  {
    hide Evaluate;
    if rs != [] {
      var r, parent := rs[0], b.delegations[d].parent;
      var decision := Evaluate(p, AsRequest(r, trust));
      if decision.approvalRequired {
        ProposeTags(p, AddApproval(b, parent, r.action, r.scope, decision.risk, d), d, trust, rs[1..], false);
      } else if decision.allowed {
        ProposeTags(p, AddGrant(b, parent, r.action, r.scope, "policy", None, Some(d), GRANT_TTL),
                    d, trust, rs[1..], allActive);
      }
    }
  }

  lemma StepLeavesStuck(p: PolicyEngine, b: Books, op: Op, d: nat)
    requires d < |b.delegations| && NothingPendingFor(b, d)
    ensures var b' := Apply(p, b, op);
            d < |b'.delegations| && b'.delegations[d] == b.delegations[d] && NothingPendingFor(b', d)
  {
    match op
    case ProposeDelegation(parent, inputs, rs, trust) =>
      if WithinCeiling(b, parent, rs) {
        hide ProposeFrom, HasCeiling;
        ProposeTags(p, Opened(b, parent, inputs, rs), |b.delegations|, trust, rs, true);
      }
    case ResolveApproval(id, resolver, approved) =>
      hide AllRequestedActive;
    case _ =>
  }

  /** Once none of its requests is pending, a delegation never changes again.  A waiting one is
      then stuck: with `ApprovalCreatesJobIffAllActive`, this is what a lapsed grant leads to. */
  lemma {:induction false} NothingPendingIsFinal(p: PolicyEngine, b: Books, ops: seq<Op>, d: nat)
    requires d < |b.delegations| && NothingPendingFor(b, d)
    ensures var b' := Run(p, b, ops);
            d < |b'.delegations| && b'.delegations[d] == b.delegations[d] && NothingPendingFor(b', d)
  {
    if ops != [] {
      NothingPendingIsFinal(p, b, ops[..|ops| - 1], d);
      hide Apply, NothingPendingFor;
      StepLeavesStuck(p, Run(p, b, ops[..|ops| - 1]), ops[|ops| - 1], d);
    }
  }

  /* ---------- two kinds of run the promises do not cover ---------- */

  /** Two requests for different things, with the two flags left out. */
  predicate TwoRequests(r: Requested, q: Requested) {
    && r.mutatesState.None? && r.usesCredentials.None? && q.mutatesState.None? && q.usesCredentials.None?
    && (r.action != q.action || r.scope != q.scope)
  }

  function Profile(r: Requested, q: Requested): set<string> {
    {r.action + ":" + r.scope, q.action + ":" + q.scope}
  }

  function Ask(who: string, r: Requested, status: ApprovalStatus, resolver: Option<string>): Approval {
    Approval(who, r.action, r.scope, Critical, Some(0), status, resolver, APPROVAL_TTL)
  }

  /** A delegation for both requests that waits, with the given approvals and grants. */
  function Waiting(now: int, who: string, r: Requested, q: Requested, grants: seq<Grant>,
                   approvals: seq<Approval>): Books {
    Books(now, map[who := Profile(r, q)], grants, approvals,
          [Delegation(who, map[], [r, q], AwaitingApproval, None)], [])
  }

  lemma BothPending(p: PolicyEngine, who: string, r: Requested, q: Requested)
    requires TwoRequests(r, q)
    ensures Propose(p, EMPTY.(ceilings := map[who := Profile(r, q)]), who, map[], [r, q], UntrustedCollaboration)
         == Waiting(0, who, r, q, [], [Ask(who, r, Pending, None), Ask(who, q, Pending, None)])
  {
    var b := EMPTY.(ceilings := map[who := Profile(r, q)]);
    assert WithinCeiling(b, who, [r, q]);
    var start := Opened(b, who, map[], [r, q]);
    var one := AddApproval(start, who, r.action, r.scope, Critical, 0);
    var two := AddApproval(one, who, q.action, q.scope, Critical, 0);
    assert [r, q][1..] == [q] && [q][1..] == [];
    assert ProposeFrom(p, one, 0, UntrustedCollaboration, [q], false)
        == ProposeFrom(p, two, 0, UntrustedCollaboration, [], false);
    assert ProposeFrom(p, start, 0, UntrustedCollaboration, [r, q], true)
        == ProposeFrom(p, one, 0, UntrustedCollaboration, [q], false);
  }

  function Given(who: string, r: Requested, human: string, id: nat, at: int): Grant {
    Grant(who, r.action, r.scope, human, Some(id), Some(0), at + GRANT_TTL, None)
  }

  lemma FirstApprovalWaits(who: string, r: Requested, q: Requested, human: string)
    requires TwoRequests(r, q)
    ensures Resolve(Waiting(0, who, r, q, [], [Ask(who, r, Pending, None), Ask(who, q, Pending, None)]), 0, human, true)
         == Waiting(0, who, r, q, [Given(who, r, human, 0, 0)],
                    [Ask(who, r, Approved, Some(human)), Ask(who, q, Pending, None)])
  {
    var b := Waiting(0, who, r, q, [], [Ask(who, r, Pending, None), Ask(who, q, Pending, None)]);
    assert ExpireStale(b) == b;
    var granted := IssueApproved(Stamp(b, 0, human, true), 0, human, 0);
    assert !IsActive(granted, who, q.action, q.scope);
    assert granted.delegations[0].requested[1] == q;
    assert !AllRequestedActive(granted, granted.delegations[0]);
  }

  lemma LateApprovalWaits(who: string, r: Requested, q: Requested, human: string, at: int)
    requires TwoRequests(r, q) && GRANT_TTL <= at <= APPROVAL_TTL
    ensures var first := Given(who, r, human, 0, 0);
            var asked := [Ask(who, r, Approved, Some(human)), Ask(who, q, Pending, None)];
            Resolve(Waiting(at, who, r, q, [first], asked), 1, human, true)
            == Waiting(at, who, r, q, [first, Given(who, q, human, 1, at)],
                       [Ask(who, r, Approved, Some(human)), Ask(who, q, Approved, Some(human))])
  {
    var first := Given(who, r, human, 0, 0);
    var b := Waiting(at, who, r, q, [first], [Ask(who, r, Approved, Some(human)), Ask(who, q, Pending, None)]);
    assert ExpireStale(b) == b;
    var granted := IssueApproved(Stamp(b, 1, human, true), 1, human, 0);
    assert !IsActive(granted, who, r.action, r.scope);
    assert granted.delegations[0].requested[0] == r;
    assert !AllRequestedActive(granted, granted.delegations[0]);
  }

  lemma RunOfTwo(p: PolicyEngine, a: Op, b: Op)
    ensures Run(p, EMPTY, [a, b]) == Apply(p, Apply(p, EMPTY, a), b)
  {
    hide Apply;
    assert [a, b][..1] == [a] && [a][..0] == [];
    assert Run(p, EMPTY, [a]) == Apply(p, EMPTY, a);
  }

  lemma FreshProfile(p: PolicyEngine, who: string, r: Requested)
    requires r.action == "write" && r.scope == "workspace"
    ensures WithinCeiling(Apply(p, EMPTY, CreateProfile(who, {"write:workspace"})), who, [r])
  {
    assert "write" + ":" + "workspace" == "write:workspace";
  }

  lemma RunOfFive(p: PolicyEngine, a: Op, b: Op, c: Op, d: Op, e: Op)
    ensures Run(p, EMPTY, [a, b, c, d, e]) == Apply(p, Apply(p, Apply(p, Apply(p, Apply(p, EMPTY, a), b), c), d), e)
  {
    hide Apply;
    assert [a, b, c, d, e][..4] == [a, b, c, d] && [a, b, c, d][..3] == [a, b, c];
    assert [a, b, c][..2] == [a, b] && [a, b][..1] == [a] && [a][..0] == [];
    assert Run(p, EMPTY, [a]) == Apply(p, EMPTY, a);
    assert Run(p, EMPTY, [a, b]) == Apply(p, Run(p, EMPTY, [a]), b);
    assert Run(p, EMPTY, [a, b, c]) == Apply(p, Run(p, EMPTY, [a, b]), c);
    assert Run(p, EMPTY, [a, b, c, d]) == Apply(p, Run(p, EMPTY, [a, b, c]), d);
  }

  /** Under any policy: a human approves both requests, the second an hour or more after the
      first (but before it expires).  No request is left to answer, and whatever happens later
      the delegation waits for ever. */
  lemma LapsedApprovalStrands(p: PolicyEngine, who: string, r: Requested, q: Requested, human: string, gap: nat,
                              more: seq<Op>)
    requires TwoRequests(r, q) && GRANT_TTL <= gap <= APPROVAL_TTL
    ensures var b := Run(p, EMPTY, [CreateProfile(who, Profile(r, q)),
                                    ProposeDelegation(who, map[], [r, q], UntrustedCollaboration),
                                    ResolveApproval(0, human, true), Wait(gap), ResolveApproval(1, human, true)]);
            && |b.approvals| == 2 && b.approvals[0].status == Approved && b.approvals[1].status == Approved
            && |b.delegations| == 1 && b.delegations[0].status == AwaitingApproval
            && var later := Run(p, b, more);
               |later.delegations| > 0 && later.delegations[0] == b.delegations[0]
  {
    hide Propose, Resolve, Profile, Run;
    BothPending(p, who, r, q);
    FirstApprovalWaits(who, r, q, human);
    LateApprovalWaits(who, r, q, human, gap);
    RunOfFive(p, CreateProfile(who, Profile(r, q)), ProposeDelegation(who, map[], [r, q], UntrustedCollaboration),
              ResolveApproval(0, human, true), Wait(gap), ResolveApproval(1, human, true));
    var b := Waiting(gap, who, r, q, [Given(who, r, human, 0, 0), Given(who, q, human, 1, gap)],
                     [Ask(who, r, Approved, Some(human)), Ask(who, q, Approved, Some(human))]);
    NothingPendingIsFinal(p, b, more, 0);
  }

  /** What the books hold once the other pair was active and the first request is approved. */
  function AcceptedEarly(who: string, r: Requested, q: Requested, other: Grant, human: string,
                         second: Approval): Books {
    var del := Delegation(who, map[], [r, q], Accepted, Some(0));
    Books(0, map[who := Profile(r, q)], [other, Given(who, r, human, 0, 0)],
          [Ask(who, r, Approved, Some(human)), second], [del], [ChildJob(0, del)])
  }

  lemma FirstApprovalAccepts(who: string, r: Requested, q: Requested, other: Grant, human: string)
    requires TwoRequests(r, q)
    requires Active(other, 0) && other.subject == who && other.action == q.action && other.scope == q.scope
    ensures Resolve(Waiting(0, who, r, q, [other], [Ask(who, r, Pending, None), Ask(who, q, Pending, None)]),
                    0, human, true)
         == AcceptedEarly(who, r, q, other, human, Ask(who, q, Pending, None))
  {
    var b := Waiting(0, who, r, q, [other], [Ask(who, r, Pending, None), Ask(who, q, Pending, None)]);
    assert ExpireStale(b) == b;
    var granted := IssueApproved(Stamp(b, 0, human, true), 0, human, 0);
    assert Active(granted.grants[0], 0) && Active(granted.grants[1], 0);
    assert IsActive(granted, who, r.action, r.scope) && IsActive(granted, who, q.action, q.scope);
    assert AllRequestedActive(granted, granted.delegations[0]);
  }

  lemma LateDenialIsIgnored(who: string, r: Requested, q: Requested, other: Grant, human: string)
    ensures Resolve(AcceptedEarly(who, r, q, other, human, Ask(who, q, Pending, None)), 1, human, false)
         == AcceptedEarly(who, r, q, other, human, Ask(who, q, Denied, Some(human)))
  {
    var b := AcceptedEarly(who, r, q, other, human, Ask(who, q, Pending, None));
    assert ExpireStale(b) == b;
  }

  /** Under any policy: while an operator's grant for the second pair is active, approving the
      first request accepts the delegation; denying the second request afterwards changes nothing. */
  lemma DeniedButAccepted(p: PolicyEngine, who: string, r: Requested, q: Requested, human: string, ttl: int)
    requires TwoRequests(r, q) && ttl > 0
    ensures var b := Run(p, EMPTY, [CreateProfile(who, Profile(r, q)),
                                    ProposeDelegation(who, map[], [r, q], UntrustedCollaboration),
                                    OperatorGrant(who, q.action, q.scope, human, ttl),
                                    ResolveApproval(0, human, true), ResolveApproval(1, human, false)]);
            && |b.approvals| == 2 && b.approvals[1].status == Denied
            && |b.delegations| == 1 && b.delegations[0].status == Accepted && |b.jobs| == 1
  {
    hide Propose, Resolve, Profile, Run;
    var other := Grant(who, q.action, q.scope, human, None, None, ttl, None);
    BothPending(p, who, r, q);
    var asks := [Ask(who, r, Pending, None), Ask(who, q, Pending, None)];
    assert AddGrant(Waiting(0, who, r, q, [], asks), who, q.action, q.scope, human, None, None, ttl)
        == Waiting(0, who, r, q, [other], asks);
    FirstApprovalAccepts(who, r, q, other, human);
    LateDenialIsIgnored(who, r, q, other, human);
    RunOfFive(p, CreateProfile(who, Profile(r, q)), ProposeDelegation(who, map[], [r, q], UntrustedCollaboration),
              OperatorGrant(who, q.action, q.scope, human, ttl),
              ResolveApproval(0, human, true), ResolveApproval(1, human, false));
  }

  /* ---------- the services ---------- */

  /** One round of the proposal loop, and its end. */
  lemma ProposeNext(p: PolicyEngine, b: Books, d: nat, trust: Trust, rs: seq<Requested>, i: nat, allActive: bool)
    requires d < |b.delegations| && i < |rs|
    ensures var r, parent := rs[i], b.delegations[d].parent;
            var decision := Evaluate(p, AsRequest(r, trust));
            ProposeFrom(p, b, d, trust, rs[i..], allActive)
            == if decision.approvalRequired then
                 ProposeFrom(p, AddApproval(b, parent, r.action, r.scope, decision.risk, d), d, trust,
                             rs[i + 1..], false)
               else if decision.allowed then
                 ProposeFrom(p, AddGrant(b, parent, r.action, r.scope, "policy", None, Some(d), GRANT_TTL),
                             d, trust, rs[i + 1..], allActive)
               else SetStatus(b, d, Rejected, None)
  {
    hide Evaluate;
    assert rs[i..][0] == rs[i] && rs[i..][1..] == rs[i + 1..];
  }

  lemma ProposeEnds(p: PolicyEngine, b: Books, d: nat, trust: Trust, rs: seq<Requested>, allActive: bool)
    requires d < |b.delegations|
    ensures ProposeFrom(p, b, d, trust, rs[|rs|..], allActive) == Conclude(b, d, allActive)
  {
  }

  class RosterService {
    const policy: PolicyEngine
    var now: int
    var ceilings: map<string, set<string>>
    var grants: seq<Grant>
    var approvals: seq<Approval>
    var delegations: seq<Delegation>
    var jobs: seq<Job>

    constructor (policy: PolicyEngine)
      ensures this.policy == policy && Contents() == EMPTY && Valid()
    {
      this.policy := policy;
      now, ceilings, grants, approvals, delegations, jobs := 0, map[], [], [], [], [];
    }

    function Contents(): Books
      reads this
    {
      Books(now, ceilings, grants, approvals, delegations, jobs)
    }

    predicate Valid()
      reads this
    {
      Consistent(Contents()) && Settled(Contents())
    }

    method HoldsCeilings(parent: string, requested: seq<Requested>) returns (ok: bool)
      ensures ok <==> WithinCeiling(Contents(), parent, requested)
    {
      for i := 0 to |requested|
        invariant forall j :: 0 <= j < i ==> HasCeiling(Contents(), parent, requested[j])
      {
        if !HasCeiling(Contents(), parent, requested[i]) {
          return false;
        }
      }
      return true;
    }

    method IssueGrant(subject: string, action: string, scope: string, issuer: string,
                      approvalId: Option<nat>, delegationId: Option<nat>, ttl: int)
      modifies this`grants
      ensures Contents() == AddGrant(old(Contents()), subject, action, scope, issuer, approvalId, delegationId, ttl)
    {
      grants := grants + [Grant(subject, action, scope, issuer, approvalId, delegationId, now + ttl, None)];
    }

    method StartChild(d: nat) returns (job: nat)
      requires d < |delegations|
      modifies this`jobs, this`delegations
      ensures Contents() == CreateChild(old(Contents()), d) && job == |old(jobs)|
    {
      job := |jobs|;
      jobs := jobs + [ChildJob(d, delegations[d])];
      delegations := delegations[d := delegations[d].(status := Accepted, childJob := Some(job))];
    }

    /** `None` is the refusal of a request outside the ceiling; otherwise the delegation and, if
        nothing needs a human, its job. */
    method ProposeDelegation(parent: string, inputs: map<string, Field>, requested: seq<Requested>, trust: Trust)
      returns (result: Option<(nat, Option<nat>)>)
      requires Valid()
      modifies this
      ensures Valid() && Preserves(old(Contents()), Contents())
      ensures Contents() == Propose(policy, old(Contents()), parent, inputs, requested, trust)
      ensures result.None? <==> !old(WithinCeiling(Contents(), parent, requested))
      ensures result.Some? ==>
        var (d, job) := result.value;
        && d == |old(delegations)| < |delegations| && delegations[d].parent == parent
        && delegations[d].childJob == job && job == (if |jobs| == |old(jobs)| then None else Some(|old(jobs)|))
    {
      hide Consistent, Settled, Evaluate, Preserves, ProposeFrom, HasCeiling;
      ghost var before := Contents();
      ProposeKeeps(policy, before, parent, inputs, requested, trust);
      var ok := HoldsCeilings(parent, requested);
      if !ok {
        return None;
      }
      var d := |delegations|;
      delegations := delegations + [Delegation(parent, inputs, requested, Proposed, None)];
      ghost var goal := ProposeFrom(policy, Contents(), d, trust, requested, true);
      assert goal == Propose(policy, before, parent, inputs, requested, trust);
      assert requested[0..] == requested;
      var allActive := true;
      for i := 0 to |requested|
        invariant d == |before.delegations| < |delegations|
        invariant delegations[d].parent == parent && delegations[d].childJob.None? && jobs == before.jobs
        invariant goal == ProposeFrom(policy, Contents(), d, trust, requested[i..], allActive)
      {
        var r := requested[i];
        ProposeNext(policy, Contents(), d, trust, requested, i, allActive);
        var decision := Evaluate(policy, AsRequest(r, trust));
        if decision.approvalRequired {
          var expiry := now + APPROVAL_TTL;
          approvals := approvals
                       + [Approval(parent, r.action, r.scope, decision.risk, Some(d), Pending, None, expiry)];
          allActive := false;
        } else if decision.allowed {
          IssueGrant(parent, r.action, r.scope, "policy", None, Some(d), GRANT_TTL);
        } else {
          delegations := delegations[d := delegations[d].(status := DelegationStatus.Rejected)];
          return Some((d, None));
        }
      }
      assert goal == Conclude(Contents(), d, allActive) by {
        ProposeEnds(policy, Contents(), d, trust, requested, allActive);
      }
      if !allActive {
        delegations := delegations[d := delegations[d].(status := AwaitingApproval)];
        return Some((d, None));
      }
      var job := StartChild(d);
      return Some((d, Some(job)));
    }

    /** `None` is the refusal to answer a request that is unknown, answered or expired. */
    method ResolveApproval(id: nat, resolver: string, approved: bool) returns (result: Option<Option<nat>>)
      requires Valid()
      modifies this
      ensures Valid() && Preserves(old(Contents()), Contents())
      ensures Contents() == Resolve(old(Contents()), id, resolver, approved)
      ensures result.None? <==> !Resolvable(old(Contents()), id)
      ensures result.Some? && result.value.Some? ==>
        var d := approvals[id].delegationId;
        d.Some? && d.value < |delegations| && delegations[d.value].childJob == result.value
      ensures result.Some? ==> result.value == if |jobs| == |old(jobs)| then None else Some(|old(jobs)|)
    {
      hide Consistent, Preserves, IsActive;
      ResolveKeeps(Contents(), id, resolver, approved);
      approvals := ExpireStale(Contents()).approvals;
      if id >= |approvals| || approvals[id].status != Pending {
        return None;
      }
      approvals := approvals[id := approvals[id].(status := if approved then Approved else Denied,
                                                 resolver := Some(resolver))];
      var a := approvals[id];
      if a.delegationId.None? || a.delegationId.value >= |delegations|
         || delegations[a.delegationId.value].status != AwaitingApproval {
        return Some(None);
      }
      var d := a.delegationId.value;
      if !approved {
        grants := RevokeForDelegation(Contents(), d).grants;
        delegations := delegations[d := delegations[d].(status := DelegationStatus.Rejected)];
        return Some(None);
      }
      IssueGrant(a.subject, a.action, a.scope, resolver, Some(id), Some(d), GRANT_TTL);
      if !AllRequestedActive(Contents(), delegations[d]) {
        return Some(None);
      }
      var job := StartChild(d);
      return Some(Some(job));
    }
  }
}
