/** The policy decision every action goes through (src/sovereign_ai/kernel/policy.py). */
module Policy {
  import opened Json

  datatype Trust =
    | TrustedUser | TrustedLocal
    | UntrustedWeb | UntrustedEmail | UntrustedDocument | UntrustedModelOutput | UntrustedCollaboration
    | ExecutionResult | VerifiedResult

  datatype Risk = Low | Medium | High | Critical

  datatype ActionRequest = ActionRequest(
    action: string, scope: string, trust: Trust, mutatesState: bool, usesCredentials: bool)

  datatype Decision = Decision(allowed: bool, approvalRequired: bool, risk: Risk)

  /** An absent `action` or `scope` matches anything. */
  datatype Rule = Rule(action: Option<string>, scope: Option<string>, approval: bool, risk: Risk)

  datatype PolicyEngine = PolicyEngine(rules: seq<Rule>, failClosed: bool)

  predicate Untrusted(t: Trust) {
    t in {UntrustedWeb, UntrustedEmail, UntrustedDocument, UntrustedModelOutput, UntrustedCollaboration}
  }

  /** Untrusted content asking for a mutation, a credential or one of four dangerous actions. */
  predicate Gated(req: ActionRequest) {
    && Untrusted(req.trust)
    && (req.mutatesState || req.usesCredentials
        || req.action in {"execute", "credential", "delete", "network_post"})
  }

  predicate Matches(rule: Rule, req: ActionRequest) {
    && (rule.action.None? || rule.action.value == req.action)
    && (rule.scope.None? || rule.scope.value == "any" || rule.scope.value == req.scope)
  }

  function FirstMatch(rules: seq<Rule>, req: ActionRequest): Option<Rule> {
    if rules == [] then None
    else if Matches(rules[0], req) then Some(rules[0])
    else FirstMatch(rules[1..], req)
  }

  function Evaluate(p: PolicyEngine, req: ActionRequest): Decision {
    if Gated(req) then Decision(false, true, Critical)
    else
      match FirstMatch(p.rules, req)
      case Some(rule) => Decision(true, rule.approval, rule.risk)
      case None => Decision(!p.failClosed, true, High)
  }

  lemma {:induction false} FirstMatchIsFirst(rules: seq<Rule>, req: ActionRequest, i: nat)
    requires i < |rules| && Matches(rules[i], req)
    requires forall j :: 0 <= j < i ==> !Matches(rules[j], req)
    ensures FirstMatch(rules, req) == Some(rules[i])
  {
    if i > 0 {
      FirstMatchIsFirst(rules[1..], req, i - 1);
    }
  }

  lemma {:induction false} NoMatch(rules: seq<Rule>, req: ActionRequest)
    requires forall j :: 0 <= j < |rules| ==> !Matches(rules[j], req)
    ensures FirstMatch(rules, req) == None
  {
    if rules != [] {
      NoMatch(rules[1..], req);
    }
  }

  /** Rule order decides: behind the gate, the earliest matching rule alone fixes the verdict,
      later rules are never consulted, and the defaults apply only when nothing matches. */
  lemma EarliestRuleDecides(p: PolicyEngine, req: ActionRequest, i: nat, later: seq<Rule>)
    requires !Gated(req) && i < |p.rules|
    requires forall j :: 0 <= j < i ==> !Matches(p.rules[j], req)
    ensures Matches(p.rules[i], req) ==>
              Evaluate(p, req) == Evaluate(PolicyEngine(p.rules[..i + 1] + later, !p.failClosed), req)
              == Decision(true, p.rules[i].approval, p.rules[i].risk)
    ensures !Matches(p.rules[i], req) && i + 1 == |p.rules| ==>
              Evaluate(p, req) == Decision(!p.failClosed, true, High)
  {
    if Matches(p.rules[i], req) {
      FirstMatchIsFirst(p.rules, req, i);
      FirstMatchIsFirst(p.rules[..i + 1] + later, req, i);
    } else if i + 1 == |p.rules| {
      NoMatch(p.rules, req);
    }
  }

  /** A refusal always leaves the human path open. */
  lemma RefusalAsksForApproval(p: PolicyEngine, req: ActionRequest)
    ensures !Evaluate(p, req).allowed ==> Evaluate(p, req).approvalRequired
  {
  }

  /** Policy grants the request without asking anyone: it is not gated, and its first matching
      rule needs no approval. */
  predicate Outright(p: PolicyEngine, req: ActionRequest) {
    && !Gated(req)
    && FirstMatch(p.rules, req).Some?
    && !FirstMatch(p.rules, req).value.approval
  }

  /** That is exactly when the verdict is "allowed" with no approval; the defaults never are. */
  lemma OutrightIff(p: PolicyEngine, req: ActionRequest)
    ensures Evaluate(p, req).allowed && !Evaluate(p, req).approvalRequired <==> Outright(p, req)
  {
  }

  /** Whatever the other rules, the first two shipped ones let a write that claims to change
      nothing pass outright, whoever asks. */
  lemma ShippedWriteIsOutright(others: seq<Rule>, failClosed: bool, trust: Trust)
    ensures var rules := [Rule(Some("read"), Some("workspace"), false, Low),
                          Rule(Some("write"), Some("workspace"), false, Medium)] + others;
            Outright(PolicyEngine(rules, failClosed), ActionRequest("write", "workspace", trust, false, false))
  {
    var rules := [Rule(Some("read"), Some("workspace"), false, Low),
                  Rule(Some("write"), Some("workspace"), false, Medium)] + others;
    FirstMatchIsFirst(rules, ActionRequest("write", "workspace", trust, false, false), 1);
  }

  /** The gate, by its verdict: exactly the requests of the labels that are not trusted which
      change state, use credentials or name a dangerous action are refused as critical, whatever
      the rules are. */
  lemma GateRefusesExactly(p: PolicyEngine, req: ActionRequest)
    ensures Evaluate(p, req) == Decision(false, true, Critical)
            <==> req.trust !in {TrustedUser, TrustedLocal, ExecutionResult, VerifiedResult}
                 && (req.mutatesState || req.usesCredentials || req.action == "execute" || req.action == "credential"
                     || req.action == "delete" || req.action == "network_post")
  {
    match req.trust {
      case TrustedUser => case TrustedLocal => case ExecutionResult => case VerifiedResult =>
      case UntrustedWeb => case UntrustedEmail => case UntrustedDocument =>
      case UntrustedModelOutput => case UntrustedCollaboration =>
    }
  }

  /** Behind the gate, rule by rule: the first rule decides if each of its two conditions is
      absent, names what the request names or, for the scope, is "any"; otherwise the other rules
      decide; and with no rule left the default does, always asking for approval. */
  lemma RulesDecideInTurn(p: PolicyEngine, req: ActionRequest)
    requires Evaluate(p, req) != Decision(false, true, Critical)
    ensures Evaluate(p, req) ==
            if p.rules == [] then Decision(!p.failClosed, true, High)
            else if p.rules[0].action in {None, Some(req.action)}
                    && p.rules[0].scope in {None, Some("any"), Some(req.scope)}
            then Decision(true, p.rules[0].approval, p.rules[0].risk)
            else Evaluate(PolicyEngine(p.rules[1..], p.failClosed), req)
  {
  }
}
