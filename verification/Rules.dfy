/** Single rules: their conditions and their result on an action
    (governance/rule.py, governance/model.py, and the predicates of governance/parser.py). */
module Rules {
  import opened Text
  import opened Model
  import opened Capabilities

  /** A field of an action or of its context; `Other` compares with nothing but itself. */
  datatype Value = Nothing | Number(r: real) | Words(s: string) | Other(tag: string)

  datatype Comparison = Le | Ge | Lt | Gt | Eq | Ne

  datatype PredicateSpec = PredicateSpec(field: string, op: Comparison, threshold: Value)

  datatype Quorum = Quorum(roles: seq<string>, threshold: int)

  /** The checks of `ApprovalRequirement.__post_init__`. */
  predicate IsQuorum(q: Quorum) {
    q.roles != [] && (forall i :: 0 <= i < |q.roles| ==> q.roles[i] != "") && Distinct(q.roles) && 1 <= q.threshold <= |q.roles|
  }

  type ApprovalRequirement = q: Quorum | IsQuorum(q) witness Quorum(["reviewer"], 1)

  datatype Disposition = BlockIt | EscalateIt

  datatype Rule = Rule(
    id: string, capability: string, minAuthority: int, disposition: Disposition,
    requiresApproval: Option<string>, requirement: Option<ApprovalRequirement>,
    condition: Option<PredicateSpec>, forbidden: set<string>, parent: Option<string>)

  datatype Action = Action(actor: string, authority: int, cls: string, capability: string, params: map<string, Value>)

  datatype Context = Context(budgetUsed: real, priorApprovals: seq<string>, now: real)

  datatype Outcome = Satisfied | Violated | NotApplicable

  // -------------------------------------------------------------- predicates

  /** `_field_value`: a parameter hides the field of the same name. */
  function FieldValue(field: string, a: Action, c: Context): Value {
    if field in a.params then a.params[field]
    else if field == "budget_used" || field == "context.budget_used" then Number(c.budgetUsed)
    else if field == "now" || field == "context.now" then Number(c.now)
    else if field == "prior_approvals_count" || field == "context.prior_approvals_count" then Number(|c.priorApprovals| as real)
    else if field == "actor.class" || field == "actor.cls" then Words(a.cls)
    else if field == "actor.authority_level" then Number(a.authority as real)
    else if field == "actor.id" then Words(a.actor)
    else Nothing
  }

  predicate Ordered(op: Comparison, less: bool, equal: bool) {
    match op
    case Le => less || equal
    case Ge => !less
    case Lt => less
    case Gt => !less && !equal
    case Eq => equal
    case Ne => !equal
  }

  /** `op(value, threshold)`; values of different kinds are unequal and unordered. */
  predicate Compares(value: Value, op: Comparison, threshold: Value) {
    if value.Number? && threshold.Number? then Ordered(op, value.r < threshold.r, value.r == threshold.r)
    else if value.Words? && threshold.Words? then Ordered(op, Before(value.s, threshold.s), value.s == threshold.s)
    else (op.Eq? && value == threshold) || (op.Ne? && value != threshold)
  }

  /** The predicate that `_make_predicate` builds. */
  predicate Holds(p: PredicateSpec, a: Action, c: Context) {
    var value := FieldValue(p.field, a, c);
    !value.Nothing? && Compares(value, p.op, p.threshold)
  }

  // --------------------------------------------------------------- evaluation

  predicate Applies(r: Rule, a: Action) { Descends(a.capability, r.capability) }

  function Approvals(roles: seq<string>, prior: seq<string>): nat {
    if roles == [] then 0 else Approvals(roles[..|roles| - 1], prior) + if roles[|roles| - 1] in prior then 1 else 0
  }

  predicate ApprovalMet(r: Rule, prior: seq<string>) {
    if r.requirement.Some? then Approvals(r.requirement.value.roles, prior) >= r.requirement.value.threshold
    else Truthy(r.requiresApproval) ==> r.requiresApproval.value in prior
  }

  /** `Rule.evaluate`. */
  function Evaluate(r: Rule, a: Action, c: Context): Outcome {
    if !Applies(r, a) then NotApplicable
    else if a.authority < r.minAuthority then Violated
    else if a.cls in r.forbidden then Violated
    else if r.condition.Some? && !Holds(r.condition.value, a, c) then Violated
    else if !ApprovalMet(r, c.priorApprovals) then Violated
    else Satisfied
  }

  /** The scope, authority, class and predicate conditions, without approval. */
  predicate Meets(r: Rule, a: Action, c: Context) {
    && Applies(r, a) && a.authority >= r.minAuthority && a.cls !in r.forbidden
    && (r.condition.Some? ==> Holds(r.condition.value, a, c))
  }

  lemma SatisfactionSplits(r: Rule, a: Action, c: Context)
    ensures Evaluate(r, a, c).Satisfied? <==> Meets(r, a, c) && ApprovalMet(r, c.priorApprovals)
  {}

  function Among(roles: seq<string>, prior: seq<string>): set<string> { set x | x in roles && x in prior }

  /** How many of a quorum's roles approved. */
  lemma {:induction false} ApprovalsCount(roles: seq<string>, prior: seq<string>)
    requires Distinct(roles)
    ensures Approvals(roles, prior) == |Among(roles, prior)|
  {
    if roles == [] {
      assert Among(roles, prior) == {};
    } else {
      var front, last := roles[..|roles| - 1], roles[|roles| - 1];
      ApprovalsCount(front, prior);
      LastAmong(front, last, prior);
      assert roles == front + [last];
    }
  }

  lemma LastAmong(front: seq<string>, last: string, prior: seq<string>)
    requires Distinct(front + [last])
    ensures last !in front
    ensures Among(front + [last], prior) == if last in prior then Among(front, prior) + {last} else Among(front, prior)
  {
    forall i | 0 <= i < |front| ensures front[i] != last { assert (front + [last])[i] != (front + [last])[|front|]; }
  }
}
