/** Rules and decisions in plain terms: which value a condition reads, how it compares,
    and what a set of rules decides, said of the fields of rules, actions and contexts
    (governance/rule.py, governance/parser.py, governance/composition.py). */
module PlainRules {
  import opened Text
  import opened Model
  import opened Capabilities
  import opened Rules
  import opened Composition

  /** `v` is what a condition on `field` reads: a parameter of that name if there is one,
      otherwise the part of the context or of the actor that the name stands for. */
  ghost predicate Reads(field: string, a: Action, c: Context, v: Value) {
    if field in a.params then v == a.params[field] && v != Nothing
    else
      || (field in {"budget_used", "context.budget_used"} && v == Number(c.budgetUsed))
      || (field in {"now", "context.now"} && v == Number(c.now))
      || (field in {"prior_approvals_count", "context.prior_approvals_count"} && v == Number(|c.priorApprovals| as real))
      || (field in {"actor.class", "actor.cls"} && v == Words(a.cls))
      || (field == "actor.authority_level" && v == Number(a.authority as real))
      || (field == "actor.id" && v == Words(a.actor))
  }

  /** The comparisons: of numbers by size, of words in the order of their characters, and
      of different kinds not at all. */
  predicate Stands(v: Value, op: Comparison, t: Value) {
    match (v, t)
    case (Number(x), Number(y)) =>
      (match op case Le => x <= y case Ge => x >= y case Lt => x < y case Gt => x > y case Eq => x == y case Ne => x != y)
    case (Words(x), Words(y)) =>
      (match op
       case Le => x == y || Before(x, y)
       case Ge => x == y || Before(y, x)
       case Lt => Before(x, y)
       case Gt => Before(y, x)
       case Eq => x == y
       case Ne => x != y)
    case _ =>
      (match op case Eq => v == t case Ne => v != t case _ => false)
  }

  lemma StandsCompares(v: Value, op: Comparison, t: Value)
    ensures Stands(v, op, t) <==> Compares(v, op, t)
  {
    if v.Words? && t.Words? { BeforeIsStrict(v.s, t.s); }
  }

  lemma ReadsFieldValue(field: string, a: Action, c: Context, v: Value)
    ensures Reads(field, a, c, v) <==> v == FieldValue(field, a, c) && v != Nothing
  {}

  ghost predicate Confirms(p: PredicateSpec, a: Action, c: Context) {
    exists v :: Reads(p.field, a, c, v) && Stands(v, p.op, p.threshold)
  }

  /** Enough of the roles of a quorum approved, or the one role that is asked did. */
  ghost predicate Endorsed(r: Rule, prior: seq<string>) {
    match r.requirement
    case Some(q) => |set role | role in q.roles && role in prior| >= q.threshold
    case None => r.requiresApproval.Some? && r.requiresApproval.value != "" ==> r.requiresApproval.value in prior
  }

  predicate Concerns(r: Rule, a: Action) { Segments(r.capability) <= Segments(a.capability) }

  /** What a rule asks of an action in its scope. */
  ghost predicate Content(r: Rule, a: Action, c: Context) {
    && a.authority >= r.minAuthority && a.cls !in r.forbidden
    && (r.condition.Some? ==> Confirms(r.condition.value, a, c))
    && Endorsed(r, c.priorApprovals)
  }

  ghost predicate Offends(r: Rule, a: Action, c: Context) { Concerns(r, a) && !Content(r, a, c) }

  lemma ConfirmsHolds(p: PredicateSpec, a: Action, c: Context)
    ensures Confirms(p, a, c) <==> Holds(p, a, c)
  {
    var v := FieldValue(p.field, a, c);
    ReadsFieldValue(p.field, a, c, v);
    StandsCompares(v, p.op, p.threshold);
    hide Stands, Compares, FieldValue, Reads;
    if w :| Reads(p.field, a, c, w) && Stands(w, p.op, p.threshold) { ReadsFieldValue(p.field, a, c, w); }
  }

  lemma EndorsedIsApproved(r: Rule, prior: seq<string>)
    ensures Endorsed(r, prior) <==> ApprovalMet(r, prior)
  {
    if r.requirement.Some? {
      var q := r.requirement.value;
      ApprovalsCount(q.roles, prior);
      assert (set role | role in q.roles && role in prior) == Among(q.roles, prior);
    }
  }

  /** The result of a rule on an action. */
  lemma RuleInPlainTerms(r: Rule, a: Action, c: Context)
    ensures Evaluate(r, a, c) == if !Concerns(r, a) then NotApplicable else if Content(r, a, c) then Satisfied else Violated
  {
    DescentBySegments(a.capability, r.capability);
    EndorsedIsApproved(r, c.priorApprovals);
    if r.condition.Some? { ConfirmsHolds(r.condition.value, a, c); }
    hide Segments, Descends, Confirms, Holds, Endorsed, ApprovalMet;
  }

  // --------------------------------------------------------------- decisions

  /** The rules' ids, of those in scope, each before the next. */
  ghost predicate IsMatched(matched: seq<string>, rules: seq<Rule>, a: Action) {
    && (forall i, j :: 0 <= i < j < |matched| ==> Before(matched[i], matched[j]))
    && (forall id :: id in matched <==> exists r :: r in rules && r.id == id && Concerns(r, a))
  }

  /** The first by id of the offending rules of a disposition. */
  ghost predicate Decides(r: Rule, rules: seq<Rule>, a: Action, c: Context) {
    && r in rules && Offends(r, a, c)
    && forall q :: q in rules && Offends(q, a, c) && q.disposition == r.disposition && q.id != r.id ==> Before(r.id, q.id)
  }

  ghost predicate SomeBlocks(rules: seq<Rule>, a: Action, c: Context) {
    exists r :: r in rules && Offends(r, a, c) && r.disposition.BlockIt?
  }

  ghost predicate SomeOffends(rules: seq<Rule>, a: Action, c: Context) { exists r :: r in rules && Offends(r, a, c) }

  /** Whom an escalation by this rule asks. */
  function Asked(r: Rule): string {
    match r.requirement
    case Some(q) => "quorum(" + Decimal(q.threshold) + "/" + Decimal(|q.roles|) + ")"
    case None =>
      if r.requiresApproval.Some? && |r.requiresApproval.value| > 0 then r.requiresApproval.value else "human-reviewer"
  }

  /** The whole record of a decision. */
  ghost predicate Recorded(d: Decision, kind: DecisionKind, role: Option<string>, reason: string, proof: Option<Proof>,
                           roles: seq<string>, threshold: int) {
    && d.kind == kind && d.role == role && d.reason == reason && d.approvalRoles == roles && d.approvalThreshold == threshold
    && (match proof
        case Some(p) => d.authoritySource == p.source && d.authorityPath == p.path
        case None => d.authoritySource == "" && d.authorityPath == [])
  }

  lemma OffendsIsBreaking(rules: seq<Rule>, a: Action, c: Context, r: Rule)
    ensures r in rules && Offends(r, a, c) <==> Breaks(rules, a, c, r)
  {
    RuleInPlainTerms(r, a, c);
    hide Evaluate, Concerns, Content;
  }

  lemma AppliesIsConcern(r: Rule, a: Action)
    ensures Applies(r, a) <==> Concerns(r, a)
  {
    DescentBySegments(a.capability, r.capability);
    hide Segments, Descends;
  }

  ghost predicate Decider(rules: seq<Rule>, a: Action, c: Context, r: Rule) {
    Breaks(rules, a, c, r) && forall q :: Breaks(rules, a, c, q) && q.disposition == r.disposition ==> NotAfter(r.id, q.id)
  }

  /** What `EvaluateRules` finds before it decides. */
  lemma Findings(rules: seq<Rule>, a: Action, c: Context)
    requires DistinctIds(rules)
    ensures var applicable := Applicable(SortById(rules), a);
            var violated := ViolatedAmong(applicable, applicable, a, c);
            var blocking := Blocking(violated);
            && (blocking != [] ==> Decider(rules, a, c, LeastById(blocking)) && LeastById(blocking).disposition.BlockIt?)
            && (blocking == [] && violated != [] ==> Decider(rules, a, c, LeastById(violated)) && LeastById(violated).disposition.EscalateIt?)
  {
    var sorted := SortById(rules);
    SortAscends(rules);
    SortPermutes(rules);
    forall r ensures r in sorted <==> r in rules { assert r in multiset(sorted) <==> r in multiset(rules); }
    ApplicableIsExact(sorted, a);
    var applicable := Applicable(sorted, a);
    ViolatedIsExact(applicable, applicable, a, c);
    var violated := ViolatedAmong(applicable, applicable, a, c);
    BlockingIsExact(violated);
    var blocking := Blocking(violated);
    hide SortById, Applicable, ViolatedAmong, Blocking, LeastById, Evaluate;
    forall r ensures r in violated <==> Breaks(rules, a, c, r) {}
    if blocking != [] { LeastIsLeast(blocking); } else if violated != [] { LeastIsLeast(violated); }
  }

  lemma AskedIsReviewed(r: Rule)
    ensures Asked(r) == ReviewRole(r)
  {
    hide Decimal;
    if r.requirement.Some? {
      var q := r.requirement.value;
      assert "quorum(" + Decimal(q.threshold) + "/" + Decimal(|q.roles|) + ")" == Label(q);
    }
  }

  lemma EscalationRecords(r: Rule, matched: seq<string>, proof: Option<Proof>)
    ensures var source, path := if proof.Some? then proof.value.source else "", if proof.Some? then proof.value.path else [];
            Recorded(Escalated(r, matched, source, path), Escalate, Some(Asked(r)), "escalated by " + r.id + " to " + Asked(r), proof,
                     if r.requirement.Some? then r.requirement.value.roles else [],
                     if r.requirement.Some? then r.requirement.value.threshold else 0)
  {
    AskedIsReviewed(r);
    hide Asked, ReviewRole;
  }

  lemma OutcomeRecords(matched: seq<string>, reason: string, proof: Option<Proof>)
    ensures var source, path := if proof.Some? then proof.value.source else "", if proof.Some? then proof.value.path else [];
            && Recorded(Blocked(reason, matched, source, path), Block, None, reason, proof, [], 0)
            && Recorded(Allowed(reason, matched, source, path), Allow, None, reason, proof, [], 0)
  {}

  /** A decision, whole: who is matched, which rule decides, and what is recorded. */
  lemma DecisionInPlainTerms(rules: seq<Rule>, a: Action, c: Context, proof: Option<Proof>)
    requires DistinctIds(rules)
    ensures var d := EvaluateRules(rules, a, c, proof);
            && IsMatched(d.matchedRules, rules, a)
            && (if proof.Some? && !proof.value.allowed then
                  Recorded(d, Block, None, "delegated authority is missing, expired, or revoked", proof, [], 0)
                else if !SomeOffends(rules, a, c) then
                  Recorded(d, Allow, None, if d.matchedRules == [] then "no applicable rules" else "all applicable rules satisfied", proof, [], 0)
                else if SomeBlocks(rules, a, c) then
                  exists r :: Decides(r, rules, a, c) && r.disposition.BlockIt? && Recorded(d, Block, None, "blocked by " + r.id, proof, [], 0)
                else
                  exists r :: Decides(r, rules, a, c) && r.disposition.EscalateIt?
                    && Recorded(d, Escalate, Some(Asked(r)), "escalated by " + r.id + " to " + Asked(r), proof,
                                if r.requirement.Some? then r.requirement.value.roles else [],
                                if r.requirement.Some? then r.requirement.value.threshold else 0))
  {
    var applicable := Applicable(SortById(rules), a);
    var violated := ViolatedAmong(applicable, applicable, a, c);
    var blocking := Blocking(violated);
    Findings(rules, a, c);
    MatchesExactly(rules, a, c, proof);
    OffendersFound(rules, a, c);
    hide SortById, Applicable, ViolatedAmong, Blocking, LeastById, Decider, SomeOffends, SomeBlocks, Decides, Asked, ReviewRole, IsMatched, Ids;
    hide Recorded, Escalated, Blocked, Allowed;
    var matched := Ids(applicable);
    NothingMatched(applicable);
    if proof.Some? && !proof.value.allowed {
      OutcomeRecords(matched, "delegated authority is missing, expired, or revoked", proof);
    } else if violated == [] {
      OutcomeRecords(matched, if matched == [] then "no applicable rules" else "all applicable rules satisfied", proof);
    } else if blocking != [] {
      DeciderDecides(rules, a, c, LeastById(blocking));
      OutcomeRecords(matched, "blocked by " + LeastById(blocking).id, proof);
    } else {
      DeciderDecides(rules, a, c, LeastById(violated));
      EscalationRecords(LeastById(violated), matched, proof);
    }
  }

  lemma NothingMatched(applicable: seq<Rule>)
    ensures Ids(applicable) == [] <==> applicable == []
  {
    assert |Ids(applicable)| == |applicable|;
  }

  lemma DeciderDecides(rules: seq<Rule>, a: Action, c: Context, r: Rule)
    requires Decider(rules, a, c, r)
    ensures Decides(r, rules, a, c)
  {
    hide Evaluate, Offends;
    forall q { OffendsIsBreaking(rules, a, c, q); }
  }

  lemma OffendersFound(rules: seq<Rule>, a: Action, c: Context)
    requires DistinctIds(rules)
    ensures var applicable := Applicable(SortById(rules), a);
            var violated := ViolatedAmong(applicable, applicable, a, c);
            && (SomeOffends(rules, a, c) <==> violated != [])
            && (SomeBlocks(rules, a, c) <==> Blocking(violated) != [])
  {
    var sorted := SortById(rules);
    SortAscends(rules);
    SortPermutes(rules);
    forall r ensures r in sorted <==> r in rules { assert r in multiset(sorted) <==> r in multiset(rules); }
    ApplicableIsExact(sorted, a);
    var applicable := Applicable(sorted, a);
    ViolatedIsExact(applicable, applicable, a, c);
    var violated := ViolatedAmong(applicable, applicable, a, c);
    BlockingIsExact(violated);
    hide SortById, Applicable, ViolatedAmong, Blocking, Evaluate, Offends;
    forall r { OffendsIsBreaking(rules, a, c, r); }
    forall r ensures r in violated <==> Breaks(rules, a, c, r) {}
    if violated != [] { assert violated[0] in violated; }
    if Blocking(violated) != [] { assert Blocking(violated)[0] in Blocking(violated); }
  }

  lemma MatchesExactly(rules: seq<Rule>, a: Action, c: Context, proof: Option<Proof>)
    requires DistinctIds(rules)
    ensures IsMatched(EvaluateRules(rules, a, c, proof).matchedRules, rules, a)
  {
    ResolutionIsExact(rules, a, c, proof);
    hide EvaluateRules, Applies, Concerns;
    forall r { AppliesIsConcern(r, a); }
  }
}
