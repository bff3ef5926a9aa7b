/** Compilation of rules into an enforcement artifact (governance/compiler.py). */
module Compiler {
  import opened Text
  import opened Model
  import opened Rules
  import opened Composition
  import opened Inheritance

  datatype CompileError =
    | DuplicateRule | DanglingRole | ContradictoryRules | InvalidDefault | Inheriting(error: InheritanceError)

  datatype Signature = Signature(
    capability: string, minAuthority: int, condition: Option<PredicateSpec>, forbidden: set<string>,
    requiresApproval: Option<string>, requirement: Option<ApprovalRequirement>)

  /** `Rule.semantic_signature`: the conditions without the disposition. */
  function SignatureOf(r: Rule): Signature {
    Signature(r.capability, r.minAuthority, r.condition, r.forbidden, r.requiresApproval, r.requirement)
  }

  predicate RolesKnown(r: Rule, roles: Option<set<string>>) {
    roles.Some? ==>
      && (Truthy(r.requiresApproval) ==> r.requiresApproval.value in roles.value)
      && (r.requirement.Some? ==> forall role :: role in r.requirement.value.roles ==> role in roles.value)
  }

  /** Rules with the same conditions have the same disposition. */
  predicate Consistent(rules: seq<Rule>) {
    forall i, j :: 0 <= i < j < |rules| && SignatureOf(rules[i]) == SignatureOf(rules[j]) ==> rules[i].disposition == rules[j].disposition
  }

  predicate Compilable(rules: seq<Rule>, roles: Option<set<string>>) {
    && DistinctIds(rules) && Consistent(rules)
    && forall i :: 0 <= i < |rules| ==> RolesKnown(rules[i], roles)
  }

  /** What the loop of `_validate_rules` has seen: the last rule of each signature. */
  ghost predicate Seen(seen: map<Signature, Rule>, rules: seq<Rule>) {
    && (forall i :: 0 <= i < |rules| ==> SignatureOf(rules[i]) in seen && seen[SignatureOf(rules[i])].disposition == rules[i].disposition)
    && (forall s :: s in seen ==> exists i :: 0 <= i < |rules| && rules[i] == seen[s] && SignatureOf(rules[i]) == s)
  }

  lemma SeeNext(seen: map<Signature, Rule>, rules: seq<Rule>, next: Rule)
    requires Seen(seen, rules)
    ensures SignatureOf(next) in seen && seen[SignatureOf(next)].disposition != next.disposition ==> !Consistent(rules + [next])
    ensures SignatureOf(next) !in seen || seen[SignatureOf(next)].disposition == next.disposition ==>
              Seen(seen[SignatureOf(next) := next], rules + [next]) && (Consistent(rules) ==> Consistent(rules + [next]))
  {
    var all := rules + [next];
    if SignatureOf(next) in seen {
      var i :| 0 <= i < |rules| && rules[i] == seen[SignatureOf(next)] && SignatureOf(rules[i]) == SignatureOf(next);
      assert all[i] == rules[i] && all[|rules|] == next;
    }
    if SignatureOf(next) !in seen || seen[SignatureOf(next)].disposition == next.disposition {
      var after := seen[SignatureOf(next) := next];
      forall s | s in after ensures exists i :: 0 <= i < |all| && all[i] == after[s] && SignatureOf(all[i]) == s {
        if s == SignatureOf(next) {
          assert all[|rules|] == next;
        } else {
          var i :| 0 <= i < |rules| && rules[i] == seen[s] && SignatureOf(rules[i]) == s;
          assert all[i] == rules[i];
        }
      }
    }
  }

  lemma PrefixesCompile(rules: seq<Rule>, k: nat, roles: Option<set<string>>)
    requires k <= |rules| && Compilable(rules, roles)
    ensures Compilable(rules[..k], roles)
  {
    assert forall i :: 0 <= i < k ==> rules[..k][i] == rules[i];
  }

  ghost predicate Scanned(rules: seq<Rule>, seen: map<Signature, Rule>, ids: set<string>, roles: Option<set<string>>) {
    Compilable(rules, roles) && Seen(seen, rules) && ids == IdSet(rules)
  }

  lemma IdsGrow(rules: seq<Rule>, next: Rule)
    requires DistinctIds(rules)
    ensures IdSet(rules + [next]) == IdSet(rules) + {next.id}
    ensures DistinctIds(rules + [next]) <==> next.id !in IdSet(rules)
  {
    var all := rules + [next];
    forall x | x in IdSet(rules) ensures x in IdSet(all) {
      var i :| 0 <= i < |rules| && rules[i].id == x;
      assert all[i].id == x;
    }
    assert all[|rules|].id == next.id;
    if next.id in IdSet(rules) {
      var i :| 0 <= i < |rules| && rules[i].id == next.id;
      assert all[i].id == all[|rules|].id;
    } else {
      forall i | 0 <= i < |rules| ensures rules[i].id != next.id { assert rules[i].id in IdSet(rules); }
    }
  }

  lemma ScanNext(rules: seq<Rule>, next: Rule, seen: map<Signature, Rule>, ids: set<string>, roles: Option<set<string>>)
    requires Scanned(rules, seen, ids, roles)
    ensures var signature := SignatureOf(next);
            if next.id in ids || !RolesKnown(next, roles) || (signature in seen && seen[signature].disposition != next.disposition)
            then !Compilable(rules + [next], roles)
            else Scanned(rules + [next], seen[signature := next], ids + {next.id}, roles)
  {
    hide RolesKnown, SignatureOf;
    IdsGrow(rules, next);
    SeeNext(seen, rules, next);
    assert (rules + [next])[|rules|] == next;
    hide Seen, DistinctIds, Consistent;
    assert forall i :: 0 <= i < |rules| ==> (rules + [next])[i] == rules[i];
  }

  /** What is wrong with the next rule. */
  ghost predicate IsRuleFault(before: seq<Rule>, rule: Rule, roles: Option<set<string>>, e: CompileError) {
    if rule.id in IdSet(before) then e == DuplicateRule
    else if !RolesKnown(rule, roles) then e == DanglingRole
    else e == ContradictoryRules && !Consistent(before + [rule])
  }

  /** `_validate_rules`: accepted exactly when ids are distinct, roles are known, and
      no two rules with the same conditions disagree; otherwise the first fault. */
  method ValidateRules(rules: seq<Rule>, roles: Option<set<string>>) returns (error: Option<CompileError>)
    ensures error.None? <==> Compilable(rules, roles)
    ensures error.Some? ==> exists k :: 0 <= k < |rules| && Compilable(rules[..k], roles) && IsRuleFault(rules[..k], rules[k], roles, error.value)
  {
    var seen: map<Signature, Rule> := map[];
    var ids: set<string> := {};
    assert Scanned([], seen, ids, roles);
    hide Scanned, Compilable, RolesKnown, SignatureOf;
    for k := 0 to |rules|
      invariant Scanned(rules[..k], seen, ids, roles)
    {
      var rule := rules[k];
      assert rules[..k + 1] == rules[..k] + [rule];
      if Compilable(rules, roles) { PrefixesCompile(rules, k + 1, roles); }
      ScanNext(rules[..k], rule, seen, ids, roles);
      if rule.id in ids { return Some(DuplicateRule); }
      ids := ids + {rule.id};
      if !RolesKnown(rule, roles) { return Some(DanglingRole); }
      var signature := SignatureOf(rule);
      if signature in seen && seen[signature].disposition != rule.disposition { return Some(ContradictoryRules); }
      seen := seen[signature := rule];
    }
    assert rules[..|rules|] == rules;
    ScannedCompiles(rules, seen, ids, roles);
    return None;
  }

  lemma ScannedCompiles(rules: seq<Rule>, seen: map<Signature, Rule>, ids: set<string>, roles: Option<set<string>>)
    requires Scanned(rules, seen, ids, roles)
    ensures Compilable(rules, roles)
  {}

  datatype CompiledPolicy = CompiledPolicy(rules: seq<Rule>, roles: set<string>, default: DecisionKind)

  /** What `compile_policy` promises of its artifact. */
  ghost predicate Enforceable(p: CompiledPolicy, roles: Option<set<string>>) {
    && Compilable(p.rules, roles) && LinksOk(ById(p.rules)) && AcyclicLinks(ById(p.rules)) && !p.default.Escalate?
  }

  /** Beside inherited parents a child's own parent must be one of them, which it tightens. */
  predicate Inheritable(parents: seq<Rule>, rules: seq<Rule>) {
    parents != [] ==> forall i :: 0 <= i < |rules| ==> Joins(ById(parents), rules[i])
  }

  ghost predicate SoundLinks(rules: seq<Rule>) { LinksOk(ById(rules)) && AcyclicLinks(ById(rules)) }

  /** Why a policy is not compiled: the checks in their order. */
  ghost predicate Rejects(rules: seq<Rule>, roles: Option<set<string>>, parents: seq<Rule>, default: DecisionKind, e: CompileError) {
    var all := parents + rules;
    if default.Escalate? then e == InvalidDefault
    else if parents != [] && !JoinInTurn(parents, rules) then
      && e.Inheriting?
      && exists k :: 0 <= k < |rules| && JoinInTurn(parents, rules[..k]) && IsJoinFault(parents, rules[..k], rules[k], e.error)
    else if !SoundLinks(all) then e.Inheriting? && Explains(ById(all), e.error)
    else exists k :: 0 <= k < |all| && Compilable(all[..k], roles) && IsRuleFault(all[..k], all[k], roles, e)
  }

  /** `compile_policy` on parsed rules. */
  method CompilePolicy(rules: seq<Rule>, roles: Option<set<string>>, parents: seq<Rule>, default: DecisionKind)
    returns (res: Result<CompiledPolicy, CompileError>)
    ensures res.Ok? <==> Enforceable(CompiledPolicy(parents + rules, {}, default), roles) && Inheritable(parents, rules)
    ensures res.Ok? ==> Enforceable(res.value, roles) && res.value.rules == parents + rules && res.value.default == default
    ensures res.Err? ==> Rejects(rules, roles, parents, default, res.error)
  {
    if default.Escalate? { return Err(InvalidDefault); }
    var all := rules;
    assert parents == [] ==> parents + rules == rules;
    InheritableJoins(parents, rules);
    hide JoinInTurn, Inheritable;
    if parents != [] {
      var inherited := InheritRules(parents, rules);
      if inherited.Err? { return Err(Inheriting(inherited.error)); }
      all := inherited.value;
    }
    hide ById, LinksOk, AcyclicLinks, Compilable, Joins, IsJoinFault, IsRuleFault, Explains;
    var fault := ValidateInheritanceGraph(all);
    if fault.Some? { return Err(Inheriting(fault.value)); }
    var error := ValidateRules(all, roles);
    if error.Some? { return Err(error.value); }
    return Ok(CompiledPolicy(all, if roles.Some? then roles.value else {}, default));
  }

  lemma InheritableJoins(parents: seq<Rule>, rules: seq<Rule>)
    ensures JoinInTurn(parents, rules) || parents == [] ==> Inheritable(parents, rules)
    ensures DistinctIds(parents + rules) && Inheritable(parents, rules) && parents != [] ==> JoinInTurn(parents, rules)
  {
    hide Joins, ById, IdSet;
    if DistinctIds(parents + rules) { TogetherDistinct(parents, rules); }
  }

  lemma TogetherDistinct(parents: seq<Rule>, children: seq<Rule>)
    requires DistinctIds(parents + children)
    ensures DistinctIds(children) && forall i :: 0 <= i < |children| ==> children[i].id !in IdSet(parents)
  {
    var all := parents + children;
    forall i, j | 0 <= i < j < |children| ensures children[i].id != children[j].id {
      assert all[|parents| + i] == children[i] && all[|parents| + j] == children[j];
    }
    forall i, j | 0 <= i < |children| && 0 <= j < |parents| ensures parents[j].id != children[i].id {
      assert all[|parents| + i] == children[i] && all[j] == parents[j];
    }
  }

  /** `CompiledPolicy.evaluate`. */
  function EvaluatePolicy(p: CompiledPolicy, a: Action, c: Context, proof: Option<Proof>): Decision {
    var d := EvaluateRules(p.rules, a, c, proof);
    if d.kind.Allow? && d.matchedRules == [] && p.default.Block? then Blocked("no applicable rule; default-deny policy", [], "", [])
    else d
  }

  /** The order of its rules does not matter to a compiled policy. */
  lemma PolicyIsOrderFree(p: CompiledPolicy, q: CompiledPolicy, roles: Option<set<string>>, a: Action, c: Context, proof: Option<Proof>)
    requires Enforceable(p, roles) && q.default == p.default && multiset(q.rules) == multiset(p.rules) && DistinctIds(q.rules)
    ensures EvaluatePolicy(p, a, c, proof) == EvaluatePolicy(q, a, c, proof)
  {
    ResolutionIsOrderFree(p.rules, q.rules, a, c, proof);
  }

  predicate AnyApplies(rules: seq<Rule>, a: Action) { exists r :: r in rules && Applies(r, a) }

  lemma NoneMatched(rules: seq<Rule>, a: Action, c: Context, proof: Option<Proof>)
    requires DistinctIds(rules)
    ensures EvaluateRules(rules, a, c, proof).matchedRules == [] <==> !AnyApplies(rules, a)
  {
    ResolutionIsExact(rules, a, c, proof);
    hide EvaluateRules;
    var d := EvaluateRules(rules, a, c, proof);
    assert d.matchedRules != [] ==> d.matchedRules[0] in d.matchedRules;
    if AnyApplies(rules, a) {
      var r :| r in rules && Applies(r, a);
      assert r.id in d.matchedRules;
    }
  }

  /** Adding rules to a policy never lowers the severity, exactly unless the policy
      blocks by default for want of an applicable rule and some added rule applies
      while none of them blocks. */
  lemma AddedRulesLoosenExactly(p: CompiledPolicy, more: seq<Rule>, a: Action, c: Context, proof: Option<Proof>)
    requires DistinctIds(p.rules + more)
    ensures var q := p.(rules := p.rules + more);
            var refused := proof.Some? && !proof.value.allowed;
            Severity(EvaluatePolicy(p, a, c, proof).kind) <= Severity(EvaluatePolicy(q, a, c, proof).kind)
            <==> !(&& p.default.Block? && !refused && !AnyApplies(p.rules, a) && AnyApplies(more, a)
                   && forall r :: Breaks(more, a, c, r) ==> r.disposition.EscalateIt?)
  {
    var all := p.rules + more;
    assert DistinctIds(p.rules) by {
      forall i, j | 0 <= i < j < |p.rules| ensures p.rules[i].id != p.rules[j].id { assert all[i].id != all[j].id; }
    }
    MoreRulesNeverLoosen(p.rules, more, a, c, proof);
    NoneMatched(p.rules, a, c, proof);
    NoneMatched(all, a, c, proof);
    ResolutionIsExact(p.rules, a, c, proof);
    ResolutionIsExact(all, a, c, proof);
    assert AnyApplies(all, a) <==> AnyApplies(p.rules, a) || AnyApplies(more, a) by { EitherApplies(p.rules, more, a); }
    if !AnyApplies(p.rules, a) {
      forall r ensures Breaks(all, a, c, r) <==> Breaks(more, a, c, r) { NoBreak(p.rules, a, c, r); }
    }
  }

  lemma EitherApplies(rules: seq<Rule>, more: seq<Rule>, a: Action)
    ensures AnyApplies(rules + more, a) <==> AnyApplies(rules, a) || AnyApplies(more, a)
  {
    if AnyApplies(rules, a) {
      var r :| r in rules && Applies(r, a);
      assert r in rules + more;
    }
    if AnyApplies(more, a) {
      var r :| r in more && Applies(r, a);
      assert r in rules + more;
    }
  }

  lemma NoBreak(rules: seq<Rule>, a: Action, c: Context, r: Rule)
    requires !AnyApplies(rules, a)
    ensures !Breaks(rules, a, c, r)
  {}

  lemma SatisfiedAlone(rule: Rule, a: Action, c: Context)
    requires Evaluate(rule, a, c).Satisfied?
    ensures EvaluateRules([rule], a, c, None).kind.Allow? && EvaluateRules([rule], a, c, None).matchedRules != []
  {
    ResolutionIsExact([rule], a, c, None);
    assert Applies(rule, a) && rule in [rule];
    NoneMatched([rule], a, c, None);
    hide EvaluateRules;
    assert forall r :: Breaks([rule], a, c, r) ==> r == rule;
  }

  /** Such a policy: with no rule it blocks everything, with one satisfied rule it does not. */
  lemma DefaultBlockMayLoosen() returns (p: CompiledPolicy, more: seq<Rule>, a: Action, c: Context)
    ensures DistinctIds(p.rules + more) && EvaluatePolicy(p, a, c, None).kind.Block?
    ensures EvaluatePolicy(p.(rules := p.rules + more), a, c, None).kind.Allow?
  {
    var rule := Rule("LAW-1", "pay", 0, BlockIt, None, None, None, {}, None);
    p, more := CompiledPolicy([], {}, Block), [rule];
    a, c := Action("x", 0, "agent", "pay", map[]), Context(0.0, [], 0.0);
    assert Evaluate(rule, a, c).Satisfied?;
    SatisfiedAlone(rule, a, c);
    assert p.rules + more == [rule];
  }
}
