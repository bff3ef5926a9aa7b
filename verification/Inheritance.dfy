/** Parent and child rules (governance/composition.py): the static tightening check
    and what it means for actions. */
module Inheritance {
  import opened Text
  import opened Model
  import opened Capabilities
  import opened Rules
  import opened Composition

  // -------------------------------------------------------------- the check

  /** `_predicate_is_at_least_as_restrictive`; thresholds that Python cannot order
      raise, which accepts nothing. */
  predicate AtLeastAsRestrictive(parent: Option<PredicateSpec>, child: Option<PredicateSpec>) {
    if parent.None? then true
    else if child.None? || parent.value.field != child.value.field || parent.value.op != child.value.op then false
    else
      var p, c := parent.value.threshold, child.value.threshold;
      match parent.value.op
      case Le | Lt => Compares(c, Le, p)
      case Ge | Gt => Compares(c, Ge, p)
      case Eq | Ne => c == p
  }

  datatype Weakening =
    | WrongParent | WidensCapability | LowersAuthority | RemovesClass | RemovesApproval | WeakensQuorum
    | SoftensDisposition | WeakensPredicate

  predicate QuorumKept(parent: Quorum, child: Option<ApprovalRequirement>) {
    && child.Some? && child.value.threshold >= parent.threshold
    && forall role :: role in parent.roles ==> role in child.value.roles
  }

  /** `validate_inheritance`: the first condition that fails. */
  function Weakens(parent: Rule, child: Rule): Option<Weakening> {
    if child.parent != Some(parent.id) then Some(WrongParent)
    else if !Descends(child.capability, parent.capability) then Some(WidensCapability)
    else if child.minAuthority < parent.minAuthority then Some(LowersAuthority)
    else if !(parent.forbidden <= child.forbidden) then Some(RemovesClass)
    else if Truthy(parent.requiresApproval) && !Truthy(child.requiresApproval) then Some(RemovesApproval)
    else if parent.requirement.Some? && !QuorumKept(parent.requirement.value, child.requirement) then Some(WeakensQuorum)
    else if parent.disposition.BlockIt? && child.disposition.EscalateIt? then Some(SoftensDisposition)
    else if !AtLeastAsRestrictive(parent.condition, child.condition) then Some(WeakensPredicate)
    else None
  }

  // ------------------------------------------------------ semantic tightening

  lemma OrderIsTransitive(op: Comparison, value: Value, child: Value, parent: Value)
    requires Compares(value, op, child)
    requires match op case Le | Lt => Compares(child, Le, parent) case Ge | Gt => Compares(child, Ge, parent) case Eq | Ne => child == parent
    ensures Compares(value, op, parent)
  {
    if value.Words? && child.Words? && parent.Words? && !op.Eq? && !op.Ne? {
      BeforeIsStrict(value.s, child.s);
      BeforeIsStrict(child.s, parent.s);
      BeforeIsStrict(value.s, parent.s);
      if Before(value.s, child.s) && Before(child.s, parent.s) { BeforeIsTransitive(value.s, child.s, parent.s); }
      if Before(parent.s, child.s) && Before(child.s, value.s) { BeforeIsTransitive(parent.s, child.s, value.s); }
    }
  }

  lemma PredicateTightens(parent: Option<PredicateSpec>, child: Option<PredicateSpec>, a: Action, c: Context)
    requires AtLeastAsRestrictive(parent, child) && parent.Some? && child.Some? && Holds(child.value, a, c)
    ensures Holds(parent.value, a, c)
  {
    OrderIsTransitive(parent.value.op, FieldValue(child.value.field, a, c), child.value.threshold, parent.value.threshold);
  }

  /** An accepted child permits, but for approvals, only what its parent does. */
  lemma ChildTightens(parent: Rule, child: Rule, a: Action, c: Context)
    requires Weakens(parent, child).None? && Meets(child, a, c)
    ensures Meets(parent, a, c)
  {
    DescentIsPartialOrder(a.capability, child.capability, parent.capability);
    if parent.condition.Some? { PredicateTightens(parent.condition, child.condition, a, c); }
  }

  // -------------------------------------------------------------- approvals

  function Roles(q: Quorum): set<string> { set r | r in q.roles }

  /** How many approvals of the parent's roles the child's approval forces at least. */
  function Forced(child: Quorum, roles: set<string>): int { child.threshold - |Roles(child) - roles| }

  /** The approvals that any approval of the child implies for the parent. */
  predicate ApprovalCarries(parent: Rule, child: Rule) {
    if parent.requirement.Some? then
      if child.requirement.Some? then Forced(child.requirement.value, Roles(parent.requirement.value)) >= parent.requirement.value.threshold
      else
        Truthy(child.requiresApproval) && child.requiresApproval.value in parent.requirement.value.roles
        && parent.requirement.value.threshold == 1
    else if Truthy(parent.requiresApproval) then
      if child.requirement.Some? then Forced(child.requirement.value, {parent.requiresApproval.value}) >= 1
      else child.requiresApproval == parent.requiresApproval
    else true
  }

  lemma {:induction false} DistinctRoles(roles: seq<string>)
    requires Distinct(roles)
    ensures |(set r | r in roles)| == |roles|
  {
    var all := set r | r in roles;
    if roles != [] {
      var front, last := roles[..|roles| - 1], roles[|roles| - 1];
      DistinctRoles(front);
      LastAmong(front, last, []);
      assert roles == front + [last];
      assert all == (set r | r in front) + {last};
    } else {
      assert all == {};
    }
  }

  lemma SetsSplit(a: set<string>, b: set<string>)
    ensures |a| == |a * b| + |a - b|
  {
    assert a == a * b + (a - b);
  }

  /** However the child's quorum is met, it forces that many of the parent's roles. */
  lemma QuorumForces(child: ApprovalRequirement, roles: set<string>, prior: seq<string>)
    requires Approvals(child.roles, prior) >= child.threshold
    ensures |Among(child.roles, prior) * roles| >= Forced(child, roles)
  {
    ApprovalsCount(child.roles, prior);
    var met := Among(child.roles, prior);
    SetsSplit(met, roles);
    SubsetSize(met - roles, Roles(child) - roles);
  }

  lemma CarryingSuffices(parent: Rule, child: Rule, prior: seq<string>)
    requires ApprovalCarries(parent, child) && ApprovalMet(child, prior)
    ensures ApprovalMet(parent, prior)
  {
    if parent.requirement.Some? {
      var q := parent.requirement.value;
      ApprovalsCount(q.roles, prior);
      if child.requirement.Some? {
        QuorumForces(child.requirement.value, Roles(q), prior);
        SubsetSize(Among(child.requirement.value.roles, prior) * Roles(q), Among(q.roles, prior));
      } else {
        SubsetSize({child.requiresApproval.value}, Among(q.roles, prior));
      }
    } else if Truthy(parent.requiresApproval) && child.requirement.Some? {
      var role := parent.requiresApproval.value;
      QuorumForces(child.requirement.value, {role}, prior);
      assert Among(child.requirement.value.roles, prior) * {role} != {};
    }
  }

  lemma {:induction false} Choose(all: set<string>, count: nat) returns (chosen: set<string>)
    requires count <= |all|
    ensures chosen <= all && |chosen| == count
  {
    if count == 0 {
      chosen := {};
    } else {
      var x :| x in all;
      chosen := Choose(all - {x}, count - 1);
      chosen := chosen + {x};
    }
  }

  /** `count` elements of a set, as few as possible of them in `roles`. */
  lemma Spread(all: set<string>, roles: set<string>, count: nat) returns (chosen: set<string>)
    requires count <= |all|
    ensures chosen <= all && |chosen| == count
    ensures |chosen * roles| == if count <= |all - roles| then 0 else count - |all - roles|
  {
    if count <= |all - roles| {
      chosen := Choose(all - roles, count);
      assert chosen * roles == {};
    } else {
      SetsSplit(all, roles);
      var inside := Choose(all * roles, count - |all - roles|);
      chosen := (all - roles) + inside;
      assert chosen * roles == inside && chosen - roles == all - roles;
      SetsSplit(chosen, roles);
    }
  }

  lemma {:induction false} Listed(s: set<string>) returns (list: seq<string>)
    ensures forall x :: x in list <==> x in s
  {
    if s == {} {
      list := [];
    } else {
      var x :| x in s;
      list := Listed(s - {x});
      list := list + [x];
    }
  }

  /** A quorum that is just met, with as few of `roles` as it allows. */
  lemma Evading(child: ApprovalRequirement, roles: set<string>) returns (prior: seq<string>)
    ensures Approvals(child.roles, prior) == child.threshold
    ensures forall other :: Distinct(other) && (set r | r in other) == roles ==>
              Approvals(other, prior) == if Forced(child, roles) >= 0 then Forced(child, roles) else 0
    ensures Forced(child, roles) <= 0 ==> forall r :: r in roles ==> r !in prior
  {
    DistinctRoles(child.roles);
    var chosen := Spread(Roles(child), roles, child.threshold);
    prior := Listed(chosen);
    ApprovalsCount(child.roles, prior);
    assert Among(child.roles, prior) == chosen;
    forall other | Distinct(other) && (set r | r in other) == roles
      ensures Approvals(other, prior) == if Forced(child, roles) >= 0 then Forced(child, roles) else 0
    {
      ApprovalsCount(other, prior);
      assert Among(other, prior) == chosen * roles;
    }
    assert forall r :: r in prior && r in roles ==> r in chosen * roles;
  }

  lemma EvasionExists(parent: Rule, child: Rule) returns (prior: seq<string>)
    requires !ApprovalCarries(parent, child)
    ensures ApprovalMet(child, prior) && !ApprovalMet(parent, prior)
  {
    if parent.requirement.Some? {
      var q := parent.requirement.value;
      if child.requirement.Some? {
        prior := Evading(child.requirement.value, Roles(q));
      } else {
        prior := if Truthy(child.requiresApproval) then [child.requiresApproval.value] else [];
        ApprovalsCount(q.roles, prior);
        if prior == [] || prior[0] !in q.roles {
          assert Among(q.roles, prior) == {};
        } else {
          assert Among(q.roles, prior) == {prior[0]};
        }
      }
    } else if child.requirement.Some? {
      prior := Evading(child.requirement.value, {parent.requiresApproval.value});
    } else {
      prior := if Truthy(child.requiresApproval) then [child.requiresApproval.value] else [];
    }
  }

  /** Exactly when the child's approval implies the parent's, whatever was approved. */
  lemma ApprovalCarriesExactly(parent: Rule, child: Rule)
    ensures ApprovalCarries(parent, child) <==> forall prior :: ApprovalMet(child, prior) ==> ApprovalMet(parent, prior)
  {
    if ApprovalCarries(parent, child) {
      forall prior | ApprovalMet(child, prior) ensures ApprovalMet(parent, prior) { CarryingSuffices(parent, child, prior); }
    } else {
      var prior := EvasionExists(parent, child);
    }
  }

  /** An accepted child whose approval carries over is satisfied only if its parent is. */
  lemma SatisfactionCarries(parent: Rule, child: Rule, a: Action, c: Context)
    requires Weakens(parent, child).None? && ApprovalCarries(parent, child) && Evaluate(child, a, c).Satisfied?
    ensures Evaluate(parent, a, c).Satisfied?
  {
    SatisfactionSplits(child, a, c);
    SatisfactionSplits(parent, a, c);
    ChildTightens(parent, child, a, c);
    CarryingSuffices(parent, child, c.priorApprovals);
  }

  /** With one approver, or none asked of the parent, an accepted child's approval always carries over. */
  lemma SingleApproverCarries(parent: Rule, child: Rule)
    requires Weakens(parent, child).None? && parent.requirement.None? && child.requirement.None?
    requires Truthy(parent.requiresApproval) ==> child.requiresApproval == parent.requiresApproval
    ensures ApprovalCarries(parent, child)
  {}

  /** The check does not make the child's quorum imply the parent's: one approver of a
      wider quorum satisfies the child alone. */
  lemma AcceptedQuorumMayNotCarry() returns (parent: Rule, child: Rule, a: Action, c: Context)
    ensures Weakens(parent, child).None? && Evaluate(child, a, c).Satisfied? && Evaluate(parent, a, c).Violated?
  {
    parent := Rule("LAW-P", "pay", 0, EscalateIt, None, Some(Quorum(["a"], 1)), None, {}, None);
    child := Rule("LAW-C", "pay", 0, EscalateIt, None, Some(Quorum(["a", "b"], 1)), None, {}, Some("LAW-P"));
    a, c := Action("x", 0, "agent", "pay", map[]), Context(0.0, ["b"], 0.0);
    assert Approvals(["a", "b"], ["b"]) == Approvals(["a"], ["b"]) + 1 by { assert ["a", "b"][..1] == ["a"]; }
    assert Approvals(["a"], ["b"]) == 0 by { assert ["a"][..0] == []; }
  }

  // ------------------------------------------------------------- inheritance

  datatype InheritanceError = DuplicateId | MissingParent | Cycle | Loosened(weakening: Weakening)

  /** `{rule.id: rule for rule in rules}`: the last rule of an id. */
  function ById(rules: seq<Rule>): map<string, Rule> {
    if rules == [] then map[] else ById(rules[..|rules| - 1])[rules[|rules| - 1].id := rules[|rules| - 1]]
  }

  /** A child may join parents that it tightens; a rule without a parent may always. */
  predicate Joins(parents: map<string, Rule>, child: Rule) {
    child.parent.Some? ==> child.parent.value in parents && Weakens(parents[child.parent.value], child).None?
  }

  function IdSet(rules: seq<Rule>): set<string> { set i | 0 <= i < |rules| :: rules[i].id }

  /** Children that may join in turn: their ids are new, and they tighten their parents. */
  predicate JoinInTurn(parents: seq<Rule>, children: seq<Rule>) {
    && (forall i :: 0 <= i < |children| ==> Joins(ById(parents), children[i]) && children[i].id !in IdSet(parents))
    && DistinctIds(children)
  }

  /** What is wrong with the next child. */
  predicate IsJoinFault(parents: seq<Rule>, before: seq<Rule>, child: Rule, e: InheritanceError) {
    if child.id in IdSet(parents) + IdSet(before) then e == DuplicateId
    else
      && child.parent.Some?
      && if child.parent.value !in ById(parents) then e == MissingParent
         else var w := Weakens(ById(parents)[child.parent.value], child); w.Some? && e == Loosened(w.value)
  }

  /** `inherit_rules`: every parent and every child, if each child's id is new and
      each child with a parent tightens it; otherwise the first fault. */
  method InheritRules(parents: seq<Rule>, children: seq<Rule>) returns (res: Result<seq<Rule>, InheritanceError>)
    ensures res.Ok? <==> JoinInTurn(parents, children)
    ensures res.Ok? ==> res.value == parents + children
    ensures res.Err? ==> exists k :: 0 <= k < |children| && JoinInTurn(parents, children[..k]) && IsJoinFault(parents, children[..k], children[k], res.error)
  {
    hide Weakens, ById;
    var byId := ById(parents);
    var result := parents;
    var ids := IdSet(parents);
    for k := 0 to |children|
      invariant result == parents + children[..k] && ids == IdSet(parents) + IdSet(children[..k])
      invariant forall i :: 0 <= i < k ==> Joins(byId, children[i]) && children[i].id !in IdSet(parents)
      invariant DistinctIds(children[..k])
    {
      var child := children[k];
      assert children[..k + 1] == children[..k] + [child];
      if child.id in ids {
        if child.id !in IdSet(parents) { var i :| 0 <= i < k && children[..k][i].id == child.id; assert children[i].id == child.id; }
        return Err(DuplicateId);
      }
      if child.parent.Some? {
        if child.parent.value !in byId { return Err(MissingParent); }
        var weakening := Weakens(byId[child.parent.value], child);
        if weakening.Some? { return Err(Loosened(weakening.value)); }
      }
      result := result + [child];
      forall i | 0 <= i < k ensures children[..k][i].id != child.id { assert children[..k][i].id in IdSet(children[..k]); }
      assert IdSet(children[..k + 1]) == IdSet(children[..k]) + {child.id};
      ids := ids + {child.id};
    }
    assert children[..|children|] == children;
    return Ok(result);
  }

  /** Inheriting rules never lowers the severity of a decision. */
  lemma InheritanceNeverLoosens(parents: seq<Rule>, children: seq<Rule>, a: Action, c: Context, proof: Option<Proof>)
    requires DistinctIds(parents) && DistinctIds(children)
    requires forall i :: 0 <= i < |children| ==> children[i].id !in IdSet(parents)
    ensures Severity(EvaluateRules(parents, a, c, proof).kind) <= Severity(EvaluateRules(parents + children, a, c, proof).kind)
  {
    forall i, j | 0 <= i < j < |parents + children| ensures (parents + children)[i].id != (parents + children)[j].id {
      if i < |parents| <= j { assert parents[i].id in IdSet(parents); }
    }
    MoreRulesNeverLoosen(parents, children, a, c, proof);
  }

  // ------------------------------------------------------------- whole graphs

  /** The rule `n` parent links above, if the links lead that far. */
  function Above(rules: map<string, Rule>, id: string, n: nat): Option<string>
    decreases n
  {
    if id !in rules then None
    else if n == 0 then Some(id)
    else if rules[id].parent.None? then None
    else Above(rules, rules[id].parent.value, n - 1)
  }

  predicate LinkOk(rules: map<string, Rule>, id: string)
    requires id in rules
  {
    Joins(rules, rules[id])
  }

  ghost predicate LinksOk(rules: map<string, Rule>) { forall id {:trigger LinkOk(rules, id)} :: id in rules ==> LinkOk(rules, id) }

  ghost predicate AcyclicLinks(rules: map<string, Rule>) {
    forall id, n {:trigger Above(rules, id, n)} :: n > 0 ==> Above(rules, id, n) != Some(id)
  }

  /** A rule whose links end at a rule without a parent. */
  ghost predicate Ends(rules: map<string, Rule>, id: string) { exists n: nat :: Above(rules, id, n) == None }

  lemma {:induction false} AboveComposes(rules: map<string, Rule>, id: string, m: nat, n: nat)
    ensures Above(rules, id, m + n) == if Above(rules, id, m).Some? then Above(rules, Above(rules, id, m).value, n) else None
    decreases m
  {
    if m > 0 && id in rules && rules[id].parent.Some? {
      AboveComposes(rules, rules[id].parent.value, m - 1, n);
      assert m + n - 1 == (m - 1) + n;
    }
  }

  lemma {:induction false} CyclesNeverEnd(rules: map<string, Rule>, id: string, n: nat, k: nat)
    requires n > 0 && Above(rules, id, n) == Some(id)
    ensures Above(rules, id, k).Some?
    decreases k
  {
    if k >= n {
      CyclesNeverEnd(rules, id, n, k - n);
      AboveComposes(rules, id, n, k - n);
    } else {
      AboveComposes(rules, id, k, n - k);
    }
  }

  lemma EndingIsAcyclic(rules: map<string, Rule>)
    requires forall id :: id in rules ==> Ends(rules, id)
    ensures AcyclicLinks(rules)
  {
    forall id, n | n > 0 ensures Above(rules, id, n) != Some(id) {
      if Above(rules, id, n) == Some(id) {
        assert Ends(rules, id);
        var k: nat :| Above(rules, id, k) == None;
        CyclesNeverEnd(rules, id, n, k);
      }
    }
  }

  /** Every checked rule ends, and its link is good and leads to a checked rule. */
  ghost predicate Checked(rules: map<string, Rule>, checked: set<string>) {
    forall id :: id in checked ==>
      && id in rules && LinkOk(rules, id) && Ends(rules, id)
      && (rules[id].parent.Some? ==> rules[id].parent.value in checked)
  }

  /** Every rule being visited leads up to `id`. */
  ghost predicate LeadsTo(rules: map<string, Rule>, visiting: set<string>, id: string) {
    forall v :: v in visiting ==> exists n: nat :: n > 0 && Above(rules, v, n) == Some(id)
  }

  lemma LeadsOn(rules: map<string, Rule>, visiting: set<string>, id: string)
    requires id in rules && rules[id].parent.Some? && rules[id].parent.value in rules && LeadsTo(rules, visiting, id)
    ensures LeadsTo(rules, visiting + {id}, rules[id].parent.value)
  {
    var up := rules[id].parent.value;
    forall v | v in visiting + {id} ensures exists n: nat :: n > 0 && Above(rules, v, n) == Some(up) {
      if v == id {
        assert Above(rules, id, 1) == Some(up);
      } else {
        var n: nat :| n > 0 && Above(rules, v, n) == Some(id);
        AboveComposes(rules, v, n, 1);
        assert Above(rules, id, 1) == Some(up);
      }
    }
  }

  lemma EndsAbove(rules: map<string, Rule>, id: string)
    requires id in rules && (rules[id].parent.Some? ==> Ends(rules, rules[id].parent.value))
    ensures Ends(rules, id)
  {
    if rules[id].parent.Some? {
      var n: nat :| Above(rules, rules[id].parent.value, n) == None;
      assert Above(rules, id, n + 1) == None;
    } else {
      assert Above(rules, id, 1) == None;
    }
  }

  /** What is wrong with a graph. */
  ghost predicate Explains(rules: map<string, Rule>, e: InheritanceError) {
    match e
    case DuplicateId => false
    case MissingParent => exists id :: id in rules && rules[id].parent.Some? && rules[id].parent.value !in rules
    case Cycle => exists id, n {:trigger Above(rules, id, n)} :: n > 0 && Above(rules, id, n) == Some(id)
    case Loosened(w) =>
      exists id :: id in rules && rules[id].parent.Some? && rules[id].parent.value in rules
                   && Weakens(rules[rules[id].parent.value], rules[id]) == Some(w)
  }

  /** `visit`: the ids that are checked afterwards. */
  method Visit(rules: map<string, Rule>, id: string, visiting: set<string>, checked: set<string>)
    returns (res: Result<set<string>, InheritanceError>)
    requires id in rules && visiting <= rules.Keys && Checked(rules, checked) && LeadsTo(rules, visiting, id)
    ensures res.Ok? ==> checked <= res.value && id in res.value && Checked(rules, res.value)
    ensures res.Err? ==> !(LinksOk(rules) && AcyclicLinks(rules)) && Explains(rules, res.error)
    decreases rules.Keys - visiting
  {
    if id in checked { return Ok(checked); }
    if id in visiting {
      assert exists n: nat :: n > 0 && Above(rules, id, n) == Some(id);
      return Err(Cycle);
    }
    var done := checked;
    if rules[id].parent.Some? {
      var parent := rules[id].parent.value;
      assert LinksOk(rules) ==> LinkOk(rules, id);
      if parent !in rules { return Err(MissingParent); }
      LeadsOn(rules, visiting, id);
      assert rules.Keys - (visiting + {id}) < rules.Keys - visiting by { assert id in rules.Keys - visiting; }
      var above := Visit(rules, parent, visiting + {id}, checked);
      if above.Err? { return above; }
      done := above.value;
      var weakening := Weakens(rules[parent], rules[id]);
      if weakening.Some? { return Err(Loosened(weakening.value)); }
    }
    EndsAbove(rules, id);
    return Ok(done + {id});
  }

  /** `validate_inheritance_graph`: accepted exactly when every parent link is closed
      and tightens, and no chain of links returns to its rule; otherwise one of the faults. */
  method ValidateInheritanceGraph(rules: seq<Rule>) returns (fault: Option<InheritanceError>)
    ensures fault.None? <==> LinksOk(ById(rules)) && AcyclicLinks(ById(rules))
    ensures fault.Some? ==> Explains(ById(rules), fault.value)
  {
    var byId := ById(rules);
    var checked: set<string> := {};
    var left := byId.Keys;
    while left != {}
      invariant Checked(byId, checked) && left <= byId.Keys && byId.Keys - left <= checked
      decreases left
    {
      var id :| id in left;
      left := left - {id};
      var visited := Visit(byId, id, {}, checked);
      if visited.Err? { return Some(visited.error); }
      checked := visited.value;
    }
    EndingIsAcyclic(byId);
    return None;
  }

  /** In an accepted graph every rule tightens each of its ancestors, not its parent alone. */
  lemma {:induction false} DescendantsTighten(rules: map<string, Rule>, id: string, n: nat, a: Action, c: Context)
    requires LinksOk(rules) && Above(rules, id, n).Some? && Meets(rules[id], a, c)
    ensures Above(rules, id, n).value in rules && Meets(rules[Above(rules, id, n).value], a, c)
    decreases n
  {
    if n > 0 {
      assert LinkOk(rules, id);
      ChildTightens(rules[rules[id].parent.value], rules[id], a, c);
      DescendantsTighten(rules, rules[id].parent.value, n - 1, a, c);
    }
  }

  /** Each approval on the way up carries over. */
  predicate ChainCarries(rules: map<string, Rule>, id: string, n: nat)
    decreases n
  {
    n == 0
    || (&& id in rules && rules[id].parent.Some? && rules[id].parent.value in rules
        && ApprovalCarries(rules[rules[id].parent.value], rules[id])
        && ChainCarries(rules, rules[id].parent.value, n - 1))
  }

  /** And is satisfied only if they are, as far as each approval on the way carries over. */
  lemma {:induction false} DescendantsSatisfy(rules: map<string, Rule>, id: string, n: nat, a: Action, c: Context)
    requires LinksOk(rules) && Above(rules, id, n).Some? && ChainCarries(rules, id, n) && Evaluate(rules[id], a, c).Satisfied?
    ensures Above(rules, id, n).value in rules && Evaluate(rules[Above(rules, id, n).value], a, c).Satisfied?
    decreases n
  {
    if n > 0 {
      assert LinkOk(rules, id);
      var up := rules[id].parent.value;
      SatisfactionCarries(rules[up], rules[id], a, c);
      DescendantsSatisfy(rules, up, n - 1, a, c);
    }
  }
}
