/** Inheritance and compilation in plain terms: when one rule tightens another, when a set
    of rules compiles, and what a compiled policy decides (governance/composition.py,
    governance/compiler.py). */
module PlainPolicies {
  import opened Text
  import opened Model
  import opened Capabilities
  import opened Rules
  import opened Composition
  import opened Inheritance
  import opened Compiler
  import opened PlainRules

  // -------------------------------------------------------------- tightening

  /** A condition with the same field and operator whose threshold is no looser. */
  predicate Sharpens(parent: PredicateSpec, child: PredicateSpec) {
    && child.field == parent.field && child.op == parent.op
    && match parent.op
       case Le => Stands(child.threshold, Le, parent.threshold)
       case Lt => Stands(child.threshold, Le, parent.threshold)
       case Ge => Stands(child.threshold, Ge, parent.threshold)
       case Gt => Stands(child.threshold, Ge, parent.threshold)
       case Eq => child.threshold == parent.threshold
       case Ne => child.threshold == parent.threshold
  }

  predicate AsksSomeone(r: Rule) { r.requiresApproval.Some? && |r.requiresApproval.value| > 0 }

  /** What a child must keep of its parent, in the order in which it is looked at. */
  predicate Keeps(parent: Rule, child: Rule, w: Weakening) {
    match w
    case WrongParent => child.parent == Some(parent.id)
    case WidensCapability => Segments(parent.capability) <= Segments(child.capability)
    case LowersAuthority => parent.minAuthority <= child.minAuthority
    case RemovesClass => forall c :: c in parent.forbidden ==> c in child.forbidden
    case RemovesApproval => AsksSomeone(parent) ==> AsksSomeone(child)
    case WeakensQuorum =>
      parent.requirement.Some? ==>
        && child.requirement.Some? && parent.requirement.value.threshold <= child.requirement.value.threshold
        && forall role :: role in parent.requirement.value.roles ==> role in child.requirement.value.roles
    case SoftensDisposition => parent.disposition == BlockIt ==> child.disposition == BlockIt
    case WeakensPredicate => parent.condition.Some? ==> child.condition.Some? && Sharpens(parent.condition.value, child.condition.value)
  }

  predicate Tightens(parent: Rule, child: Rule) {
    && Keeps(parent, child, WrongParent) && Keeps(parent, child, WidensCapability) && Keeps(parent, child, LowersAuthority)
    && Keeps(parent, child, RemovesClass) && Keeps(parent, child, RemovesApproval) && Keeps(parent, child, WeakensQuorum)
    && Keeps(parent, child, SoftensDisposition) && Keeps(parent, child, WeakensPredicate)
  }

  lemma SharpensExactly(parent: Rule, child: Rule)
    ensures Keeps(parent, child, WeakensPredicate) <==> AtLeastAsRestrictive(parent.condition, child.condition)
  {
    if parent.condition.Some? && child.condition.Some? {
      StandsCompares(child.condition.value.threshold, Le, parent.condition.value.threshold);
      StandsCompares(child.condition.value.threshold, Ge, parent.condition.value.threshold);
      hide Stands, Compares;
    }
  }

  /** The first thing that a child does not keep, or none when it tightens its parent. */
  lemma WeakeningInPlainTerms(parent: Rule, child: Rule)
    ensures Weakens(parent, child) ==
              if !Keeps(parent, child, WrongParent) then Some(WrongParent)
              else if !Keeps(parent, child, WidensCapability) then Some(WidensCapability)
              else if !Keeps(parent, child, LowersAuthority) then Some(LowersAuthority)
              else if !Keeps(parent, child, RemovesClass) then Some(RemovesClass)
              else if !Keeps(parent, child, RemovesApproval) then Some(RemovesApproval)
              else if !Keeps(parent, child, WeakensQuorum) then Some(WeakensQuorum)
              else if !Keeps(parent, child, SoftensDisposition) then Some(SoftensDisposition)
              else if !Keeps(parent, child, WeakensPredicate) then Some(WeakensPredicate)
              else None
  {
    DescentBySegments(child.capability, parent.capability);
    SharpensExactly(parent, child);
    hide Segments, Descends, AtLeastAsRestrictive, Sharpens;
  }

  lemma TighteningExactly(parent: Rule, child: Rule)
    ensures Weakens(parent, child).None? <==> Tightens(parent, child)
  {
    WeakeningInPlainTerms(parent, child);
    hide Weakens, Keeps;
  }

  // ------------------------------------------------------------- compilation

  /** The rules' links: every named parent is a rule that its child tightens. */
  predicate IsClosed(rules: seq<Rule>, parents: seq<Rule>) {
    forall i :: 0 <= i < |rules| && rules[i].parent.Some? ==> exists j :: 0 <= j < |parents| && rules[i].parent == Some(parents[j].id) && Tightens(parents[j], rules[i])
  }

  /** Rules of which each is the parent of the one before it. */
  predicate IsLineage(rules: seq<Rule>, line: seq<Rule>) {
    && (forall i :: 0 <= i < |line| ==> line[i] in rules)
    && (forall i :: 0 < i < |line| ==> line[i - 1].parent == Some(line[i].id))
  }

  ghost predicate HasNoLoop(rules: seq<Rule>) { forall line :: |line| > 1 && IsLineage(rules, line) ==> line[0] != line[|line| - 1] }

  lemma {:induction false} ByIdFinds(rules: seq<Rule>, i: nat)
    requires DistinctIds(rules) && i < |rules|
    ensures rules[i].id in ById(rules) && ById(rules)[rules[i].id] == rules[i]
  {
    var front := rules[..|rules| - 1];
    if i < |front| {
      assert front[i] == rules[i];
      ByIdFinds(front, i);
    }
  }

  lemma {:induction false} ByIdLists(rules: seq<Rule>, id: string) returns (i: nat)
    requires id in ById(rules)
    ensures i < |rules| && ById(rules)[id] == rules[i] && rules[i].id == id
  {
    var front, last := rules[..|rules| - 1], rules[|rules| - 1];
    if id == last.id { i := |rules| - 1; } else { i := ByIdLists(front, id); }
  }

  lemma ByIdIs(rules: seq<Rule>)
    requires DistinctIds(rules)
    ensures forall r :: r in rules ==> r.id in ById(rules) && ById(rules)[r.id] == r
    ensures forall id :: id in ById(rules) ==> ById(rules)[id] in rules && ById(rules)[id].id == id
  {
    hide ById, DistinctIds;
    forall r | r in rules ensures r.id in ById(rules) && ById(rules)[r.id] == r {
      var i :| 0 <= i < |rules| && rules[i] == r;
      ByIdFinds(rules, i);
    }
    forall id | id in ById(rules) ensures ById(rules)[id] in rules && ById(rules)[id].id == id { var i := ByIdLists(rules, id); }
  }

  lemma ClosedExactly(rules: seq<Rule>, parents: seq<Rule>)
    requires DistinctIds(parents)
    ensures IsClosed(rules, parents) <==> forall i :: 0 <= i < |rules| ==> Joins(ById(parents), rules[i])
  {
    ByIdIs(parents);
    hide ById, Tightens, Weakens, DistinctIds;
    forall p, c { TighteningExactly(p, c); }
    if IsClosed(rules, parents) {
      forall i | 0 <= i < |rules| ensures Joins(ById(parents), rules[i]) {
        if rules[i].parent.Some? {
          var j :| 0 <= j < |parents| && rules[i].parent == Some(parents[j].id) && Tightens(parents[j], rules[i]);
          assert parents[j] in parents;
        }
      }
    }
    if forall i :: 0 <= i < |rules| ==> Joins(ById(parents), rules[i]) {
      forall i | 0 <= i < |rules| && rules[i].parent.Some?
        ensures exists j :: 0 <= j < |parents| && rules[i].parent == Some(parents[j].id) && Tightens(parents[j], rules[i])
      {
        var p := ById(parents)[rules[i].parent.value];
        var j :| 0 <= j < |parents| && parents[j] == p;
      }
    }
  }

  lemma LinksExactly(rules: seq<Rule>)
    requires DistinctIds(rules)
    ensures LinksOk(ById(rules)) <==> IsClosed(rules, rules)
  {
    ByIdIs(rules);
    ClosedExactly(rules, rules);
    hide ById, Joins, IsClosed, DistinctIds;
    if LinksOk(ById(rules)) {
      forall i | 0 <= i < |rules| ensures Joins(ById(rules), rules[i]) { assert rules[i] in rules; assert LinkOk(ById(rules), rules[i].id); }
    }
    if forall i :: 0 <= i < |rules| ==> Joins(ById(rules), rules[i]) {
      forall id | id in ById(rules) ensures LinkOk(ById(rules), id) { var i :| 0 <= i < |rules| && rules[i] == ById(rules)[id]; }
    }
  }

  /** A line of rules is followed by the links. */
  lemma {:induction false} LineageLeadsUp(rules: seq<Rule>, line: seq<Rule>)
    requires DistinctIds(rules) && line != [] && IsLineage(rules, line)
    ensures Above(ById(rules), line[0].id, |line| - 1) == Some(line[|line| - 1].id)
    decreases |line|
  {
    ByIdIs(rules);
    hide ById, DistinctIds;
    assert line[0] in rules;
    if |line| > 1 {
      LineageLeadsUp(rules, line[1..]);
      assert line[0].parent == Some(line[1].id);
    }
  }

  lemma {:induction false} LinksGiveLineage(rules: seq<Rule>, id: string, n: nat) returns (line: seq<Rule>)
    requires DistinctIds(rules) && Above(ById(rules), id, n).Some?
    ensures |line| == n + 1 && IsLineage(rules, line) && line[0].id == id && line[n].id == Above(ById(rules), id, n).value
    decreases n
  {
    ByIdIs(rules);
    hide ById, DistinctIds;
    var r := ById(rules)[id];
    if n == 0 {
      line := [r];
    } else {
      var rest := LinksGiveLineage(rules, r.parent.value, n - 1);
      line := [r] + rest;
      forall i | 0 < i < |line| ensures line[i - 1].parent == Some(line[i].id) { if i > 1 { assert line[i - 1] == rest[i - 2] && line[i] == rest[i - 1]; } }
    }
  }

  lemma NoLoopExactly(rules: seq<Rule>)
    requires DistinctIds(rules)
    ensures AcyclicLinks(ById(rules)) <==> HasNoLoop(rules)
  {
    hide ById, IsLineage;
    if AcyclicLinks(ById(rules)) {
      forall line | |line| > 1 && IsLineage(rules, line) ensures line[0] != line[|line| - 1] { LineageLeadsUp(rules, line); }
    }
    if HasNoLoop(rules) {
      forall id, n {:trigger Above(ById(rules), id, n)} | n > 0 ensures Above(ById(rules), id, n) != Some(id) {
        if Above(ById(rules), id, n) == Some(id) {
          var line := LinksGiveLineage(rules, id, n);
          EndsInItself(rules, line);
        }
      }
    }
  }

  lemma EndsInItself(rules: seq<Rule>, line: seq<Rule>)
    requires DistinctIds(rules) && line != [] && IsLineage(rules, line) && line[0].id == line[|line| - 1].id
    ensures line[0] == line[|line| - 1]
  {
    assert line[0] in rules && line[|line| - 1] in rules;
  }

  /** The roles that a rule asks are known. */
  predicate AsksKnown(r: Rule, roles: Option<set<string>>) {
    match roles
    case None => true
    case Some(known) =>
      && (AsksSomeone(r) ==> r.requiresApproval.value in known)
      && (match r.requirement
          case Some(q) => forall role :: role in q.roles ==> role in known
          case None => true)
  }

  /** Two rules with the same conditions and different dispositions. */
  predicate Contradict(q: Rule, r: Rule) {
    && q.capability == r.capability && q.minAuthority == r.minAuthority && q.condition == r.condition && q.forbidden == r.forbidden
    && q.requiresApproval == r.requiresApproval && q.requirement == r.requirement && q.disposition != r.disposition
  }

  predicate HaveOwnIds(rules: seq<Rule>) { forall i, j :: 0 <= i < |rules| && 0 <= j < |rules| && i != j ==> rules[i].id != rules[j].id }

  /** What compilation asks of rules with inherited parents: own ids, known roles, no
      contradiction, closed links without a loop, and a default that does not escalate. */
  ghost predicate MayCompile(rules: seq<Rule>, roles: Option<set<string>>, parents: seq<Rule>, default: DecisionKind) {
    var all := parents + rules;
    && default != Escalate && HaveOwnIds(all)
    && (forall i :: 0 <= i < |all| ==> AsksKnown(all[i], roles))
    && (forall i, j :: 0 <= i < |all| && 0 <= j < |all| ==> !Contradict(all[i], all[j]))
    && IsClosed(all, all) && HasNoLoop(all)
    && (parents != [] ==> IsClosed(rules, parents))
  }

  lemma CompilableExactly(rules: seq<Rule>, roles: Option<set<string>>)
    ensures Compilable(rules, roles) <==>
              && HaveOwnIds(rules) && (forall i :: 0 <= i < |rules| ==> AsksKnown(rules[i], roles))
              && (forall i, j :: 0 <= i < |rules| && 0 <= j < |rules| ==> !Contradict(rules[i], rules[j]))
  {
    forall i | 0 <= i < |rules| ensures RolesKnown(rules[i], roles) <==> AsksKnown(rules[i], roles) {}
    forall i, j | 0 <= i < |rules| && 0 <= j < |rules|
      ensures Contradict(rules[i], rules[j]) <==> SignatureOf(rules[i]) == SignatureOf(rules[j]) && rules[i].disposition != rules[j].disposition {}
    hide RolesKnown, AsksKnown, SignatureOf, Contradict;
    if Consistent(rules) {
      forall i, j | 0 <= i < |rules| && 0 <= j < |rules| ensures !Contradict(rules[i], rules[j]) {
        if i < j { assert !Contradict(rules[i], rules[j]); } else if j < i { assert !(SignatureOf(rules[j]) == SignatureOf(rules[i]) && rules[j].disposition != rules[i].disposition); }
      }
    }
  }

  /** A policy compiles exactly when its rules may. */
  lemma CompilationInPlainTerms(rules: seq<Rule>, roles: Option<set<string>>, parents: seq<Rule>, default: DecisionKind)
    ensures Enforceable(CompiledPolicy(parents + rules, {}, default), roles) && Inheritable(parents, rules) <==> MayCompile(rules, roles, parents, default)
  {
    var all := parents + rules;
    CompilableExactly(all, roles);
    OwnIdsAreDistinct(all);
    if DistinctIds(all) {
      LinksExactly(all);
      NoLoopExactly(all);
      FrontIsDistinct(parents, rules);
      ClosedExactly(rules, parents);
    }
    hide ById, LinksOk, AcyclicLinks, IsClosed, HasNoLoop, Joins, Compilable, HaveOwnIds, DistinctIds, AsksKnown, Contradict;
  }

  lemma OwnIdsAreDistinct(rules: seq<Rule>)
    ensures HaveOwnIds(rules) <==> DistinctIds(rules)
  {
    if DistinctIds(rules) {
      forall i, j | 0 <= i < |rules| && 0 <= j < |rules| && i != j ensures rules[i].id != rules[j].id {
        assert i < j || j < i;
      }
    }
  }

  lemma FrontIsDistinct(parents: seq<Rule>, rules: seq<Rule>)
    requires DistinctIds(parents + rules)
    ensures DistinctIds(parents)
  {
    var all := parents + rules;
    forall i, j | 0 <= i < j < |parents| ensures parents[i].id != parents[j].id { assert all[i] == parents[i] && all[j] == parents[j]; }
  }

  /** A compiled policy blocks what concerns no rule when it blocks by default, and
      otherwise decides by its rules. */
  lemma PolicyInPlainTerms(p: CompiledPolicy, a: Action, c: Context, proof: Option<Proof>)
    requires DistinctIds(p.rules)
    ensures var d := EvaluatePolicy(p, a, c, proof);
            if p.default == Block && (forall r :: r in p.rules ==> !Concerns(r, a)) && (proof.Some? ==> proof.value.allowed) then
              && Recorded(d, Block, None, "no applicable rule; default-deny policy", None, [], 0) && d.matchedRules == []
            else d == EvaluateRules(p.rules, a, c, proof)
  {
    DecisionInPlainTerms(p.rules, a, c, proof);
    var d := EvaluateRules(p.rules, a, c, proof);
    hide EvaluateRules, Concerns, Content, Decides, Asked;
    assert d.matchedRules != [] ==> d.matchedRules[0] in d.matchedRules;
    if r :| r in p.rules && Concerns(r, a) { assert r.id in d.matchedRules; }
  }
}
