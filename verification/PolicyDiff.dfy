/** The semantic difference of two bundles as a patch (governance/versioning.py). */
module PolicyDiff {
  import opened Text
  import opened LawText
  import opened Model
  import opened Rules
  import opened Composition
  import opened Inheritance
  import opened Versioning

  /** The fields of a rule, in the order of their names. */
  datatype Field =
    | Requirement | Capability | DispositionField | Forbidden | Id | MinAuthority | Parent | Predicate | RequiresApproval

  function Fields(): seq<Field> {
    [Requirement, Capability, DispositionField, Forbidden, Id, MinAuthority, Parent, Predicate, RequiresApproval]
  }

  datatype FieldValue =
    | QuorumValue(quorum: Option<ApprovalRequirement>)
    | TextValue(text: string)
    | DispositionValue(disposition: Disposition)
    | ClassesValue(classes: set<string>)
    | LevelValue(level: int)
    | MaybeValue(maybe: Option<string>)
    | PredicateValue(condition: Option<PredicateSpec>)

  function FieldOf(r: Rule, f: Field): FieldValue {
    match f
    case Requirement => QuorumValue(r.requirement)
    case Capability => TextValue(r.capability)
    case DispositionField => DispositionValue(r.disposition)
    case Forbidden => ClassesValue(r.forbidden)
    case Id => TextValue(r.id)
    case MinAuthority => LevelValue(r.minAuthority)
    case Parent => MaybeValue(r.parent)
    case Predicate => PredicateValue(r.condition)
    case RequiresApproval => MaybeValue(r.requiresApproval)
  }

  /** A rule with one field replaced, by a value that fits it. */
  function WithField(r: Rule, f: Field, v: FieldValue): Rule {
    match f
    case Requirement => if v.QuorumValue? then r.(requirement := v.quorum) else r
    case Capability => if v.TextValue? then r.(capability := v.text) else r
    case DispositionField => if v.DispositionValue? then r.(disposition := v.disposition) else r
    case Forbidden => if v.ClassesValue? then r.(forbidden := v.classes) else r
    case Id => if v.TextValue? then r.(id := v.text) else r
    case MinAuthority => if v.LevelValue? then r.(minAuthority := v.level) else r
    case Parent => if v.MaybeValue? then r.(parent := v.maybe) else r
    case Predicate => if v.PredicateValue? then r.(condition := v.condition) else r
    case RequiresApproval => if v.MaybeValue? then r.(requiresApproval := v.maybe) else r
  }

  datatype Change =
    | IdChanged(beforeId: string, afterId: string)
    | VersionChanged(beforeVersion: string, afterVersion: string)
    | RuleChanged(ruleId: string, before: Option<Rule>, after: Option<Rule>)
    | FieldChanged(ruleId: string, field: Field, was: FieldValue, becomes: FieldValue)
    | RolesChanged(beforeRoles: seq<string>, afterRoles: seq<string>)
    | DefaultChanged(beforeDefault: DecisionKind, afterDefault: DecisionKind)

  /** What a bundle says: its identity and its semantics, the rules by id. */
  datatype Content = Content(policyId: string, version: string, rules: map<string, Rule>, roles: seq<string>, default: DecisionKind)

  function ContentOf(b: BundleRecord): Content {
    Content(b.policyId, b.version, ById(b.semantics.rules), b.semantics.roles, b.semantics.default)
  }

  // ------------------------------------------------------------- difference

  function When(changed: bool, change: Change): seq<Change> { if changed then [change] else [] }

  function FieldChanges(before: Rule, after: Rule, fields: seq<Field>): seq<Change> {
    if fields == [] then []
    else
      var f := fields[|fields| - 1];
      FieldChanges(before, after, fields[..|fields| - 1])
      + When(FieldOf(before, f) != FieldOf(after, f), FieldChanged(before.id, f, FieldOf(before, f), FieldOf(after, f)))
  }

  function Found(rules: map<string, Rule>, id: string): Option<Rule> { if id in rules then Some(rules[id]) else None }

  function RuleChanges(before: map<string, Rule>, after: map<string, Rule>, id: string): seq<Change> {
    if id in before && id in after then FieldChanges(before[id], after[id], Fields())
    else [RuleChanged(id, Found(before, id), Found(after, id))]
  }

  function AllRuleChanges(before: map<string, Rule>, after: map<string, Rule>, ids: seq<string>): seq<Change> {
    if ids == [] then []
    else AllRuleChanges(before, after, ids[..|ids| - 1]) + RuleChanges(before, after, ids[|ids| - 1])
  }

  /** The `changes` of `diff`. */
  ghost function Difference(a: Content, b: Content): seq<Change> {
    When(a.policyId != b.policyId, IdChanged(a.policyId, b.policyId))
    + When(a.version != b.version, VersionChanged(a.version, b.version))
    + AllRuleChanges(a.rules, b.rules, Sorted(a.rules.Keys + b.rules.Keys))
    + When(a.roles != b.roles, RolesChanged(a.roles, b.roles))
    + When(a.default != b.default, DefaultChanged(a.default, b.default))
  }

  /** The fields of one rule. */
  method DiffRule(before: Rule, after: Rule) returns (changes: seq<Change>)
    ensures changes == FieldChanges(before, after, Fields())
  {
    changes := [];
    var fields := Fields();
    for k := 0 to |fields|
      invariant changes == FieldChanges(before, after, fields[..k])
    {
      hide FieldOf;
      var f := fields[k];
      assert fields[..k + 1][..k] == fields[..k];
      if FieldOf(before, f) != FieldOf(after, f) {
        changes := changes + [FieldChanged(before.id, f, FieldOf(before, f), FieldOf(after, f))];
      }
    }
    assert fields[..|fields|] == fields;
  }

  /** The rules, in the order of their ids. */
  method DiffRules(before: map<string, Rule>, after: map<string, Rule>) returns (changes: seq<Change>)
    ensures changes == AllRuleChanges(before, after, Sorted(before.Keys + after.Keys))
  {
    hide Sorted, FieldChanges;
    changes := [];
    var ids := Listing(before.Keys + after.Keys);
    for k := 0 to |ids|
      invariant changes == AllRuleChanges(before, after, ids[..k])
    {
      var id := ids[k];
      assert ids[..k + 1][..k] == ids[..k];
      if id !in before || id !in after {
        changes := changes + [RuleChanged(id, Found(before, id), Found(after, id))];
      } else {
        var fields := DiffRule(before[id], after[id]);
        changes := changes + fields;
      }
    }
    assert ids[..|ids|] == ids;
  }

  lemma NoChange(changes: seq<Change>)
    ensures changes + [] == changes
  {}

  /** `diff`. */
  method Diff(a: BundleRecord, b: BundleRecord) returns (changes: seq<Change>)
    ensures changes == Difference(ContentOf(a), ContentOf(b))
  {
    hide Sorted, FieldChanges, AllRuleChanges, ById;
    changes := [];
    if a.policyId != b.policyId { changes := [IdChanged(a.policyId, b.policyId)]; }
    NoChange(changes);
    if a.version != b.version { changes := changes + [VersionChanged(a.version, b.version)]; }
    var rules := DiffRules(ById(a.semantics.rules), ById(b.semantics.rules));
    changes := changes + rules;
    NoChange(changes);
    if a.semantics.roles != b.semantics.roles { changes := changes + [RolesChanged(a.semantics.roles, b.semantics.roles)]; }
    NoChange(changes);
    if a.semantics.default != b.semantics.default { changes := changes + [DefaultChanged(a.semantics.default, b.semantics.default)]; }
  }

  // ------------------------------------------------------------------- patch

  function Patched(c: Content, change: Change): Content {
    match change
    case IdChanged(_, after) => c.(policyId := after)
    case VersionChanged(_, after) => c.(version := after)
    case RuleChanged(id, _, None) => c.(rules := c.rules - {id})
    case RuleChanged(id, _, Some(rule)) => c.(rules := c.rules[id := rule])
    case FieldChanged(id, f, _, v) => if id in c.rules then c.(rules := c.rules[id := WithField(c.rules[id], f, v)]) else c
    case RolesChanged(_, after) => c.(roles := after)
    case DefaultChanged(_, after) => c.(default := after)
  }

  function PatchedAll(c: Content, changes: seq<Change>): Content {
    if changes == [] then c else Patched(PatchedAll(c, changes[..|changes| - 1]), changes[|changes| - 1])
  }

  lemma {:induction false} PatchesCompose(c: Content, a: seq<Change>, b: seq<Change>)
    ensures PatchedAll(c, a + b) == PatchedAll(PatchedAll(c, a), b)
    decreases |b|
  {
    if b == [] {
      assert a + b == a;
    } else {
      assert (a + b)[..|a + b| - 1] == a + b[..|b| - 1];
      PatchesCompose(c, a, b[..|b| - 1]);
    }
  }

  lemma FieldsDetermine(r: Rule, s: Rule)
    requires forall f :: f in Fields() ==> FieldOf(r, f) == FieldOf(s, f)
    ensures r == s
  {
    assert FieldOf(r, Requirement) == FieldOf(s, Requirement) && FieldOf(r, Capability) == FieldOf(s, Capability);
    assert FieldOf(r, DispositionField) == FieldOf(s, DispositionField) && FieldOf(r, Forbidden) == FieldOf(s, Forbidden);
    assert FieldOf(r, Id) == FieldOf(s, Id) && FieldOf(r, MinAuthority) == FieldOf(s, MinAuthority);
    assert FieldOf(r, Parent) == FieldOf(s, Parent) && FieldOf(r, Predicate) == FieldOf(s, Predicate);
    assert FieldOf(r, RequiresApproval) == FieldOf(s, RequiresApproval);
  }

  lemma SettingAField(r: Rule, s: Rule, f: Field, g: Field)
    ensures FieldOf(WithField(r, f, FieldOf(s, f)), g) == if g == f then FieldOf(s, f) else FieldOf(r, g)
  {}

  lemma FieldStep(c: Content, m: Content, id: string, r: Rule, f: Field, was: FieldValue, v: FieldValue)
    requires id in c.rules && m == c.(rules := c.rules[id := r])
    ensures Patched(m, FieldChanged(id, f, was, v)) == c.(rules := c.rules[id := WithField(r, f, v)])
  {
    hide WithField;
    assert c.rules[id := r][id := WithField(r, f, v)] == c.rules[id := WithField(r, f, v)];
  }

  /** The old rule with some fields of the new one. */
  function Mixed(before: Rule, after: Rule, fields: seq<Field>): Rule {
    if fields == [] then before
    else
      var r, f := Mixed(before, after, fields[..|fields| - 1]), fields[|fields| - 1];
      if FieldOf(before, f) != FieldOf(after, f) then WithField(r, f, FieldOf(after, f)) else r
  }

  lemma {:induction false} MixedFields(before: Rule, after: Rule, fields: seq<Field>, g: Field)
    ensures FieldOf(Mixed(before, after, fields), g) == if g in fields then FieldOf(after, g) else FieldOf(before, g)
  {
    if fields != [] {
      var front, f := fields[..|fields| - 1], fields[|fields| - 1];
      assert fields == front + [f];
      MixedFields(before, after, front, g);
      SettingAField(Mixed(before, after, front), after, f, g);
      hide FieldOf, WithField;
    }
  }

  /** The changes of some fields put the new values of those fields into the rule. */
  lemma {:induction false} FieldChangesPatch(c: Content, before: Rule, after: Rule, fields: seq<Field>)
    requires before.id in c.rules && c.rules[before.id] == before
    ensures PatchedAll(c, FieldChanges(before, after, fields)) == c.(rules := c.rules[before.id := Mixed(before, after, fields)])
  {
    hide FieldOf, WithField, Patched;
    if fields == [] {
      assert c.rules[before.id := before] == c.rules;
    } else {
      var front, f := fields[..|fields| - 1], fields[|fields| - 1];
      FieldChangesPatch(c, before, after, front);
      OneMore(c, FieldChanges(before, after, front), FieldOf(before, f) != FieldOf(after, f),
              FieldChanged(before.id, f, FieldOf(before, f), FieldOf(after, f)));
      FieldStep(c, PatchedAll(c, FieldChanges(before, after, front)), before.id, Mixed(before, after, front), f, FieldOf(before, f), FieldOf(after, f));
      hide PatchedAll;
    }
  }

  lemma OneMore(c: Content, changes: seq<Change>, changed: bool, change: Change)
    ensures PatchedAll(c, changes + When(changed, change)) == if changed then Patched(PatchedAll(c, changes), change) else PatchedAll(c, changes)
  {
    PatchesCompose(c, changes, When(changed, change));
    assert PatchedAll(PatchedAll(c, changes), [change]) == Patched(PatchedAll(c, changes), change) by {
      assert [change][..0] == [];
    }
  }

  ghost predicate Keyed(rules: map<string, Rule>) { forall id :: id in rules ==> rules[id].id == id }

  /** After the changes of the listed ids, those rules are the new ones. */
  lemma {:induction false} RuleChangesPatch(c: Content, after: map<string, Rule>, ids: seq<string>)
    requires Keyed(c.rules) && Keyed(after) && forall i, j :: 0 <= i < j < |ids| ==> ids[i] != ids[j]
    ensures var n := PatchedAll(c, AllRuleChanges(c.rules, after, ids));
            && n == c.(rules := n.rules)
            && forall id :: Found(n.rules, id) == if id in ids then Found(after, id) else Found(c.rules, id)
    decreases |ids|
  {
    if ids != [] {
      var front, last := ids[..|ids| - 1], ids[|ids| - 1];
      assert ids == front + [last] && last !in front;
      RuleChangesPatch(c, after, front);
      var m := PatchedAll(c, AllRuleChanges(c.rules, after, front));
      PatchesCompose(c, AllRuleChanges(c.rules, after, front), RuleChanges(c.rules, after, last));
      assert Found(m.rules, last) == Found(c.rules, last);
      OneRulePatches(m, c.rules, after, last);
    }
  }

  lemma OneRulePatches(m: Content, before: map<string, Rule>, after: map<string, Rule>, id: string)
    requires Keyed(before) && Keyed(after) && Found(m.rules, id) == Found(before, id)
    ensures var n := PatchedAll(m, RuleChanges(before, after, id));
            && n == m.(rules := n.rules)
            && forall other :: Found(n.rules, other) == if other == id then Found(after, id) else Found(m.rules, other)
  {
    if id in before && id in after {
      FieldChangesPatch(m, before[id], after[id], Fields());
      AllFieldsMixed(before[id], after[id]);
    } else {
      var change := RuleChanged(id, Found(before, id), Found(after, id));
      assert [change][..0] == [] && PatchedAll(m, [change]) == Patched(m, change);
    }
  }

  lemma AllFieldsMixed(before: Rule, after: Rule)
    ensures Mixed(before, after, Fields()) == after
  {
    hide FieldOf, Fields, Mixed;
    forall f | f in Fields() ensures FieldOf(Mixed(before, after, Fields()), f) == FieldOf(after, f) {
      MixedFields(before, after, Fields(), f);
    }
    FieldsDetermine(Mixed(before, after, Fields()), after);
  }

  lemma {:induction false} ByIdIsKeyed(rules: seq<Rule>)
    ensures Keyed(ById(rules))
  {
    if rules != [] { ByIdIsKeyed(rules[..|rules| - 1]); }
  }

  lemma SameFindings(a: map<string, Rule>, b: map<string, Rule>)
    requires forall id :: Found(a, id) == Found(b, id)
    ensures a == b
  {
    forall id ensures id in a <==> id in b { assert Found(a, id) == Found(b, id); }
    forall id | id in a ensures a[id] == b[id] { assert Found(a, id) == Found(b, id); }
  }

  lemma IdsOfBoth(a: set<string>, b: set<string>, ids: seq<string>)
    requires ids == Sorted(a + b)
    ensures forall i, j :: 0 <= i < j < |ids| ==> ids[i] != ids[j]
    ensures forall id :: id in ids <==> id in a || id in b
  {
    forall i, j | 0 <= i < j < |ids| ensures ids[i] != ids[j] { BeforeIsStrict(ids[i], ids[j]); }
    forall id ensures id in ids <==> id in a || id in b { assert id in Text.Members(ids) <==> id in ids; }
  }

  lemma RulesPatch(c: Content, after: map<string, Rule>)
    requires Keyed(c.rules) && Keyed(after)
    ensures PatchedAll(c, AllRuleChanges(c.rules, after, Sorted(c.rules.Keys + after.Keys))) == c.(rules := after)
  {
    hide Sorted, AllRuleChanges, PatchedAll, Keyed;
    var ids := Sorted(c.rules.Keys + after.Keys);
    IdsOfBoth(c.rules.Keys, after.Keys, ids);
    RuleChangesPatch(c, after, ids);
    SameFindings(PatchedAll(c, AllRuleChanges(c.rules, after, ids)).rules, after);
  }

  lemma NamePatches(a: Content, policyId: string, version: string)
    ensures PatchedAll(a, When(a.policyId != policyId, IdChanged(a.policyId, policyId)) + When(a.version != version, VersionChanged(a.version, version)))
         == a.(policyId := policyId, version := version)
  {
    var first := When(a.policyId != policyId, IdChanged(a.policyId, policyId));
    assert [] + first == first && PatchedAll(a, []) == a;
    hide PatchedAll, When;
    OneMore(a, [], a.policyId != policyId, IdChanged(a.policyId, policyId));
    OneMore(a, first, a.version != version, VersionChanged(a.version, version));
  }

  lemma TailPatches(a: Content, changes: seq<Change>, c: Content, roles: seq<string>, default: DecisionKind)
    requires PatchedAll(a, changes) == c
    ensures PatchedAll(a, changes + When(c.roles != roles, RolesChanged(c.roles, roles)) + When(c.default != default, DefaultChanged(c.default, default)))
         == c.(roles := roles, default := default)
  {
    hide PatchedAll, When;
    OneMore(a, changes, c.roles != roles, RolesChanged(c.roles, roles));
    OneMore(a, changes + When(c.roles != roles, RolesChanged(c.roles, roles)), c.default != default, DefaultChanged(c.default, default));
  }

  /** The difference is a complete patch: applied to the first content it gives the second. */
  lemma DifferencePatches(a: Content, b: Content)
    requires Keyed(a.rules) && Keyed(b.rules)
    ensures PatchedAll(a, Difference(a, b)) == b
  {
    hide Sorted, AllRuleChanges, PatchedAll, When, Keyed;
    var names := When(a.policyId != b.policyId, IdChanged(a.policyId, b.policyId)) + When(a.version != b.version, VersionChanged(a.version, b.version));
    var rules := AllRuleChanges(a.rules, b.rules, Sorted(a.rules.Keys + b.rules.Keys));
    var named := a.(policyId := b.policyId, version := b.version);
    NamePatches(a, b.policyId, b.version);
    PatchesCompose(a, names, rules);
    RulesPatch(named, b.rules);
    TailPatches(a, names + rules, named.(rules := b.rules), b.roles, b.default);
  }

  lemma {:induction false} NoFieldChanges(r: Rule, s: Rule, fields: seq<Field>)
    requires r == s
    ensures FieldChanges(r, s, fields) == []
  {
    if fields != [] { NoFieldChanges(r, s, fields[..|fields| - 1]); }
  }

  lemma {:induction false} NoRuleChanges(rules: map<string, Rule>, ids: seq<string>)
    requires forall i :: 0 <= i < |ids| ==> ids[i] in rules
    ensures AllRuleChanges(rules, rules, ids) == []
  {
    if ids != [] {
      NoRuleChanges(rules, ids[..|ids| - 1]);
      NoFieldChanges(rules[ids[|ids| - 1]], rules[ids[|ids| - 1]], Fields());
    }
  }

  /** There is a change exactly when something differs. */
  lemma NoChangeMeansEqual(a: Content, b: Content)
    requires Keyed(a.rules) && Keyed(b.rules)
    ensures Difference(a, b) == [] <==> a == b
  {
    if Difference(a, b) == [] {
      DifferencePatches(a, b);
    } else if a == b {
      var ids := Sorted(a.rules.Keys + b.rules.Keys);
      forall i | 0 <= i < |ids| ensures ids[i] in a.rules { assert ids[i] in Text.Members(ids); }
      NoRuleChanges(a.rules, ids);
    }
  }

  // ------------------------------------------------------- compiled bundles

  lemma {:induction false} ByIdFinds(rules: seq<Rule>, i: nat)
    requires AscendingIds(rules) && i < |rules|
    ensures rules[i].id in ById(rules) && ById(rules)[rules[i].id] == rules[i]
  {
    var front, last := rules[..|rules| - 1], rules[|rules| - 1];
    if i < |front| {
      ByIdFinds(front, i);
      BeforeIsStrict(rules[i].id, last.id);
    }
  }

  lemma {:induction false} ByIdKeys(rules: seq<Rule>)
    ensures ById(rules).Keys == Text.Members(Ids(rules))
  {
    if rules != [] {
      ByIdKeys(rules[..|rules| - 1]);
      assert Ids(rules) == Ids(rules[..|rules| - 1]) + [rules[|rules| - 1].id];
    }
  }

  /** Rules in ascending order are determined by their table. */
  lemma TableDetermines(a: seq<Rule>, b: seq<Rule>)
    requires AscendingIds(a) && AscendingIds(b) && ById(a) == ById(b)
    ensures a == b
  {
    ByIdKeys(a);
    ByIdKeys(b);
    AscendingIsUnique(Ids(a), Ids(b));
    assert |a| == |Ids(a)| == |Ids(b)| == |b|;
    forall i | 0 <= i < |a| ensures a[i] == b[i] {
      assert Ids(a)[i] == a[i].id && Ids(b)[i] == b[i].id;
      ByIdFinds(a, i);
      ByIdFinds(b, i);
    }
  }

  lemma CompiledIsAscending(b: BundleRecord)
    requires Compiles(b)
    ensures AscendingIds(b.semantics.rules) && Keyed(ById(b.semantics.rules))
  {
    SortAscends(Versioning.Parser.Parsed(b.source).value);
    ByIdIsKeyed(b.semantics.rules);
  }

  /** Between compiled bundles the change list is empty exactly when they agree in
      identity, version and semantics, and otherwise it rebuilds the second from the first. */
  lemma DifferenceIsComplete(a: BundleRecord, b: BundleRecord)
    requires Compiles(a) && Compiles(b)
    ensures PatchedAll(ContentOf(a), Difference(ContentOf(a), ContentOf(b))) == ContentOf(b)
    ensures Difference(ContentOf(a), ContentOf(b)) == [] <==>
              a.policyId == b.policyId && a.version == b.version && a.semantics == b.semantics
  {
    hide Compiles, Difference, PatchedAll;
    CompiledIsAscending(a);
    CompiledIsAscending(b);
    DifferencePatches(ContentOf(a), ContentOf(b));
    NoChangeMeansEqual(ContentOf(a), ContentOf(b));
    if ContentOf(a) == ContentOf(b) { TableDetermines(a.semantics.rules, b.semantics.rules); }
  }
}
