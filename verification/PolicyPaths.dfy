/** The paths under which a difference reports its changes: what exactly they leave
    ambiguous (governance/versioning.py). */
module PolicyPaths {
  import opened Text
  import opened LawText
  import opened Model
  import opened Rules
  import opened Composition
  import opened Inheritance
  import opened Compiler
  import opened Versions
  import opened Versioning
  import opened PolicyDiff
  import opened PrintedBundles
  import P = Parser

  function FieldName(f: Field): string {
    match f
    case Requirement => "approval_requirement"
    case Capability => "capability"
    case DispositionField => "disposition"
    case Forbidden => "forbidden_classes"
    case Id => "id"
    case MinAuthority => "min_authority"
    case Parent => "parent_id"
    case Predicate => "predicate"
    case RequiresApproval => "requires_approval"
  }

  /** The path that a change is reported under. */
  function Path(c: Change): string {
    match c
    case IdChanged(_, _) => "policy_id"
    case VersionChanged(_, _) => "policy_version"
    case RuleChanged(id, _, _) => "rules." + id
    case FieldChanged(id, f, _, _) => "rules." + (id + ("." + FieldName(f)))
    case RolesChanged(_, _) => "roles"
    case DefaultChanged(_, _) => "default_decision"
  }

  /** What a change is about. */
  datatype Subject = PolicyId | PolicyVersion | WholeRule(id: string) | RuleField(id: string, field: Field) | Roles | DefaultDecision

  function About(c: Change): Subject {
    match c
    case IdChanged(_, _) => PolicyId
    case VersionChanged(_, _) => PolicyVersion
    case RuleChanged(id, _, _) => WholeRule(id)
    case FieldChanged(id, f, _, _) => RuleField(id, f)
    case RolesChanged(_, _) => Roles
    case DefaultChanged(_, _) => DefaultDecision
  }

  /** The id that a rule would need to be taken for a field of another. */
  function FieldId(id: string, f: Field): string { id + ("." + FieldName(f)) }

  /** The whole rule that `c` is about is named like the field that `d` is about. */
  predicate NamesField(c: Change, d: Change) { c.RuleChanged? && d.FieldChanged? && c.ruleId == FieldId(d.ruleId, d.field) }

  lemma FieldNames(f: Field, g: Field)
    ensures FieldName(f) == FieldName(g) ==> f == g
    ensures forall i :: 0 <= i < |FieldName(f)| ==> FieldName(f)[i] != '.'
  {}

  /** A field name has no dot, so the last dot of a field's path is the one before it. */
  lemma FieldIdParts(x: string, f: Field, y: string, g: Field)
    ensures FieldId(x, f) == FieldId(y, g) <==> x == y && f == g
  {
    FieldNames(f, g);
    FieldNames(g, f);
    hide FieldName;
    var p := FieldId(x, f);
    if p == FieldId(y, g) {
      assert p[|x|] == '.' && p[|y|] == '.';
      assert |x| == |y|;
      assert x == p[..|x|] == y && FieldName(f) == p[|x| + 1..] == FieldName(g);
    }
  }

  lemma Prefixed(x: string, y: string)
    ensures "rules." + x == "rules." + y <==> x == y
  {
    assert ("rules." + x)[6..] == x && ("rules." + y)[6..] == y;
  }

  lemma RulePathsApart(c: Change)
    ensures if c.RuleChanged? || c.FieldChanged? then |Path(c)| >= 6 && Path(c)[5] == '.' else |Path(c)| < 6 || Path(c)[5] != '.'
  {
    hide FieldName;
  }

  /** Two changes share a path exactly when they are about the same, or one is about a
      whole rule that is named like the field that the other is about. */
  lemma PathsMeetExactly(c: Change, d: Change)
    ensures Path(c) == Path(d) <==> About(c) == About(d) || NamesField(c, d) || NamesField(d, c)
  {
    RulePathsApart(c);
    RulePathsApart(d);
    hide FieldName;
    if (c.RuleChanged? || c.FieldChanged?) && (d.RuleChanged? || d.FieldChanged?) {
      var x := if c.RuleChanged? then c.ruleId else FieldId(c.ruleId, c.field);
      var y := if d.RuleChanged? then d.ruleId else FieldId(d.ruleId, d.field);
      Prefixed(x, y);
      if c.FieldChanged? && d.FieldChanged? { FieldIdParts(c.ruleId, c.field, d.ruleId, d.field); }
    }
  }

  predicate Undotted(id: string) { forall i :: 0 <= i < |id| ==> id[i] != '.' }

  /** Rule ids without a dot keep the paths of all changes apart. */
  lemma UndottedPathsDiffer(c: Change, d: Change)
    requires c.RuleChanged? || c.FieldChanged? ==> Undotted(c.ruleId)
    requires d.RuleChanged? || d.FieldChanged? ==> Undotted(d.ruleId)
    ensures Path(c) == Path(d) <==> About(c) == About(d)
  {
    PathsMeetExactly(c, d);
    hide FieldName, Path;
    if d.FieldChanged? { assert FieldId(d.ruleId, d.field)[|d.ruleId|] == '.'; }
    if c.FieldChanged? { assert FieldId(c.ruleId, c.field)[|c.ruleId|] == '.'; }
  }

  // ------------------------------------------------------ what is listed

  /** What a difference ought to list. */
  ghost predicate Due(a: Content, b: Content, c: Change) {
    match c
    case IdChanged(x, y) => a.policyId != b.policyId && x == a.policyId && y == b.policyId
    case VersionChanged(x, y) => a.version != b.version && x == a.version && y == b.version
    case RuleChanged(id, x, y) => (id in a.rules <==> id !in b.rules) && x == Found(a.rules, id) && y == Found(b.rules, id)
    case FieldChanged(id, f, x, y) =>
      && id in a.rules && id in b.rules && FieldOf(a.rules[id], f) != FieldOf(b.rules[id], f)
      && x == FieldOf(a.rules[id], f) && y == FieldOf(b.rules[id], f)
    case RolesChanged(x, y) => a.roles != b.roles && x == a.roles && y == b.roles
    case DefaultChanged(x, y) => a.default != b.default && x == a.default && y == b.default
  }

  lemma {:induction false} FieldsListed(before: Rule, after: Rule, fields: seq<Field>, c: Change)
    ensures c in FieldChanges(before, after, fields)
            <==> (&& c.FieldChanged? && c.ruleId == before.id && c.field in fields && c.was == FieldOf(before, c.field)
                  && c.becomes == FieldOf(after, c.field) && c.was != c.becomes)
  {
    hide FieldOf;
    if fields != [] {
      FieldsListed(before, after, fields[..|fields| - 1], c);
      assert fields == fields[..|fields| - 1] + [fields[|fields| - 1]];
    }
  }

  lemma {:induction false} RulesListed(before: map<string, Rule>, after: map<string, Rule>, ids: seq<string>, c: Change)
    ensures c in AllRuleChanges(before, after, ids) <==> exists id :: id in ids && c in RuleChanges(before, after, id)
  {
    hide RuleChanges;
    if ids != [] {
      var front, last := ids[..|ids| - 1], ids[|ids| - 1];
      RulesListed(before, after, front, c);
      assert ids == front + [last];
      assert c in AllRuleChanges(before, after, ids) <==> c in AllRuleChanges(before, after, front) || c in RuleChanges(before, after, last);
    }
  }

  lemma RuleListed(a: map<string, Rule>, b: map<string, Rule>, id: string, c: Change)
    requires Keyed(a) && (id in a || id in b)
    ensures c in RuleChanges(a, b, id)
            <==> (|| (c.RuleChanged? && c.ruleId == id && (id in a <==> id !in b) && c.before == Found(a, id) && c.after == Found(b, id))
                  || (&& c.FieldChanged? && c.ruleId == id && id in a && id in b
                      && c.was == FieldOf(a[id], c.field) && c.becomes == FieldOf(b[id], c.field) && c.was != c.becomes))
  {
    hide FieldOf, FieldChanges;
    if id in a && id in b {
      FieldsListed(a[id], b[id], Fields(), c);
      if c.FieldChanged? { EveryField(c.field); }
    }
  }

  lemma EveryField(f: Field)
    ensures f in Fields()
  {
    match f
    case Requirement => assert Fields()[0] == f;
    case Capability => assert Fields()[1] == f;
    case DispositionField => assert Fields()[2] == f;
    case Forbidden => assert Fields()[3] == f;
    case Id => assert Fields()[4] == f;
    case MinAuthority => assert Fields()[5] == f;
    case Parent => assert Fields()[6] == f;
    case Predicate => assert Fields()[7] == f;
    case RequiresApproval => assert Fields()[8] == f;
  }

  lemma AllRulesListed(a: Content, b: Content, c: Change)
    requires Keyed(a.rules)
    ensures c in AllRuleChanges(a.rules, b.rules, Sorted(a.rules.Keys + b.rules.Keys))
            <==> (c.RuleChanged? || c.FieldChanged?) && Due(a, b, c)
  {
    var ids := Sorted(a.rules.Keys + b.rules.Keys);
    IdsOfBoth(a.rules.Keys, b.rules.Keys, ids);
    RulesListed(a.rules, b.rules, ids, c);
    hide Sorted, FieldOf, RuleChanges, AllRuleChanges, Keyed;
    forall id | id in ids { RuleListed(a.rules, b.rules, id, c); }
    if c.RuleChanged? || c.FieldChanged? { assert Due(a, b, c) ==> c.ruleId in ids; }
  }

  /** A difference lists exactly what differs. */
  lemma ListedExactly(a: Content, b: Content, c: Change)
    requires Keyed(a.rules)
    ensures c in Difference(a, b) <==> Due(a, b, c)
  {
    hide Sorted, FieldOf, AllRuleChanges, Keyed;
    AllRulesListed(a, b, c);
  }

  /** A field's value, by the name under which it is reported. */
  predicate IsNamed(r: Rule, name: string, v: FieldValue) {
    || (name == "approval_requirement" && v == QuorumValue(r.requirement))
    || (name == "capability" && v == TextValue(r.capability))
    || (name == "disposition" && v == DispositionValue(r.disposition))
    || (name == "forbidden_classes" && v == ClassesValue(r.forbidden))
    || (name == "id" && v == TextValue(r.id))
    || (name == "min_authority" && v == LevelValue(r.minAuthority))
    || (name == "parent_id" && v == MaybeValue(r.parent))
    || (name == "predicate" && v == PredicateValue(r.condition))
    || (name == "requires_approval" && v == MaybeValue(r.requiresApproval))
  }

  lemma FieldsAreNamed(r: Rule, f: Field, v: FieldValue)
    ensures IsNamed(r, FieldName(f), v) <==> v == FieldOf(r, f)
  {}

  /** What is reported first: the identity, the version, the rules in the order of their ids
      and each rule's fields in the order of their names, the roles, the default. */
  predicate Sooner(c: Change, d: Change) {
    match c
    case IdChanged(_, _) => !d.IdChanged?
    case VersionChanged(_, _) => !d.IdChanged? && !d.VersionChanged?
    case RuleChanged(id, _, _) => d.RolesChanged? || d.DefaultChanged? || ((d.RuleChanged? || d.FieldChanged?) && Before(id, d.ruleId))
    case FieldChanged(id, f, _, _) =>
      || d.RolesChanged? || d.DefaultChanged? || ((d.RuleChanged? || d.FieldChanged?) && Before(id, d.ruleId))
      || (d.FieldChanged? && d.ruleId == id && Before(FieldName(f), FieldName(d.field)))
    case RolesChanged(_, _) => d.DefaultChanged?
    case DefaultChanged(_, _) => false
  }

  predicate InOrder(changes: seq<Change>) { forall i, j :: 0 <= i < j < |changes| ==> Sooner(changes[i], changes[j]) }

  lemma OrderJoins(a: seq<Change>, b: seq<Change>)
    requires InOrder(a) && InOrder(b) && forall c, d :: c in a && d in b ==> Sooner(c, d)
    ensures InOrder(a + b)
  {
    hide Sooner;
    forall i, j | 0 <= i < j < |a + b| ensures Sooner((a + b)[i], (a + b)[j]) {
      if i < |a| <= j { assert a[i] in a && b[j - |a|] in b; }
    }
  }

  predicate NamesAscend(fields: seq<Field>) { forall i, j :: 0 <= i < j < |fields| ==> Before(FieldName(fields[i]), FieldName(fields[j])) }

  lemma {:induction false} FieldsInOrder(before: Rule, after: Rule, fields: seq<Field>)
    requires NamesAscend(fields)
    ensures InOrder(FieldChanges(before, after, fields))
  {
    hide FieldOf, FieldName;
    if fields != [] {
      var front, f := fields[..|fields| - 1], fields[|fields| - 1];
      FieldsInOrder(before, after, front);
      var last := When(FieldOf(before, f) != FieldOf(after, f), FieldChanged(before.id, f, FieldOf(before, f), FieldOf(after, f)));
      forall c | c in FieldChanges(before, after, front) ensures c.FieldChanged? && c.ruleId == before.id && Before(FieldName(c.field), FieldName(f)) {
        FieldsListed(before, after, front, c);
        var i :| 0 <= i < |front| && front[i] == c.field;
        assert fields[i] == front[i];
      }
      OrderJoins(FieldChanges(before, after, front), last);
    }
  }

  lemma NextBefore(a: string, b: string)
    requires a != [] && b != [] && a[0] < b[0]
    ensures Before(a, b)
  {}

  /** The fields are listed by name. */
  lemma FieldsAreAscending()
    ensures NamesAscend(Fields())
  {
    var names := seq(|Fields()|, i requires 0 <= i < |Fields()| => FieldName(Fields()[i]));
    assert names == ["approval_requirement", "capability", "disposition", "forbidden_classes", "id", "min_authority", "parent_id", "predicate", "requires_approval"];
    assert Before("arent_id", "redicate") && Before("parent_id", "predicate");
    forall i, j | 0 <= i < j < |names| ensures Before(names[i], names[j]) {
      if !(i == 6 && j == 7) { NextBefore(names[i], names[j]); }
    }
    forall i, j | 0 <= i < j < |Fields()| ensures Before(FieldName(Fields()[i]), FieldName(Fields()[j])) {
      assert names[i] == FieldName(Fields()[i]) && names[j] == FieldName(Fields()[j]);
    }
  }

  lemma RuleInOrder(a: map<string, Rule>, b: map<string, Rule>, id: string)
    ensures InOrder(RuleChanges(a, b, id))
  {
    FieldsAreAscending();
    if id in a && id in b { FieldsInOrder(a[id], b[id], Fields()); }
    hide FieldChanges, Fields, FieldOf;
  }

  lemma {:induction false} RulesInOrder(a: map<string, Rule>, b: map<string, Rule>, ids: seq<string>)
    requires Keyed(a) && Ascending(ids) && forall id :: id in ids ==> id in a || id in b
    ensures InOrder(AllRuleChanges(a, b, ids))
  {
    hide RuleChanges, Keyed;
    if ids != [] {
      var front, last := ids[..|ids| - 1], ids[|ids| - 1];
      assert ids == front + [last];
      RulesInOrder(a, b, front);
      RuleInOrder(a, b, last);
      forall c, d | c in AllRuleChanges(a, b, front) && d in RuleChanges(a, b, last) ensures Sooner(c, d) {
        RulesListed(a, b, front, c);
        var id :| id in front && c in RuleChanges(a, b, id);
        var i :| 0 <= i < |front| && front[i] == id;
        assert ids[i] == id && Before(id, last);
        RuleListed(a, b, id, c);
        RuleListed(a, b, last, d);
      }
      OrderJoins(AllRuleChanges(a, b, front), RuleChanges(a, b, last));
    }
  }

  /** A difference reports its changes in that order. */
  lemma ReportedInOrder(a: Content, b: Content)
    requires Keyed(a.rules)
    ensures InOrder(Difference(a, b))
  {
    var ids := Sorted(a.rules.Keys + b.rules.Keys);
    assert forall id :: id in ids <==> id in Text.Members(ids);
    RulesInOrder(a.rules, b.rules, ids);
    var rules := AllRuleChanges(a.rules, b.rules, ids);
    forall c | c in rules ensures c.RuleChanged? || c.FieldChanged? { AllRulesListed(a, b, c); }
    hide Sorted, AllRuleChanges, Keyed;
    PartsInOrder(When(a.policyId != b.policyId, IdChanged(a.policyId, b.policyId)), When(a.version != b.version, VersionChanged(a.version, b.version)),
                 rules,
                 When(a.roles != b.roles, RolesChanged(a.roles, b.roles)), When(a.default != b.default, DefaultChanged(a.default, b.default)));
  }

  lemma PartsInOrder(ids: seq<Change>, versions: seq<Change>, rules: seq<Change>, roles: seq<Change>, defaults: seq<Change>)
    requires |ids| <= 1 && |versions| <= 1 && |roles| <= 1 && |defaults| <= 1 && InOrder(rules)
    requires (forall c :: c in ids ==> c.IdChanged?) && (forall c :: c in versions ==> c.VersionChanged?)
    requires forall c :: c in rules ==> c.RuleChanged? || c.FieldChanged?
    requires (forall c :: c in roles ==> c.RolesChanged?) && (forall c :: c in defaults ==> c.DefaultChanged?)
    ensures InOrder(ids + versions + rules + roles + defaults)
  {
    OrderJoins(ids, versions);
    OrderJoins(ids + versions, rules);
    OrderJoins(ids + versions + rules, roles);
    OrderJoins(ids + versions + rules + roles, defaults);
  }

  // ------------------------------------------------------ ambiguous paths

  /** A field of a rule that both have differs, and only one has a rule named like it. */
  ghost predicate Overlap(a: Content, b: Content, id: string, f: Field) {
    && id in a.rules && id in b.rules && FieldOf(a.rules[id], f) != FieldOf(b.rules[id], f)
    && (FieldId(id, f) in a.rules <==> FieldId(id, f) !in b.rules)
  }

  ghost predicate Ambiguous(a: Content, b: Content) {
    exists c, d :: c in Difference(a, b) && d in Difference(a, b) && c != d && Path(c) == Path(d)
  }

  lemma OverlapIsAmbiguous(a: Content, b: Content, id: string, f: Field)
    requires Keyed(a.rules) && Overlap(a, b, id, f)
    ensures Ambiguous(a, b)
  {
    hide FieldName, FieldOf, Difference;
    var named := FieldId(id, f);
    var c := RuleChanged(named, Found(a.rules, named), Found(b.rules, named));
    var d := FieldChanged(id, f, FieldOf(a.rules[id], f), FieldOf(b.rules[id], f));
    ListedExactly(a, b, c);
    ListedExactly(a, b, d);
    assert Path(c) == Path(d);
  }

  /** Changes of one difference about the same are one change. */
  lemma SubjectDetermines(a: Content, b: Content, c: Change, d: Change)
    requires Due(a, b, c) && Due(a, b, d) && About(c) == About(d)
    ensures c == d
  {
    hide FieldOf;
  }

  lemma MeetingOverlaps(a: Content, b: Content, c: Change, d: Change)
    requires Keyed(a.rules) && c in Difference(a, b) && d in Difference(a, b) && c != d && Path(c) == Path(d)
    ensures exists id, f :: Overlap(a, b, id, f)
  {
    ListedExactly(a, b, c);
    ListedExactly(a, b, d);
    PathsMeetExactly(c, d);
    hide FieldOf, FieldName, Difference, Path;
    if About(c) == About(d) { SubjectDetermines(a, b, c, d); }
    if NamesField(c, d) { assert Overlap(a, b, d.ruleId, d.field); }
    if NamesField(d, c) { assert Overlap(a, b, c.ruleId, c.field); }
  }

  /** The paths of a difference are ambiguous exactly when a field of a common rule
      differs and exactly one of the bundles has a rule whose id is that field's path. */
  lemma AmbiguousExactly(a: BundleRecord, b: BundleRecord)
    requires Compiles(a) && Compiles(b)
    ensures Ambiguous(ContentOf(a), ContentOf(b)) <==> exists id, f :: Overlap(ContentOf(a), ContentOf(b), id, f)
  {
    hide Compiles, Difference, Overlap, Keyed;
    CompiledIsAscending(a);
    var x, y := ContentOf(a), ContentOf(b);
    if Ambiguous(x, y) {
      var c, d :| c in Difference(x, y) && d in Difference(x, y) && c != d && Path(c) == Path(d);
      MeetingOverlaps(x, y, c, d);
    }
    if id, f :| Overlap(x, y, id, f) { OverlapIsAmbiguous(x, y, id, f); }
  }

  // ---------------------------------------------- two bundles with such paths

  function One(): Version { Version(1, 0, 0) }

  lemma SampleLaw(capability: string)
    requires P.Token(capability)
    ensures P.Plain(Law("LAW-A", capability)) && P.Plain(Law(FieldId("LAW-A", Capability), capability))
  {
    var id := FieldId("LAW-A", Capability);
    assert id == "LAW-A.capability";
    assert LowerFour("LAW-A") && LowerFour(id);
  }

  predicate LowerFour(id: string) { |id| >= 4 && P.LoweredAscii(id[..4]) == "law-" }

  function First(): seq<P.LawSpec> { [Law("LAW-A", "pay"), Law(FieldId("LAW-A", Capability), "pay")] }

  function Second(): seq<P.LawSpec> { [Law("LAW-A", "read")] }

  lemma SamplesAreSimple()
    ensures Simple(First()) && Simple(Second())
  {
    SampleLaw("pay");
    SampleLaw("read");
    assert |FieldId("LAW-A", Capability)| > |"LAW-A"|;
    hide P.Plain, FieldName;
  }

  lemma FirstHolds()
    requires Simple(First())
    ensures var rules := ContentOf(Printed(First(), One())).rules;
            && "LAW-A" in rules && rules["LAW-A"].capability == "pay" && FieldId("LAW-A", Capability) in rules
  {
    hide Simple, FieldId, Printed, ById;
    PrintedHas(First(), One(), 0);
    PrintedHas(First(), One(), 1);
  }

  lemma SecondHolds()
    requires Simple(Second())
    ensures var rules := ContentOf(Printed(Second(), One())).rules;
            && "LAW-A" in rules && rules["LAW-A"].capability == "read" && FieldId("LAW-A", Capability) !in rules
  {
    assert |FieldId("LAW-A", Capability)| > |"LAW-A"|;
    hide Simple, FieldId, Printed, ById;
    PrintedHas(Second(), One(), 0);
    PrintedHasNoOther(Second(), One(), FieldId("LAW-A", Capability));
  }

  /** Two compiled bundles: the first has a rule that is named like the capability of
      its other rule; the second drops it and changes that capability. Both changes are
      reported under one path. */
  lemma CompiledPathsCollide() returns (a: BundleRecord, b: BundleRecord)
    ensures IsBundle(a) && Compiles(a) && IsBundle(b) && Compiles(b)
    ensures Ambiguous(ContentOf(a), ContentOf(b))
  {
    SamplesAreSimple();
    hide Simple, First, Second, One, FieldId, Compiles, IsBundle, Printed, ContentOf, Difference, Ambiguous;
    a, b := Printed(First(), One()), Printed(Second(), One());
    PrintedCompiles(First(), One());
    PrintedCompiles(Second(), One());
    FirstHolds();
    SecondHolds();
    var x, y := ContentOf(a), ContentOf(b);
    assert FieldOf(x.rules["LAW-A"], Capability) != FieldOf(y.rules["LAW-A"], Capability);
    assert Keyed(x.rules) by { PrintedIsKeyed(a); }
    hide FieldOf, Keyed;
    OverlapIsAmbiguous(x, y, "LAW-A", Capability);
  }

  lemma PrintedIsKeyed(b: BundleRecord)
    requires Compiles(b)
    ensures Keyed(ContentOf(b).rules)
  {
    hide Compiles;
    CompiledIsAscending(b);
  }
}
