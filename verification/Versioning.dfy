/** Policy bundles, their semantic difference, and the version store
    (governance/versioning.py). */
module Versioning {
  import opened Text
  import opened LawText
  import opened Model
  import opened Rules
  import opened Composition
  import opened Inheritance
  import opened Compiler
  import opened Versions
  import Parser

  /** The semantic part of a compiled policy: rules by id, roles in order, the default. */
  datatype Semantics = Semantics(rules: seq<Rule>, roles: seq<string>, default: DecisionKind)

  datatype BundleRecord = BundleRecord(policyId: string, version: string, source: string, semantics: Semantics, provenance: map<string, string>)

  /** The checks of `PolicyBundle.__post_init__`. */
  predicate IsBundle(b: BundleRecord) { b.policyId != "" && VersionKey(b.version).Some? && Strip(b.source) != "" }

  ghost function SemanticsOf(rules: seq<Rule>, roles: set<string>, default: DecisionKind): Semantics {
    Semantics(SortById(rules), Sorted(roles), default)
  }

  /** `compile`: the source gives an enforceable policy with these semantics. */
  ghost predicate Compiles(b: BundleRecord) {
    var parsed := Parser.Parsed(b.source);
    var roles := Text.Members(b.semantics.roles);
    && parsed.Ok? && Enforceable(CompiledPolicy(parsed.value, {}, b.semantics.default), Some(roles))
    && SemanticsOf(parsed.value, roles, b.semantics.default) == b.semantics
  }

  datatype BundleError = Malformed | Unparsable(error: Parser.ParseError) | NotCompilable(reason: CompileError) | SemanticsDiffer

  method Compile(b: BundleRecord) returns (res: Result<CompiledPolicy, BundleError>)
    ensures res.Ok? <==> Compiles(b)
    ensures res.Ok? ==> SortById(res.value.rules) == b.semantics.rules && res.value.default == b.semantics.default
    ensures Parser.Parsed(b.source).Err? ==> res == Err(Unparsable(Parser.Parsed(b.source).error))
  {
    var parsed := Parser.ParseLaws(b.source);
    if parsed.Err? { return Err(Unparsable(parsed.error)); }
    var roles := Text.Members(b.semantics.roles);
    hide Enforceable, Rejects, Sorted, SortById, Parser.Parsed;
    assert [] + parsed.value == parsed.value;
    var compiled := CompilePolicy(parsed.value, Some(roles), [], b.semantics.default);
    SameRolesEnforce(parsed.value, b.semantics.default, Some(roles));
    if compiled.Err? { return Err(NotCompilable(compiled.error)); }
    var listed := Listing(roles);
    if Semantics(SortById(compiled.value.rules), listed, compiled.value.default) != b.semantics { return Err(SemanticsDiffer); }
    return Ok(compiled.value);
  }

  lemma SameRolesEnforce(rules: seq<Rule>, default: DecisionKind, roles: Option<set<string>>)
    ensures forall listed :: Enforceable(CompiledPolicy(rules, listed, default), roles) == Enforceable(CompiledPolicy(rules, {}, default), roles)
  {}

  // ------------------------------------------------------------ from source

  ghost function ReferencedRoles(rules: seq<Rule>): set<string> {
    if rules == [] then {}
    else
      var last := rules[|rules| - 1];
      ReferencedRoles(rules[..|rules| - 1])
      + (if Truthy(last.requiresApproval) then {last.requiresApproval.value} else {})
      + (if last.requirement.Some? then Text.Members(last.requirement.value.roles) else {})
  }

  /** The roles that the rules ask. */
  lemma {:induction false} ReferencedExactly(rules: seq<Rule>, role: string)
    ensures role in ReferencedRoles(rules)
            <==> exists i :: 0 <= i < |rules| && Asks(rules[i], role)
  {
    if rules != [] {
      var front, last := rules[..|rules| - 1], rules[|rules| - 1];
      ReferencedExactly(front, role);
      if i :| 0 <= i < |front| && Asks(front[i], role) { assert rules[i] == front[i]; }
      if i :| 0 <= i < |rules| && Asks(rules[i], role) { assert i < |front| ==> front[i] == rules[i]; }
    }
  }

  predicate Asks(r: Rule, role: string) {
    (r.requiresApproval == Some(role) && role != "") || (r.requirement.Some? && role in r.requirement.value.roles)
  }

  lemma {:induction false} ReferencedAreKnown(rules: seq<Rule>, i: nat)
    requires i < |rules|
    ensures RolesKnown(rules[i], Some(ReferencedRoles(rules)))
  {
    var front := rules[..|rules| - 1];
    if i < |front| { ReferencedAreKnown(front, i); }
  }

  method CollectRoles(rules: seq<Rule>) returns (roles: set<string>)
    ensures roles == ReferencedRoles(rules)
  {
    roles := {};
    for k := 0 to |rules|
      invariant roles == ReferencedRoles(rules[..k])
    {
      var rule := rules[k];
      assert rules[..k + 1][..k] == rules[..k];
      if Truthy(rule.requiresApproval) { roles := roles + {rule.requiresApproval.value}; }
      if rule.requirement.Some? { roles := roles + Text.Members(rule.requirement.value.roles); }
    }
    assert rules[..|rules|] == rules;
  }

  lemma ReferencedRolesEnforce(rules: seq<Rule>, default: DecisionKind)
    requires Enforceable(CompiledPolicy(rules, {}, default), None)
    ensures Enforceable(CompiledPolicy(rules, {}, default), Some(ReferencedRoles(rules)))
  {
    forall i | 0 <= i < |rules| ensures RolesKnown(rules[i], Some(ReferencedRoles(rules))) { ReferencedAreKnown(rules, i); }
  }

  /** `from_source`: whatever bundle is made of a source compiles again, also when the
      roles were not given and are taken from the rules. */
  method FromSource(source: string, policyId: string, version: string, roles: Option<set<string>>, default: DecisionKind,
                    provenance: map<string, string>) returns (res: Result<BundleRecord, BundleError>)
    ensures res.Ok? <==>
              && Parser.Parsed(source).Ok? && Enforceable(CompiledPolicy(Parser.Parsed(source).value, {}, default), roles)
              && policyId != "" && VersionKey(version).Some? && Strip(source) != ""
    ensures res.Ok? ==> IsBundle(res.value) && Compiles(res.value) && res.value.policyId == policyId && res.value.version == version
    ensures res.Ok? ==>
              var known := if roles.Some? then roles.value else ReferencedRoles(Parser.Parsed(source).value);
              res.value == BundleRecord(policyId, version, source, SemanticsOf(Parser.Parsed(source).value, known, default), provenance)
    ensures Parser.Parsed(source).Err? ==> res == Err(Unparsable(Parser.Parsed(source).error))
    ensures Parser.Parsed(source).Ok? && !Enforceable(CompiledPolicy(Parser.Parsed(source).value, {}, default), roles) ==>
              res.Err? && res.error.NotCompilable? && Rejects(Parser.Parsed(source).value, roles, [], default, res.error.reason)
  {
    var parsed := Parser.ParseLaws(source);
    if parsed.Err? { return Err(Unparsable(parsed.error)); }
    var rules := parsed.value;
    hide Enforceable, Rejects, SortById, Sorted, Parser.Parsed, Strip, VersionKey, ReferencedRoles;
    assert [] + rules == rules;
    var compiled := CompilePolicy(rules, roles, [], default);
    if compiled.Err? { return Err(NotCompilable(compiled.error)); }
    SameRolesEnforce(rules, default, roles);
    var known: set<string>;
    if roles.Some? {
      known := roles.value;
    } else {
      known := CollectRoles(rules);
      ReferencedRolesEnforce(rules, default);
    }
    var listed := Listing(known);
    var b := BundleRecord(policyId, version, source, Semantics(SortById(rules), listed, default), provenance);
    if !IsBundle(b) { return Err(Malformed); }
    return Ok(b);
  }
}
