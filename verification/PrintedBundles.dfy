/** Bundles that are made of printed law texts: they compile, and hold the rules of
    their laws. */
module PrintedBundles {
  import opened Text
  import opened LawText
  import opened Model
  import opened Rules
  import opened Composition
  import opened Inheritance
  import opened Compiler
  import opened Versions
  import opened Versioning
  import opened PolicyDiff
  import P = Parser

  /** Printed laws with distinct ids, without parents or approvals, that block what
      they are violated by. */
  predicate Simple(laws: seq<P.LawSpec>) {
    && laws != []
    && (forall i :: 0 <= i < |laws| ==> P.Plain(laws[i]))
    && (forall i :: 0 <= i < |laws| ==> !Truthy(laws[i].requiresApproval) && !Truthy(laws[i].parent) && laws[i].disposition.None?)
    && (forall i, j :: 0 <= i < j < |laws| ==> laws[i].id != laws[j].id)
  }

  /** The bundle made of a printed text, with the default that allows. */
  ghost function Printed(laws: seq<P.LawSpec>, v: Version): BundleRecord
    requires Simple(laws)
  {
    BundleRecord("p", VersionText(v), JoinLines(P.Blocks(laws)), SemanticsOf(P.RulesOf(laws), {}, Allow), map[])
  }

  lemma SimpleRules(laws: seq<P.LawSpec>, i: nat)
    requires Simple(laws) && i < |laws|
    ensures var r := P.RulesOf(laws)[i];
            && r.id == laws[i].id && r.capability == laws[i].capability
            && r.parent.None? && r.requiresApproval.None? && r.requirement.None? && r.disposition.BlockIt?
  {
    hide P.Plain;
  }

  lemma {:induction false} TableOfSimple(rules: seq<Rule>)
    requires forall i :: 0 <= i < |rules| ==> rules[i].parent.None?
    ensures forall id :: id in ById(rules) ==> ById(rules)[id].parent.None?
  {
    if rules != [] { TableOfSimple(rules[..|rules| - 1]); }
  }

  lemma ParentlessIsAcyclic(rules: map<string, Rule>)
    requires forall id :: id in rules ==> rules[id].parent.None?
    ensures LinksOk(rules) && AcyclicLinks(rules)
  {}

  lemma SimpleIsEnforceable(laws: seq<P.LawSpec>)
    requires Simple(laws)
    ensures Enforceable(CompiledPolicy(P.RulesOf(laws), {}, Allow), Some({}))
  {
    var rules := P.RulesOf(laws);
    forall i | 0 <= i < |rules|
      ensures rules[i].id == laws[i].id && rules[i].parent.None? && rules[i].disposition.BlockIt? && RolesKnown(rules[i], Some({}))
    {
      SimpleRules(laws, i);
    }
    hide P.RulesOf, P.Plain, SignatureOf, RolesKnown;
    TableOfSimple(rules);
    ParentlessIsAcyclic(ById(rules));
    hide ById, LinksOk, AcyclicLinks;
  }

  lemma {:induction false} StripRightKeepsStart(s: string)
    requires s != [] && !IsSpace(s[0])
    ensures StripRight(s) != []
    decreases |s|
  {
    if IsSpace(s[|s| - 1]) { StripRightKeepsStart(s[..|s| - 1]); }
  }

  lemma PrintedIsNotBlank(laws: seq<P.LawSpec>)
    requires Simple(laws)
    ensures Strip(JoinLines(P.Blocks(laws))) != ""
  {
    var first, source := laws[0], JoinLines(P.Blocks(laws));
    assert first.id != [] && !IsSpace(first.id[0]) by { assert P.Plain(first); }
    hide Simple, P.Plain, P.Fields, P.FieldLines;
    var block := JoinLines(P.LawLines(first));
    assert P.LawLines(first)[0] == first.id && P.Blocks(laws)[0] == block;
    assert block != [] && block[0] == first.id[0];
    assert source != [] && source[0] == block[0];
    StripRightKeepsStart(source);
  }

  lemma PrintedCompiles(laws: seq<P.LawSpec>, v: Version)
    requires Simple(laws)
    ensures IsBundle(Printed(laws, v)) && Compiles(Printed(laws, v))
  {
    VersionRoundTrip(v);
    PrintedIsNotBlank(laws);
    P.LawTextRoundTrip(laws);
    SimpleIsEnforceable(laws);
    hide P.Plain, P.Parsed, P.RulesOf, P.Blocks, JoinLines, Strip, Enforceable, VersionKey, VersionText, SortById;
    assert Text.Members(Sorted({})) == {};
  }

  /** The contents of a printed bundle are the rules of its laws. */
  lemma PrintedHas(laws: seq<P.LawSpec>, v: Version, i: nat)
    requires Simple(laws) && i < |laws|
    ensures var rules := ById(Printed(laws, v).semantics.rules);
            laws[i].id in rules && rules[laws[i].id].capability == laws[i].capability
  {
    var rules := P.RulesOf(laws);
    var sorted := SortById(rules);
    SimpleRules(laws, i);
    assert DistinctIds(rules) by { SimpleIsEnforceable(laws); }
    hide P.Plain, ById, P.Blocks, SortById, JoinLines, VersionText, P.RuleOf;
    SortPermutes(rules);
    SortAscends(rules);
    assert rules[i] in multiset(rules);
    var k :| 0 <= k < |sorted| && sorted[k] == rules[i];
    ByIdFinds(sorted, k);
  }

  lemma NoneSorted(rules: seq<Rule>, id: string)
    requires forall k :: 0 <= k < |rules| ==> rules[k].id != id
    ensures id !in Text.Members(Ids(SortById(rules)))
  {
    var sorted := SortById(rules);
    hide SortById;
    SortPermutes(rules);
    forall k | 0 <= k < |sorted| ensures sorted[k].id != id {
      assert sorted[k] in multiset(sorted);
      var j :| 0 <= j < |rules| && rules[j] == sorted[k];
    }
  }

  lemma PrintedHasNoOther(laws: seq<P.LawSpec>, v: Version, id: string)
    requires Simple(laws) && forall k :: 0 <= k < |laws| ==> laws[k].id != id
    ensures id !in ById(Printed(laws, v).semantics.rules)
  {
    var rules := P.RulesOf(laws);
    assert forall k :: 0 <= k < |rules| ==> rules[k].id == laws[k].id;
    hide P.Plain, P.Blocks, SortById, JoinLines, VersionText, P.RuleOf, P.RulesOf, ById, Ids;
    NoneSorted(rules, id);
    ByIdKeys(SortById(rules));
  }

  function Law(id: string, capability: string): P.LawSpec {
    P.LawSpec(id, capability, None, None, [], None, None, None)
  }
}
