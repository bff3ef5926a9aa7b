/** Order-independent composition of rules (governance/composition.py). */
module Composition {
  import opened Text
  import opened Model
  import opened Rules

  /** An authority proof, when a delegation graph is consulted. */
  datatype Proof = Proof(allowed: bool, source: string, path: seq<string>)

  // ----------------------------------------------------------------- order

  predicate NotAfter(a: string, b: string) { a == b || Before(a, b) }

  function Insert(r: Rule, sorted: seq<Rule>): seq<Rule> {
    if sorted == [] then [r]
    else if NotAfter(r.id, sorted[0].id) then [r] + sorted
    else [sorted[0]] + Insert(r, sorted[1..])
  }

  /** `sorted(rules, key=id)`, stable. */
  function SortById(rules: seq<Rule>): seq<Rule> {
    if rules == [] then [] else Insert(rules[0], SortById(rules[1..]))
  }

  predicate DistinctIds(rules: seq<Rule>) {
    forall i, j :: 0 <= i < j < |rules| ==> rules[i].id != rules[j].id
  }

  ghost predicate AscendingIds(rules: seq<Rule>) {
    forall i, j :: 0 <= i < j < |rules| ==> Before(rules[i].id, rules[j].id)
  }

  lemma {:induction false} InsertPermutes(r: Rule, sorted: seq<Rule>)
    ensures multiset(Insert(r, sorted)) == multiset(sorted) + multiset{r}
  {
    if sorted != [] && !NotAfter(r.id, sorted[0].id) {
      InsertPermutes(r, sorted[1..]);
      assert sorted == [sorted[0]] + sorted[1..];
    }
  }

  lemma {:induction false} SortPermutes(rules: seq<Rule>)
    ensures multiset(SortById(rules)) == multiset(rules)
  {
    if rules != [] {
      SortPermutes(rules[1..]);
      InsertPermutes(rules[0], SortById(rules[1..]));
      assert rules == [rules[0]] + rules[1..];
    }
  }

  lemma {:induction false} InsertAscends(r: Rule, sorted: seq<Rule>)
    requires AscendingIds(sorted) && forall x :: x in sorted ==> x.id != r.id
    ensures AscendingIds(Insert(r, sorted))
  {
    if sorted != [] {
      BeforeIsStrict(r.id, sorted[0].id);
      if Before(r.id, sorted[0].id) {
        forall j | 0 <= j < |sorted| ensures Before(r.id, sorted[j].id) {
          if j > 0 { BeforeIsTransitive(r.id, sorted[0].id, sorted[j].id); }
        }
      } else {
        InsertAscends(r, sorted[1..]);
        InsertPermutes(r, sorted[1..]);
        var rest := Insert(r, sorted[1..]);
        forall j | 0 <= j < |rest| ensures Before(sorted[0].id, rest[j].id) {
          assert rest[j] in multiset(rest);
          assert rest[j] in sorted[1..] || rest[j] == r;
        }
      }
    }
  }

  lemma {:induction false} SortAscends(rules: seq<Rule>)
    requires DistinctIds(rules)
    ensures AscendingIds(SortById(rules))
  {
    if rules != [] {
      SortAscends(rules[1..]);
      SortPermutes(rules[1..]);
      forall x | x in SortById(rules[1..]) ensures x.id != rules[0].id {
        assert x in multiset(rules[1..]);
        var i :| 0 <= i < |rules[1..]| && rules[1..][i] == x;
        assert rules[i + 1] == x;
      }
      InsertAscends(rules[0], SortById(rules[1..]));
    }
  }

  lemma {:induction false} AscendingRulesAreUnique(a: seq<Rule>, b: seq<Rule>)
    requires AscendingIds(a) && AscendingIds(b) && multiset(a) == multiset(b)
    ensures a == b
  {
    assert |a| == |multiset(a)| == |multiset(b)| == |b|;
    if a != [] {
      SameHead(a, b);
      AscendingRulesAreUnique(a[1..], b[1..]);
      assert a == [a[0]] + a[1..] && b == [b[0]] + b[1..];
    }
  }

  lemma HeadIsLeast(a: seq<Rule>, r: Rule)
    requires AscendingIds(a) && r in a
    ensures a[0] == r || Before(a[0].id, r.id)
  {}

  lemma TailsAgree(a: seq<Rule>, b: seq<Rule>)
    requires multiset(a) == multiset(b) && a != [] && b != [] && a[0] == b[0]
    ensures multiset(a[1..]) == multiset(b[1..])
  {
    assert a == [a[0]] + a[1..] && b == [b[0]] + b[1..];
    assert multiset(a[1..]) == multiset(a) - multiset{a[0]};
    assert multiset(b[1..]) == multiset(b) - multiset{b[0]};
  }

  lemma SameHead(a: seq<Rule>, b: seq<Rule>)
    requires AscendingIds(a) && AscendingIds(b) && multiset(a) == multiset(b) && a != [] && b != []
    ensures a[0] == b[0] && multiset(a[1..]) == multiset(b[1..])
  {
    assert a[0] in multiset(b) && b[0] in multiset(a);
    HeadIsLeast(a, b[0]);
    HeadIsLeast(b, a[0]);
    hide AscendingIds;
    BeforeIsStrict(a[0].id, b[0].id);
    TailsAgree(a, b);
  }

  // ------------------------------------------------------------- resolution

  function Applicable(sorted: seq<Rule>, a: Action): seq<Rule> {
    if sorted == [] then []
    else if Applies(sorted[0], a) then [sorted[0]] + Applicable(sorted[1..], a)
    else Applicable(sorted[1..], a)
  }

  function Ids(rules: seq<Rule>): seq<string> {
    seq(|rules|, i requires 0 <= i < |rules| => rules[i].id)
  }

  /** `dict(results)[id]`: of rules that share an id the last one counts. */
  function ResultOf(applicable: seq<Rule>, id: string, a: Action, c: Context): Outcome {
    if applicable == [] then NotApplicable
    else
      var last := applicable[|applicable| - 1];
      if last.id == id then Evaluate(last, a, c) else ResultOf(applicable[..|applicable| - 1], id, a, c)
  }

  function ViolatedAmong(rules: seq<Rule>, applicable: seq<Rule>, a: Action, c: Context): seq<Rule> {
    if rules == [] then []
    else if ResultOf(applicable, rules[0].id, a, c).Violated? then [rules[0]] + ViolatedAmong(rules[1..], applicable, a, c)
    else ViolatedAmong(rules[1..], applicable, a, c)
  }

  function Blocking(rules: seq<Rule>): seq<Rule> {
    if rules == [] then []
    else if rules[0].disposition.BlockIt? then [rules[0]] + Blocking(rules[1..])
    else Blocking(rules[1..])
  }

  /** `min` by id: the first of the least. */
  function LeastById(rules: seq<Rule>): Rule
    requires rules != []
  {
    if |rules| == 1 then rules[0]
    else
      var least := LeastById(rules[..|rules| - 1]);
      if Before(rules[|rules| - 1].id, least.id) then rules[|rules| - 1] else least
  }

  function Label(q: ApprovalRequirement): string { "quorum(" + Decimal(q.threshold) + "/" + Decimal(|q.roles|) + ")" }

  function ReviewRole(r: Rule): string {
    if r.requirement.Some? then Label(r.requirement.value)
    else if Truthy(r.requiresApproval) then r.requiresApproval.value
    else "human-reviewer"
  }

  function Blocked(reason: string, matched: seq<string>, source: string, path: seq<string>): Decision {
    DecisionRecord(Block, None, reason, matched, source, path, [], 0)
  }

  function Allowed(reason: string, matched: seq<string>, source: string, path: seq<string>): Decision {
    DecisionRecord(Allow, None, reason, matched, source, path, [], 0)
  }

  function Escalated(chosen: Rule, matched: seq<string>, source: string, path: seq<string>): Decision {
    var role := ReviewRole(chosen);
    DecisionRecord(
      Escalate, Some(role), "escalated by " + chosen.id + " to " + role, matched, source, path,
      if chosen.requirement.Some? then chosen.requirement.value.roles else [],
      if chosen.requirement.Some? then chosen.requirement.value.threshold else 0)
  }

  /** `evaluate_rules`. */
  function EvaluateRules(rules: seq<Rule>, a: Action, c: Context, proof: Option<Proof>): Decision {
    var applicable := Applicable(SortById(rules), a);
    var matched := Ids(applicable);
    var source := if proof.Some? then proof.value.source else "";
    var path := if proof.Some? then proof.value.path else [];
    if proof.Some? && !proof.value.allowed then Blocked("delegated authority is missing, expired, or revoked", matched, source, path)
    else
      var violated := ViolatedAmong(applicable, applicable, a, c);
      var blocking := Blocking(violated);
      if violated == [] then
        Allowed(if applicable != [] then "all applicable rules satisfied" else "no applicable rules", matched, source, path)
      else if blocking != [] then Blocked("blocked by " + LeastById(blocking).id, matched, source, path)
      else Escalated(LeastById(violated), matched, source, path)
  }

  // -------------------------------------------------------------------- laws

  /** For rules with distinct ids, every order gives the same decision, whole. */
  lemma ResolutionIsOrderFree(rules: seq<Rule>, others: seq<Rule>, a: Action, c: Context, proof: Option<Proof>)
    requires DistinctIds(rules) && DistinctIds(others) && multiset(rules) == multiset(others)
    ensures EvaluateRules(rules, a, c, proof) == EvaluateRules(others, a, c, proof)
  {
    SortAscends(rules);
    SortAscends(others);
    SortPermutes(rules);
    SortPermutes(others);
    AscendingRulesAreUnique(SortById(rules), SortById(others));
  }

  lemma {:induction false} ApplicableIsExact(sorted: seq<Rule>, a: Action)
    ensures forall r :: r in Applicable(sorted, a) <==> r in sorted && Applies(r, a)
    ensures AscendingIds(sorted) ==> AscendingIds(Applicable(sorted, a))
  {
    if sorted != [] {
      ApplicableIsExact(sorted[1..], a);
      assert sorted == [sorted[0]] + sorted[1..];
      if AscendingIds(sorted) {
        forall r | r in Applicable(sorted[1..], a) ensures Before(sorted[0].id, r.id) { assert r in sorted[1..]; }
      }
    }
  }

  lemma {:induction false} ResultIsOwn(applicable: seq<Rule>, r: Rule, a: Action, c: Context)
    requires AscendingIds(applicable) && r in applicable
    ensures ResultOf(applicable, r.id, a, c) == Evaluate(r, a, c)
  {
    var last := applicable[|applicable| - 1];
    BeforeIsStrict(r.id, r.id);
    if last.id != r.id {
      assert applicable == applicable[..|applicable| - 1] + [last];
      ResultIsOwn(applicable[..|applicable| - 1], r, a, c);
    } else {
      var i :| 0 <= i < |applicable| && applicable[i] == r;
      assert i == |applicable| - 1;
    }
  }

  lemma {:induction false} ViolatedIsExact(rules: seq<Rule>, applicable: seq<Rule>, a: Action, c: Context)
    requires AscendingIds(applicable) && forall r :: r in rules ==> r in applicable
    ensures forall r :: r in ViolatedAmong(rules, applicable, a, c) <==> r in rules && Evaluate(r, a, c).Violated?
  {
    if rules != [] {
      assert rules == [rules[0]] + rules[1..];
      ViolatedIsExact(rules[1..], applicable, a, c);
      ResultIsOwn(applicable, rules[0], a, c);
    }
  }

  lemma {:induction false} BlockingIsExact(rules: seq<Rule>)
    ensures forall r :: r in Blocking(rules) <==> r in rules && r.disposition.BlockIt?
  {
    if rules != [] {
      assert rules == [rules[0]] + rules[1..];
      BlockingIsExact(rules[1..]);
    }
  }

  lemma {:induction false} LeastIsLeast(rules: seq<Rule>)
    requires rules != []
    ensures LeastById(rules) in rules && forall r :: r in rules ==> NotAfter(LeastById(rules).id, r.id)
  {
    if |rules| > 1 {
      var front, last := rules[..|rules| - 1], rules[|rules| - 1];
      LeastIsLeast(front);
      assert rules == front + [last];
      BeforeIsStrict(last.id, LeastById(front).id);
      forall r | r in rules ensures NotAfter(LeastById(rules).id, r.id) {
        if Before(last.id, LeastById(front).id) && r in front && r.id != LeastById(front).id {
          BeforeIsTransitive(last.id, LeastById(front).id, r.id);
        }
      }
    }
  }

  ghost predicate Breaks(rules: seq<Rule>, a: Action, c: Context, r: Rule) { r in rules && Evaluate(r, a, c).Violated? }

  /** What the decision is: blocked if authority is refused or a blocking rule is
      violated, escalated if only escalating ones are, allowed if none is. The rule
      that decides has the least id of its kind, and the matched rules are exactly
      the applicable ones in ascending order. */
  lemma ResolutionIsExact(rules: seq<Rule>, a: Action, c: Context, proof: Option<Proof>)
    requires DistinctIds(rules)
    ensures var d := EvaluateRules(rules, a, c, proof);
            var refused := proof.Some? && !proof.value.allowed;
            && (d.kind.Block? <==> refused || exists r :: Breaks(rules, a, c, r) && r.disposition.BlockIt?)
            && (d.kind.Allow? <==> !refused && forall r :: !Breaks(rules, a, c, r))
            && Ascending(d.matchedRules)
            && (forall id :: id in d.matchedRules <==> exists r :: r in rules && r.id == id && Applies(r, a))
            && (!refused && !d.kind.Allow? ==>
                  exists r :: Breaks(rules, a, c, r) && (r.disposition.BlockIt? <==> d.kind.Block?)
                    && (d.kind.Block? ==> d.reason == "blocked by " + r.id)
                    && (d.kind.Escalate? ==> d.role == Some(ReviewRole(r)))
                    && (forall q :: Breaks(rules, a, c, q) && q.disposition == r.disposition ==> NotAfter(r.id, q.id)))
  {
    var sorted := SortById(rules);
    SortAscends(rules);
    SortPermutes(rules);
    forall r ensures r in sorted <==> r in rules { assert r in multiset(sorted) <==> r in multiset(rules); }
    ApplicableIsExact(sorted, a);
    var applicable := Applicable(sorted, a);
    ViolatedIsExact(applicable, applicable, a, c);
    var violated := ViolatedAmong(applicable, applicable, a, c);
    BlockingIsExact(violated);
    var d := EvaluateRules(rules, a, c, proof);
    forall r ensures r in violated <==> Breaks(rules, a, c, r) {}
    if violated != [] {
      assert Breaks(rules, a, c, violated[0]);
      var blocking := Blocking(violated);
      if blocking != [] { LeastIsLeast(blocking); } else { LeastIsLeast(violated); }
    }
    MatchedIsExact(rules, applicable, a);
  }

  lemma MatchedIsExact(rules: seq<Rule>, applicable: seq<Rule>, a: Action)
    requires AscendingIds(applicable) && forall r :: r in applicable <==> r in rules && Applies(r, a)
    ensures Ascending(Ids(applicable))
    ensures forall id :: id in Ids(applicable) <==> exists r :: r in rules && r.id == id && Applies(r, a)
  {
    forall id | exists r :: r in rules && r.id == id && Applies(r, a) ensures id in Ids(applicable) {
      var r :| r in rules && r.id == id && Applies(r, a);
      assert r in applicable;
      var i :| 0 <= i < |applicable| && applicable[i] == r;
      assert Ids(applicable)[i] == id;
    }
  }

  /** Adding rules never lowers the severity. */
  lemma MoreRulesNeverLoosen(rules: seq<Rule>, more: seq<Rule>, a: Action, c: Context, proof: Option<Proof>)
    requires DistinctIds(rules + more)
    ensures Severity(EvaluateRules(rules, a, c, proof).kind) <= Severity(EvaluateRules(rules + more, a, c, proof).kind)
  {
    assert DistinctIds(rules) by {
      forall i, j | 0 <= i < j < |rules| ensures rules[i].id != rules[j].id { assert (rules + more)[i].id != (rules + more)[j].id; }
    }
    ResolutionIsExact(rules, a, c, proof);
    ResolutionIsExact(rules + more, a, c, proof);
    forall r | Breaks(rules, a, c, r) ensures Breaks(rules + more, a, c, r) {}
  }
}
