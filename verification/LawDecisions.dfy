/** From law text to decisions: what a law with one constraint comes to once it is
    parsed (governance/parser.py, governance/composition.py). */
module LawDecisions {
  import opened Text
  import opened LawText
  import opened Model
  import opened Capabilities
  import opened Rules
  import opened Composition
  import opened PlainRules
  import P = Parser

  /** A blocking law with one constraint, as it is printed. */
  function Constrained(id: string, capability: string, field: string, op: Comparison, t: int): string {
    JoinLines(P.Blocks([P.LawSpec(id, capability, None, Some(P.ConstraintText(field, op, IntText(t))), [], None, None, None)]))
  }

  lemma ConstraintIsToken(field: string, op: Comparison, t: int)
    requires P.PlainWord(field)
    ensures P.Token(P.ConstraintText(field, op, IntText(t)))
  {
    P.OperatorReads(op);
    IntIsPlain(t);
    var operator, threshold, text := P.OperatorText(op), IntText(t), P.ConstraintText(field, op, IntText(t));
    hide P.OperatorText, IntText, Strip;
    assert text[0] == field[0] && text[|text| - 1] == threshold[|threshold| - 1];
    forall i | 0 <= i < |text| ensures !IsBreak(text[i]) {
      assert text[i] in field || text[i] == ' ' || text[i] in operator || text[i] in threshold;
    }
  }

  lemma IntIsPlain(t: int)
    ensures P.PlainWord(IntText(t))
  {
    var m: nat := if t < 0 then -t else t;
    DecimalRoundTrip(m);
    assert forall i :: 0 <= i < |Decimal(m)| ==> IsDigit(Decimal(m)[i]);
    hide Decimal, ValueOf;
  }

  /** Such a law blocks, in its scope, exactly what its constraint does not confirm, and
      actors whose authority is negative. */
  lemma ConstrainedLawBlocks(id: string, capability: string, field: string, op: Comparison, t: int, a: Action, c: Context)
    requires P.IsHeader(id) && P.Token(id) && P.Token(capability) && P.PlainWord(field)
    ensures P.Parsed(Constrained(id, capability, field, op, t)).Ok?
    ensures var d := EvaluateRules(P.Parsed(Constrained(id, capability, field, op, t)).value, a, c, None);
            var confirmed := a.authority >= 0 && Confirms(PredicateSpec(field, op, Number(t as real)), a, c);
            && d.kind == (if Segments(capability) <= Segments(a.capability) && !confirmed then Block else Allow)
            && (d.kind.Block? ==> d.reason == "blocked by " + id)
  {
    var l := P.LawSpec(id, capability, None, Some(P.ConstraintText(field, op, IntText(t))), [], None, None, None);
    P.WholeThresholdRoundTrip(field, op, t);
    ConstraintIsToken(field, op, t);
    hide P.Token, P.IsHeader, P.ParseConstraint, P.ConstraintText;
    assert P.Plain(l);
    P.LawTextRoundTrip([l]);
    var rules := P.RulesOf([l]);
    var rule := P.RuleOf(l);
    assert rules == [rule] && rule.condition == Some(PredicateSpec(field, op, Number(t as real)));
    assert rule.forbidden == {};
    hide P.Plain, P.RulesOf, P.RuleOf, P.Parsed, P.Blocks, JoinLines;
    DecisionInPlainTerms([rule], a, c, None);
    OnlyRule(rule, a, c);
  }

  lemma OnlyRule(rule: Rule, a: Action, c: Context)
    ensures SomeOffends([rule], a, c) <==> Offends(rule, a, c)
    ensures SomeBlocks([rule], a, c) <==> Offends(rule, a, c) && rule.disposition.BlockIt?
    ensures forall r :: Decides(r, [rule], a, c) ==> r == rule
  {
    hide Offends;
    assert rule in [rule];
  }

  /** A budget law blocks exactly what comes after the budget is spent. */
  lemma BudgetLawBlocks(id: string, capability: string, t: int, a: Action, c: Context)
    requires P.IsHeader(id) && P.Token(id) && P.Token(capability)
    requires "budget_used" !in a.params && a.authority >= 0 && Segments(capability) <= Segments(a.capability)
    ensures P.Parsed(Constrained(id, capability, "budget_used", Le, t)).Ok?
    ensures EvaluateRules(P.Parsed(Constrained(id, capability, "budget_used", Le, t)).value, a, c, None).kind
         == (if c.budgetUsed > t as real then Block else Allow)
  {
    BudgetIsPlain();
    hide P.IsHeader, P.Token, P.PlainWord;
    ConstrainedLawBlocks(id, capability, "budget_used", Le, t, a, c);
    BudgetConfirms(t, a, c);
    hide P.Parsed, Constrained, EvaluateRules, Segments, Confirms;
  }

  lemma BudgetIsPlain()
    ensures P.PlainWord("budget_used")
  {}

  lemma BudgetConfirms(t: int, a: Action, c: Context)
    requires "budget_used" !in a.params
    ensures Confirms(PredicateSpec("budget_used", Le, Number(t as real)), a, c) <==> c.budgetUsed <= t as real
  {
    assert Reads("budget_used", a, c, Number(c.budgetUsed));
  }
}
