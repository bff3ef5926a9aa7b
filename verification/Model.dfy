/** Decisions and what makes them well formed (governance/model.py). */
module Model {
  import opened Text

  datatype DecisionKind = Allow | Block | Escalate

  datatype DecisionRecord = DecisionRecord(
    kind: DecisionKind, role: Option<string>, reason: string, matchedRules: seq<string>,
    authoritySource: string, authorityPath: seq<string>,
    approvalRoles: seq<string>, approvalThreshold: int)

  predicate Distinct(s: seq<string>) {
    forall i, j :: 0 <= i < j < |s| ==> s[i] != s[j]
  }

  /** Python's truth value of an optional string. */
  predicate Truthy(s: Option<string>) { s.Some? && s.value != "" }

  /** The checks of `Decision.__post_init__`. */
  predicate WellFormed(d: DecisionRecord) {
    && (d.kind.Escalate? <==> Truthy(d.role))
    && (!d.kind.Escalate? ==> d.approvalRoles == [] && d.approvalThreshold == 0)
    && (d.approvalRoles != [] ==> Distinct(d.approvalRoles) && 1 <= d.approvalThreshold <= |d.approvalRoles|)
    && (d.approvalRoles == [] ==> d.approvalThreshold == 0)
  }

  type Decision = d: DecisionRecord | WellFormed(d)
    witness DecisionRecord(Allow, None, "", [], "", [], [], 0)

  /** Block > Escalate > Allow. */
  function Severity(k: DecisionKind): nat {
    match k case Allow => 0 case Escalate => 1 case Block => 2
  }
}
