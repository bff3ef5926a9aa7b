/** Policy versions across environments as values: approvals, simulation, canary,
    deployment, rollback and expiry (governance/lifecycle.py). */
module Lifecycle {
  import opened Text

  const PREFIXES := 0x1_0000_0000_0000

  /** The first 48 bits of a SHA-256 digest. */
  type Prefix = n: nat | n < PREFIXES

  /** A simulation input with its id and the digest prefix of the id. */
  datatype Case = Case(id: string, prefix: Prefix, input: string)

  /** A policy bundle: its identity, whether it compiles, and its decisions. */
  datatype Bundle = Bundle(policyId: string, version: string, contentHash: string, compiles: bool, decide: Case -> string)

  datatype State = Draft | Validated | Approved | Deployed | Superseded | RolledBack | Expired

  datatype CaseResult = CaseResult(id: string, candidate: string, baseline: Option<string>, changed: bool)

  datatype SimulationReport = SimulationReport(
    policyId: string, candidateVersion: string, baselineVersion: Option<string>, cases: seq<CaseResult>)

  datatype CanaryReport = CanaryReport(
    policyId: string, candidateVersion: string, environment: string, sampleRate: real, maxChanged: int,
    simulation: SimulationReport, passed: bool)

  datatype Vote = Vote(approver: string, role: string, reason: string)

  datatype Entry = Entry(
    bundle: Bundle, owner: string, expiresAt: Option<real>, state: State, environments: map<string, State>,
    simulation: Option<SimulationReport>, canaries: map<string, CanaryReport>)

  datatype EventKind =
    | Drafted | ValidationFailed | WasValidated | Simulated | CanaryPassed | CanaryFailed
    | ApprovalRecorded | WasApproved | WasSuperseded | WasDeployed | WasRolledBack | RollbackRestored | HasExpired

  datatype Event = Event(
    id: string, policyId: string, version: string, kind: EventKind, from: State, to: State,
    environment: Option<string>, actor: Option<string>, reason: string)

  /** `active` with the insertion order of its keys. */
  datatype Manager = Manager(
    threshold: int, roles: set<string>,
    entries: map<(string, string), Entry>,
    approvals: map<(string, string, string), seq<Vote>>,
    active: map<(string, string), string>, order: seq<(string, string)>,
    events: seq<Event>, nextEventId: int)

  datatype Error =
    | UnknownPolicy | ExpiryNotInFuture | DifferentContent | WrongState(state: State) | DoesNotCompile
    | DuplicateCases | BadSampleRate | BadLimit | NoBaseline | NotSimulated | RoleNotConfigured | AlreadyVoted
    | TooFewApprovals | ForeignEvidence | NoMatchingCanary | FailedCanary | NotActive | AlreadyActive | TargetExpired

  // ------------------------------------------------------------------ helpers

  predicate Somewhere(places: map<string, State>, state: State) {
    exists environment :: environment in places && places[environment] == state
  }

  /** `_recompute_state`: the aggregate of the environments' states. */
  function Aggregate(places: map<string, State>, otherwise: State): State {
    if Somewhere(places, Deployed) then Deployed
    else if Somewhere(places, Expired) then Expired
    else if Somewhere(places, RolledBack) then RolledBack
    else if Somewhere(places, Superseded) then Superseded
    else otherwise
  }

  function StateIn(e: Entry, environment: string): State {
    if environment in e.environments then e.environments[environment] else e.state
  }

  /** An entry whose state in one environment becomes `state`, with its aggregate. */
  function Moved(e: Entry, environment: string, state: State): Entry {
    var places := e.environments[environment := state];
    e.(environments := places, state := if state.Deployed? then Deployed else Aggregate(places, e.state))
  }

  function EventId(n: int): string requires n >= 0 { "policy-lifecycle-" + Pad4(n) }

  /** `_append_event`. */
  function Logged(m: Manager, key: (string, string), kind: EventKind, from: State, to: State,
                  environment: Option<string>, actor: Option<string>, reason: string): Manager
  {
    m.(events := m.events + [Event(EventId(if m.nextEventId >= 0 then m.nextEventId else 0), key.0, key.1, kind, from, to, environment, actor, reason)],
       nextEventId := m.nextEventId + 1)
  }

  function Last(m: Manager): Event
    requires m.events != []
  {
    m.events[|m.events| - 1]
  }

  function Filed(m: Manager, key: (string, string), e: Entry): Manager { m.(entries := m.entries[key := e]) }

  function Threshold(m: Manager, environment: string): int {
    if environment == "production" then m.threshold else 1
  }

  function Votes(m: Manager, key: (string, string), environment: string): seq<Vote> {
    var at := (key.0, key.1, environment);
    if at in m.approvals then m.approvals[at] else []
  }

  function ActiveVersion(m: Manager, policy: string, environment: string): Option<string> {
    if (policy, environment) in m.active then Some(m.active[(policy, environment)]) else None
  }

  /** Assignment to a key of a Python dictionary. */
  function Activated(m: Manager, at: (string, string), version: string): Manager {
    m.(active := m.active[at := version], order := if at in m.active then m.order else m.order + [at])
  }

  function Without(order: seq<(string, string)>, at: (string, string)): seq<(string, string)> {
    if order == [] then [] else if order[0] == at then Without(order[1..], at) else [order[0]] + Without(order[1..], at)
  }

  function Deactivated(m: Manager, at: (string, string)): Manager {
    m.(active := m.active - {at}, order := Without(m.order, at))
  }

  // --------------------------------------------------------------- transitions

  /** `draft`. */
  function DraftStep(m: Manager, bundle: Bundle, owner: string, expiresAt: Option<real>, now: real, reason: string): (Manager, Result<Event, Error>)
  {
    var key := (bundle.policyId, bundle.version);
    if expiresAt.Some? && expiresAt.value <= now then (m, Err(ExpiryNotInFuture))
    else if key in m.entries then
      if m.entries[key].bundle.contentHash != bundle.contentHash || m.events == [] then (m, Err(DifferentContent))
      else (m, Ok(Last(m)))
    else
      var n := Logged(Filed(m, key, Entry(bundle, owner, expiresAt, Draft, map[], None, map[])), key, Drafted, Draft, Draft, None, Some(owner), reason);
      (n, Ok(Last(n)))
  }

  /** `validate`; a failure is logged. */
  function ValidateStep(m: Manager, key: (string, string), actor: Option<string>, reason: string): (Manager, Result<Event, Error>) {
    if key !in m.entries then (m, Err(UnknownPolicy))
    else
      var e := m.entries[key];
      if !e.state.Draft? then (m, Err(WrongState(e.state)))
      else if !e.bundle.compiles then (Logged(m, key, ValidationFailed, Draft, Draft, None, actor, "does not compile"), Err(DoesNotCompile))
      else
        var n := Logged(Filed(m, key, e.(state := Validated)), key, WasValidated, Draft, Validated, None, actor, reason);
        (n, Ok(Last(n)))
  }

  predicate DistinctCases(cases: seq<Case>) {
    forall i, j :: 0 <= i < j < |cases| ==> cases[i].id != cases[j].id
  }

  function Compared(candidate: Bundle, baseline: Option<Bundle>, c: Case): CaseResult {
    var was := if baseline.Some? then Some(baseline.value.decide(c)) else None;
    CaseResult(c.id, candidate.decide(c), was, was.Some? && candidate.decide(c) != was.value)
  }

  function Report(candidate: Bundle, baseline: Option<Bundle>, cases: seq<Case>): SimulationReport {
    SimulationReport(candidate.policyId, candidate.version, if baseline.Some? then Some(baseline.value.version) else None,
                     seq(|cases|, i requires 0 <= i < |cases| => Compared(candidate, baseline, cases[i])))
  }

  /** `_simulation`. */
  function Simulation(candidate: Bundle, baseline: Option<Bundle>, cases: seq<Case>): Result<SimulationReport, Error> {
    if !DistinctCases(cases) then Err(DuplicateCases)
    else if !candidate.compiles || (baseline.Some? && !baseline.value.compiles) then Err(DoesNotCompile)
    else Ok(Report(candidate, baseline, cases))
  }

  function Changes(results: seq<CaseResult>): nat {
    if results == [] then 0 else Changes(results[..|results| - 1]) + if results[|results| - 1].changed then 1 else 0
  }

  /** The supplied baseline, or the version active in the environment. */
  function Baseline(m: Manager, policy: string, environment: string, supplied: Option<Bundle>): Option<Bundle> {
    var version := ActiveVersion(m, policy, environment);
    if supplied.Some? then supplied
    else if version.Some? && (policy, version.value) in m.entries then Some(m.entries[(policy, version.value)].bundle)
    else None
  }

  /** `simulate`. */
  function SimulateStep(m: Manager, key: (string, string), cases: seq<Case>, supplied: Option<Bundle>, environment: string,
                        actor: Option<string>, reason: string): (Manager, Result<SimulationReport, Error>)
  {
    if key !in m.entries then (m, Err(UnknownPolicy))
    else
      var e := m.entries[key];
      if !e.state.Validated? then (m, Err(WrongState(e.state)))
      else
        var report := Simulation(e.bundle, Baseline(m, key.0, environment, supplied), cases);
        if report.Err? then (m, report)
        else (Logged(Filed(m, key, e.(simulation := Some(report.value))), key, Simulated, e.state, e.state, Some(environment), actor, reason), report)
  }

  /** The cases that a canary samples: their digest prefix is below the rate. */
  predicate IsSampled(rate: real, c: Case) { c.prefix as real / PREFIXES as real < rate }

  function Sampled(rate: real, cases: seq<Case>): seq<Case> {
    if cases == [] then []
    else
      var front := Sampled(rate, cases[..|cases| - 1]);
      if IsSampled(rate, cases[|cases| - 1]) then front + [cases[|cases| - 1]] else front
  }

  function Canaried(m: Manager, key: (string, string), cases: seq<Case>, baseline: Bundle, environment: string, rate: real, maxChanged: int): Result<CanaryReport, Error>
    requires key in m.entries
  {
    var simulation := Simulation(m.entries[key].bundle, Some(baseline), Sampled(rate, cases));
    if simulation.Err? then Err(simulation.error)
    else Ok(CanaryReport(key.0, key.1, environment, rate, maxChanged, simulation.value, Changes(simulation.value.cases) <= maxChanged))
  }

  /** `canary`. */
  function CanaryStep(m: Manager, key: (string, string), cases: seq<Case>, supplied: Option<Bundle>, environment: string,
                      rate: real, maxChanged: int, actor: Option<string>, reason: string): (Manager, Result<CanaryReport, Error>)
  {
    if key !in m.entries then (m, Err(UnknownPolicy))
    else
      var e := m.entries[key];
      var baseline := Baseline(m, key.0, environment, supplied);
      if !e.state.Validated? && !e.state.Approved? then (m, Err(WrongState(e.state)))
      else if rate <= 0.0 || rate > 1.0 then (m, Err(BadSampleRate))
      else if maxChanged < 0 then (m, Err(BadLimit))
      else if baseline.None? then (m, Err(NoBaseline))
      else
        var report := Canaried(m, key, cases, baseline.value, environment, rate, maxChanged);
        if report.Err? then (m, report)
        else
          var kind := if report.value.passed then CanaryPassed else CanaryFailed;
          (Logged(Filed(m, key, e.(canaries := e.canaries[environment := report.value])), key, kind, e.state, e.state, Some(environment), actor, reason), report)
  }

  predicate MayBeApproved(s: State) {
    s.Validated? || s.Approved? || s.Deployed? || s.Superseded? || s.RolledBack?
  }

  function ApprovalRefusal(m: Manager, key: (string, string), approver: string, role: string, environment: string): Option<Error> {
    if key !in m.entries then Some(UnknownPolicy)
    else if !MayBeApproved(m.entries[key].state) then Some(WrongState(m.entries[key].state))
    else if m.entries[key].simulation.None? then Some(NotSimulated)
    else if m.roles != {} && role !in m.roles then Some(RoleNotConfigured)
    else None
  }

  /** One vote an approver, and for production with configured roles one vote a role. */
  predicate HasVoted(m: Manager, votes: seq<Vote>, environment: string, approver: string, role: string) {
    || (exists i :: 0 <= i < |votes| && votes[i].approver == approver)
    || (environment == "production" && m.roles != {} && exists i :: 0 <= i < |votes| && votes[i].role == role)
  }

  /** `approve`, with the vote list that is looked up or created before the last refusals. */
  function ApproveStep(m: Manager, key: (string, string), approver: string, role: string, environment: string, reason: string): (Manager, Result<seq<Vote>, Error>)
  {
    var refusal := ApprovalRefusal(m, key, approver, role, environment);
    if refusal.Some? then (m, Err(refusal.value))
    else
      var e, at, votes := m.entries[key], (key.0, key.1, environment), Votes(m, key, environment);
      if HasVoted(m, votes, environment, approver, role) then (m.(approvals := m.approvals[at := votes]), Err(AlreadyVoted))
      else
        var cast := votes + [Vote(approver, role, reason)];
        var reached := |cast| >= Threshold(m, environment) && e.state.Validated?;
        var next := if reached then Approved else e.state;
        (Logged(Filed(m, key, e.(state := next)).(approvals := m.approvals[at := cast]), key,
                if reached then WasApproved else ApprovalRecorded, e.state, next, Some(environment), Some(approver), reason),
         Ok(cast))
  }

  /** Only a list that already held votes can refuse one, so a refused vote changes nothing. */
  lemma RefusedVoteChangesNothing(m: Manager, key: (string, string), approver: string, role: string, environment: string, reason: string)
    ensures ApproveStep(m, key, approver, role, environment, reason).1.Err? ==>
              ApproveStep(m, key, approver, role, environment, reason).0 == m
  {
    var at := (key.0, key.1, environment);
    if at in m.approvals { assert m.approvals[at := m.approvals[at]] == m.approvals; }
    hide Logged, Filed, Threshold;
  }

  predicate MayBeDeployed(s: State) { s.Approved? || s.Deployed? || s.Superseded? || s.RolledBack? }

  /** A stored canary of this version, in this environment, against `baseline`. */
  predicate MatchingCanary(report: Option<CanaryReport>, key: (string, string), environment: string, baseline: string) {
    && report.Some?
    && report.value.policyId == key.0 && report.value.candidateVersion == key.1 && report.value.environment == environment
    && report.value.simulation.baselineVersion == Some(baseline)
  }

  function StoredCanary(e: Entry, environment: string): Option<CanaryReport> {
    if environment in e.canaries then Some(e.canaries[environment]) else None
  }

  function DeployRefusal(m: Manager, key: (string, string), environment: string, supplied: Option<CanaryReport>): Option<Error> {
    if key !in m.entries then Some(UnknownPolicy)
    else
      var e, previous := m.entries[key], ActiveVersion(m, key.0, environment);
      var stored := StoredCanary(e, environment);
      if !MayBeDeployed(e.state) then Some(WrongState(e.state))
      else if |Votes(m, key, environment)| < Threshold(m, environment) then Some(TooFewApprovals)
      else if environment == "production" && previous.Some? then
        if supplied.Some? && stored != supplied then Some(ForeignEvidence)
        else if !MatchingCanary(stored, key, environment, previous.value) then Some(NoMatchingCanary)
        else if !stored.value.passed then Some(FailedCanary)
        else None
      else None
  }

  /** The previous version leaves an environment. */
  function Leave(m: Manager, key: (string, string), environment: string, to: State, kind: EventKind, actor: Option<string>, reason: string): Manager
    requires key in m.entries
  {
    var e := m.entries[key];
    Logged(Filed(m, key, Moved(e, environment, to)), key, kind, StateIn(e, environment), to, Some(environment), actor, reason)
  }

  /** A version takes an environment over, from the version active there if any. */
  function Switched(m: Manager, key: (string, string), environment: string, leaving: State, leftAs: EventKind, leftReason: string,
                    enteredAs: EventKind, reason: string, actor: Option<string>): Manager
    requires key in m.entries
    requires var previous := ActiveVersion(m, key.0, environment); previous.Some? ==> (key.0, previous.value) in m.entries
  {
    var previous := ActiveVersion(m, key.0, environment);
    var left := if previous.Some? then Leave(m, (key.0, previous.value), environment, leaving, leftAs, actor, leftReason) else m;
    Activated(Leave(left, key, environment, Deployed, enteredAs, actor, reason), (key.0, environment), key.1)
  }

  function SupersededReason(version: string, reason: string): string { "superseded by " + version + ": " + reason }

  /** `deploy`. */
  function DeployStep(m: Manager, key: (string, string), environment: string, reason: string, actor: Option<string>, supplied: Option<CanaryReport>): (Manager, Result<Event, Error>)
  {
    var refusal := DeployRefusal(m, key, environment, supplied);
    var previous := ActiveVersion(m, key.0, environment);
    if refusal.Some? then (m, Err(refusal.value))
    else if previous == Some(key.1) && m.events != [] then (m, Ok(Last(m)))
    else if previous.Some? && (key.0, previous.value) !in m.entries then (m, Err(UnknownPolicy))
    else
      var n := Switched(m, key, environment, Superseded, WasSuperseded, SupersededReason(key.1, reason), WasDeployed, reason, actor);
      (n, Ok(Last(n)))
  }

  function RollbackRefusal(m: Manager, policy: string, target: string, environment: string): Option<Error> {
    var current := ActiveVersion(m, policy, environment);
    if current.None? then Some(NotActive)
    else if current.value == target then Some(AlreadyActive)
    else if (policy, current.value) !in m.entries || (policy, target) !in m.entries then Some(UnknownPolicy)
    else if m.entries[(policy, target)].state.Expired? then Some(TargetExpired)
    else if |Votes(m, (policy, target), environment)| < Threshold(m, environment) then Some(TooFewApprovals)
    else None
  }

  /** `rollback`. */
  function RollbackStep(m: Manager, policy: string, target: string, environment: string, reason: string, actor: Option<string>): (Manager, Result<Event, Error>)
  {
    var refusal := RollbackRefusal(m, policy, target, environment);
    if refusal.Some? then (m, Err(refusal.value))
    else
      var n := Switched(m, (policy, target), environment, RolledBack, WasRolledBack, reason, RollbackRestored, reason, actor);
      (n, Ok(Last(n)))
  }

  predicate IsDue(e: Entry, now: real) { e.expiresAt.Some? && now >= e.expiresAt.value }

  /** One turn of the loop of `monitor`. */
  function ExpireStep(m: Manager, at: (string, string), now: real): Manager {
    if at !in m.active || (at.0, m.active[at]) !in m.entries || !IsDue(m.entries[(at.0, m.active[at])], now) then m
    else Deactivated(Leave(m, (at.0, m.active[at]), at.1, Expired, HasExpired, None, "policy expiry reached"), at)
  }

  function ExpireAll(m: Manager, keys: seq<(string, string)>, now: real): Manager {
    if keys == [] then m else ExpireStep(ExpireAll(m, keys[..|keys| - 1], now), keys[|keys| - 1], now)
  }

  /** `monitor`. */
  function MonitorStep(m: Manager, now: real): Manager { ExpireAll(m, m.order, now) }

  /** `current`. */
  function CurrentStep(m: Manager, policy: string, environment: string, now: real): (Manager, Result<Bundle, Error>) {
    var n := MonitorStep(m, now);
    var version := ActiveVersion(n, policy, environment);
    if version.None? then (n, Err(NotActive))
    else if (policy, version.value) !in n.entries then (n, Err(UnknownPolicy))
    else (n, Ok(n.entries[(policy, version.value)].bundle))
  }

  /** `promote`. */
  function PromoteStep(m: Manager, key: (string, string), source: string, target: string, now: real, reason: string, actor: Option<string>, supplied: Option<CanaryReport>): (Manager, Result<Event, Error>)
  {
    var (n, found) := CurrentStep(m, key.0, source, now);
    if found.Err? then (n, Err(found.error))
    else if found.value.version != key.1 then (n, Err(NotActive))
    else DeployStep(n, key, target, reason, actor, supplied)
  }

  datatype Op =
    | DoDraft(bundle: Bundle, owner: string, expiresAt: Option<real>, now: real, reason: string)
    | DoValidate(key: (string, string), actor: Option<string>, reason: string)
    | DoSimulate(key: (string, string), cases: seq<Case>, supplied: Option<Bundle>, environment: string, actor: Option<string>, reason: string)
    | DoCanary(key: (string, string), cases: seq<Case>, supplied: Option<Bundle>, environment: string, rate: real, maxChanged: int, actor: Option<string>, reason: string)
    | DoApprove(key: (string, string), approver: string, role: string, environment: string, reason: string)
    | DoDeploy(key: (string, string), environment: string, reason: string, actor: Option<string>, report: Option<CanaryReport>)
    | DoPromote(key: (string, string), source: string, target: string, now: real, reason: string, actor: Option<string>, report: Option<CanaryReport>)
    | DoRollback(policy: string, target: string, environment: string, reason: string, actor: Option<string>)
    | DoMonitor(now: real)
    | DoCurrent(policy: string, environment: string, now: real)

  function Step(m: Manager, op: Op): Manager {
    match op
    case DoDraft(bundle, owner, expiresAt, now, reason) => DraftStep(m, bundle, owner, expiresAt, now, reason).0
    case DoValidate(key, actor, reason) => ValidateStep(m, key, actor, reason).0
    case DoSimulate(key, cases, supplied, environment, actor, reason) => SimulateStep(m, key, cases, supplied, environment, actor, reason).0
    case DoCanary(key, cases, supplied, environment, rate, maxChanged, actor, reason) =>
      CanaryStep(m, key, cases, supplied, environment, rate, maxChanged, actor, reason).0
    case DoApprove(key, approver, role, environment, reason) => ApproveStep(m, key, approver, role, environment, reason).0
    case DoDeploy(key, environment, reason, actor, report) => DeployStep(m, key, environment, reason, actor, report).0
    case DoPromote(key, source, target, now, reason, actor, report) => PromoteStep(m, key, source, target, now, reason, actor, report).0
    case DoRollback(policy, target, environment, reason, actor) => RollbackStep(m, policy, target, environment, reason, actor).0
    case DoMonitor(now) => MonitorStep(m, now)
    case DoCurrent(policy, environment, now) => CurrentStep(m, policy, environment, now).0
  }

  /** A new manager; the constructor refuses a threshold below one. */
  function Initial(threshold: int, roles: set<string>): Manager {
    Manager(threshold, roles, map[], map[], map[], [], [], 1)
  }

  function Run(m: Manager, ops: seq<Op>): Manager
    decreases |ops|
  {
    if ops == [] then m else Step(Run(m, ops[..|ops| - 1]), ops[|ops| - 1])
  }
}
