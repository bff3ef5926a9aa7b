/** The mutable lifecycle manager and its entries (governance/lifecycle.py), proved
    against the transitions of module Lifecycle. */
module PolicyLifecycle {
  import opened Text
  import opened Lifecycle

  class LifecycleEntry {
    const bundle: Bundle
    const owner: string
    const expiresAt: Option<real>
    var state: State
    var environmentStates: map<string, State>
    var simulation: Option<SimulationReport>
    var canaries: map<string, CanaryReport>

    function View(): Entry
      reads this
    {
      Entry(bundle, owner, expiresAt, state, environmentStates, simulation, canaries)
    }

    constructor (bundle: Bundle, owner: string, expiresAt: Option<real>)
      ensures View() == Entry(bundle, owner, expiresAt, Draft, map[], None, map[])
    {
      this.bundle, this.owner, this.expiresAt := bundle, owner, expiresAt;
      state, environmentStates, simulation, canaries := Draft, map[], None, map[];
    }

    /** `_recompute_state`. */
    method RecomputeState()
      modifies `state
      ensures state == Aggregate(environmentStates, old(state))
    {
      if Somewhere(environmentStates, Deployed) {
        state := Deployed;
      } else if Somewhere(environmentStates, Expired) {
        state := Expired;
      } else if Somewhere(environmentStates, RolledBack) {
        state := RolledBack;
      } else if Somewhere(environmentStates, Superseded) {
        state := Superseded;
      }
    }

    /** The state in an environment becomes `to`; the one it had. */
    method Enter(environment: string, to: State) returns (previous: State)
      modifies `state, `environmentStates
      ensures View() == Moved(old(View()), environment, to) && previous == StateIn(old(View()), environment)
    {
      previous := if environment in environmentStates then environmentStates[environment] else state;
      environmentStates := environmentStates[environment := to];
      if to.Deployed? { state := Deployed; } else { RecomputeState(); }
    }
  }

  /** A manager that differs from `m` at one entry only. */
  lemma FiledIs(m: Manager, n: Manager, key: (string, string), e: Entry)
    requires n == m.(entries := n.entries)
    requires key in m.entries && n.entries.Keys == m.entries.Keys
    requires forall k :: k in m.entries ==> n.entries[k] == if k == key then e else m.entries[k]
    ensures n == Filed(m, key, e)
  {
    assert n.entries == m.entries[key := e];
  }

  lemma SameRoles(m: Manager, n: Manager, votes: seq<Vote>, environment: string, approver: string, role: string)
    requires n.roles == m.roles
    ensures HasVoted(m, votes, environment, approver, role) == HasVoted(n, votes, environment, approver, role)
  {}

  /** `_simulation`: both policies on every case. */
  method RunSimulation(candidate: Bundle, baseline: Option<Bundle>, cases: seq<Case>) returns (res: Result<SimulationReport, Error>)
    ensures res == Simulation(candidate, baseline, cases)
  {
    if !DistinctCases(cases) { return Err(DuplicateCases); }
    if !candidate.compiles || (baseline.Some? && !baseline.value.compiles) { return Err(DoesNotCompile); }
    var results: seq<CaseResult> := [];
    for i := 0 to |cases|
      invariant |results| == i && forall k :: 0 <= k < i ==> results[k] == Compared(candidate, baseline, cases[k])
    {
      var decided := candidate.decide(cases[i]);
      var was := if baseline.Some? then Some(baseline.value.decide(cases[i])) else None;
      results := results + [CaseResult(cases[i].id, decided, was, was.Some? && decided != was.value)];
    }
    res := Ok(SimulationReport(candidate.policyId, candidate.version,
                               if baseline.Some? then Some(baseline.value.version) else None, results));
    assert res.value.cases == Report(candidate, baseline, cases).cases;
  }

  class PolicyLifecycleManager {
    const threshold: int
    const roles: set<string>
    var entries: map<(string, string), LifecycleEntry>
    var approvals: map<(string, string, string), seq<Vote>>
    var active: map<(string, string), string>
    var order: seq<(string, string)>
    var events: seq<Event>
    var nextEventId: int

    function State(): Manager
      reads this, entries.Values
    {
      Manager(threshold, roles, map k | k in entries :: entries[k].View(), approvals, active, order, events, nextEventId)
    }

    /** Entries are filed under their bundle's identity, so no two keys share an object. */
    ghost predicate Keyed()
      reads this
    {
      forall k :: k in entries ==> (entries[k].bundle.policyId, entries[k].bundle.version) == k
    }

    constructor (threshold: int, roles: set<string>)
      ensures State() == Initial(threshold, roles) && Keyed()
    {
      this.threshold, this.roles := threshold, roles;
      entries, approvals, active, order, events, nextEventId := map[], map[], map[], [], [], 1;
    }

    /** `_append_event`. */
    method AppendEvent(key: (string, string), kind: EventKind, from: Lifecycle.State, to: Lifecycle.State,
                       environment: Option<string>, actor: Option<string>, reason: string) returns (record: Event)
      modifies `events, `nextEventId
      ensures State() == Logged(old(State()), key, kind, from, to, environment, actor, reason)
      ensures record == Last(State())
    {
      record := Event(EventId(if nextEventId >= 0 then nextEventId else 0), key.0, key.1, kind, from, to, environment, actor, reason);
      nextEventId := nextEventId + 1;
      events := events + [record];
      assert State().entries == old(State()).entries;
    }

    method DraftPolicy(bundle: Bundle, owner: string, expiresAt: Option<real>, now: real, reason: string) returns (res: Result<Event, Error>)
      requires Keyed()
      modifies this
      ensures Keyed()
      ensures (State(), res) == DraftStep(old(State()), bundle, owner, expiresAt, now, reason)
    {
      hide Logged, EventId;
      var key := (bundle.policyId, bundle.version);
      if expiresAt.Some? && expiresAt.value <= now { return Err(ExpiryNotInFuture); }
      if key in entries {
        if entries[key].bundle.contentHash != bundle.contentHash || events == [] { return Err(DifferentContent); }
        return Ok(events[|events| - 1]);
      }
      var entry := new LifecycleEntry(bundle, owner, expiresAt);
      entries := entries[key := entry];
      assert State().entries == old(State()).entries[key := entry.View()];
      var record := AppendEvent(key, Drafted, Draft, Draft, None, Some(owner), reason);
      return Ok(record);
    }

    method SetState(key: (string, string), to: Lifecycle.State)
      requires Keyed() && key in entries
      modifies entries[key]
      ensures State() == Filed(old(State()), key, old(State()).entries[key].(state := to))
    {
      entries[key].state := to;
      FiledIs(old(State()), State(), key, entries[key].View());
    }

    method Validate(key: (string, string), actor: Option<string>, reason: string) returns (res: Result<Event, Error>)
      requires Keyed()
      modifies this, entries.Values
      ensures Keyed()
      ensures (State(), res) == ValidateStep(old(State()), key, actor, reason)
    {
      hide Logged, EventId;
      if key !in entries { return Err(UnknownPolicy); }
      if !entries[key].state.Draft? { return Err(WrongState(entries[key].state)); }
      var record;
      if !entries[key].bundle.compiles {
        record := AppendEvent(key, ValidationFailed, Draft, Draft, None, actor, "does not compile");
        return Err(DoesNotCompile);
      }
      SetState(key, Validated);
      record := AppendEvent(key, WasValidated, Draft, Validated, None, actor, reason);
      return Ok(record);
    }

    /** The supplied baseline, or the active one. */
    method ChooseBaseline(policy: string, environment: string, supplied: Option<Bundle>) returns (baseline: Option<Bundle>)
      ensures baseline == Baseline(State(), policy, environment, supplied)
    {
      baseline := supplied;
      if baseline.None? && (policy, environment) in active {
        var key := (policy, active[(policy, environment)]);
        if key in entries { baseline := Some(entries[key].bundle); }
      }
    }

    method SetSimulation(key: (string, string), report: SimulationReport)
      requires Keyed() && key in entries
      modifies entries[key]
      ensures State() == Filed(old(State()), key, old(State()).entries[key].(simulation := Some(report)))
    {
      entries[key].simulation := Some(report);
      FiledIs(old(State()), State(), key, entries[key].View());
    }

    method SetCanary(key: (string, string), environment: string, report: CanaryReport)
      requires Keyed() && key in entries
      modifies entries[key]
      ensures var e := old(State()).entries[key];
              State() == Filed(old(State()), key, e.(canaries := e.canaries[environment := report]))
    {
      entries[key].canaries := entries[key].canaries[environment := report];
      FiledIs(old(State()), State(), key, entries[key].View());
    }

    method Simulate(key: (string, string), cases: seq<Case>, supplied: Option<Bundle>, environment: string,
                    actor: Option<string>, reason: string) returns (res: Result<SimulationReport, Error>)
      requires Keyed()
      modifies this, entries.Values
      ensures Keyed()
      ensures (State(), res) == SimulateStep(old(State()), key, cases, supplied, environment, actor, reason)
    {
      hide Logged, EventId, Simulation, Baseline;
      if key !in entries { return Err(UnknownPolicy); }
      var state := entries[key].state;
      if !state.Validated? { return Err(WrongState(state)); }
      var baseline := ChooseBaseline(key.0, environment, supplied);
      res := RunSimulation(entries[key].bundle, baseline, cases);
      if res.Err? { return; }
      SetSimulation(key, res.value);
      var _ := AppendEvent(key, Simulated, state, state, Some(environment), actor, reason);
    }

    /** The sample and its report. */
    method RunCanary(key: (string, string), cases: seq<Case>, baseline: Bundle, environment: string, rate: real, maxChanged: int)
      returns (res: Result<CanaryReport, Error>)
      requires key in entries
      ensures res == Canaried(State(), key, cases, baseline, environment, rate, maxChanged)
    {
      hide Simulation, Sampled, Changes;
      var simulation := RunSimulation(entries[key].bundle, Some(baseline), Sampled(rate, cases));
      if simulation.Err? { return Err(simulation.error); }
      return Ok(CanaryReport(key.0, key.1, environment, rate, maxChanged, simulation.value, Changes(simulation.value.cases) <= maxChanged));
    }

    method Canary(key: (string, string), cases: seq<Case>, supplied: Option<Bundle>, environment: string, rate: real, maxChanged: int,
                  actor: Option<string>, reason: string) returns (res: Result<CanaryReport, Error>)
      requires Keyed()
      modifies this, entries.Values
      ensures Keyed()
      ensures (State(), res) == CanaryStep(old(State()), key, cases, supplied, environment, rate, maxChanged, actor, reason)
    {
      hide Logged, EventId, Canaried, Baseline;
      if key !in entries { return Err(UnknownPolicy); }
      var state := entries[key].state;
      if !state.Validated? && !state.Approved? { return Err(WrongState(state)); }
      if rate <= 0.0 || rate > 1.0 { return Err(BadSampleRate); }
      if maxChanged < 0 { return Err(BadLimit); }
      var baseline := ChooseBaseline(key.0, environment, supplied);
      if baseline.None? { return Err(NoBaseline); }
      res := RunCanary(key, cases, baseline.value, environment, rate, maxChanged);
      if res.Err? { return; }
      SetCanary(key, environment, res.value);
      var _ := AppendEvent(key, if res.value.passed then CanaryPassed else CanaryFailed, state, state, Some(environment), actor, reason);
    }

    /** `_approvals.setdefault`. */
    method OpenBallot(key: (string, string), environment: string) returns (votes: seq<Vote>)
      modifies `approvals
      ensures votes == Votes(old(State()), key, environment)
      ensures State() == old(State()).(approvals := old(approvals)[(key.0, key.1, environment) := votes])
    {
      var at := (key.0, key.1, environment);
      if at !in approvals { approvals := approvals[at := []]; }
      votes := approvals[at];
      assert approvals == old(approvals)[at := votes];
      assert State().entries == old(State()).entries;
    }

    method SetVotes(at: (string, string, string), votes: seq<Vote>)
      modifies `approvals
      ensures State() == old(State()).(approvals := old(approvals)[at := votes])
    {
      approvals := approvals[at := votes];
      assert State().entries == old(State()).entries;
    }

    /** A vote that is accepted. */
    method CastVote(key: (string, string), environment: string, votes: seq<Vote>, reason: string)
      requires Keyed() && key in entries && votes != []
      modifies this, entries.Values
      ensures Keyed()
      ensures var e := old(State()).entries[key];
              var reached := |votes| >= Threshold(old(State()), environment) && e.state.Validated?;
              var next := if reached then Approved else e.state;
              State() == Logged(Filed(old(State()), key, e.(state := next)).(approvals := old(approvals)[(key.0, key.1, environment) := votes]),
                                key, if reached then WasApproved else ApprovalRecorded, e.state, next, Some(environment),
                                Some(votes[|votes| - 1].approver), reason)
    {
      var previous := entries[key].state;
      var reached := |votes| >= (if environment == "production" then threshold else 1) && previous.Validated?;
      assert previous == State().entries[key].state && reached == (|votes| >= Threshold(State(), environment) && previous.Validated?);
      hide Logged, State;
      SetState(key, if reached then Approved else previous);
      SetVotes((key.0, key.1, environment), votes);
      var _ := AppendEvent(key, if reached then WasApproved else ApprovalRecorded, previous, if reached then Approved else previous,
                           Some(environment), Some(votes[|votes| - 1].approver), reason);
    }

    method Approve(key: (string, string), approver: string, role: string, environment: string, reason: string) returns (res: Result<seq<Vote>, Error>)
      requires Keyed()
      modifies this, entries.Values
      ensures Keyed()
      ensures (State(), res) == ApproveStep(old(State()), key, approver, role, environment, reason)
    {
      hide Logged, HasVoted, Votes;
      var refusal := ApprovalRefusal(State(), key, approver, role, environment);
      if refusal.Some? { return Err(refusal.value); }
      var votes := OpenBallot(key, environment);
      if HasVoted(State(), votes, environment, approver, role) {
        assert HasVoted(old(State()), votes, environment, approver, role) by { SameRoles(old(State()), State(), votes, environment, approver, role); }
        return Err(AlreadyVoted);
      }
      SameRoles(old(State()), State(), votes, environment, approver, role);
      votes := votes + [Vote(approver, role, reason)];
      CastVote(key, environment, votes, reason);
      assert old(approvals)[(key.0, key.1, environment) := votes[..|votes| - 1]][(key.0, key.1, environment) := votes]
          == old(approvals)[(key.0, key.1, environment) := votes];
      return Ok(votes);
    }

    /** A version's state in one environment changes, and the event that says so. */
    method Move(key: (string, string), environment: string, to: Lifecycle.State, kind: EventKind, actor: Option<string>, reason: string) returns (record: Event)
      requires Keyed() && key in entries
      modifies entries[key], `events, `nextEventId
      ensures Keyed()
      ensures State() == Leave(old(State()), key, environment, to, kind, actor, reason) && record == Last(State())
    {
      hide Moved, EventId, StateIn, Logged;
      var entry := entries[key];
      var previous := entry.Enter(environment, to);
      FiledIs(old(State()), State(), key, entry.View());
      record := AppendEvent(key, kind, previous, to, Some(environment), actor, reason);
    }

    /** `_active[at] = version`. */
    method Activate(at: (string, string), version: string)
      modifies `active, `order
      ensures State() == Activated(old(State()), at, version)
    {
      if at !in active { order := order + [at]; }
      active := active[at := version];
      assert State().entries == old(State()).entries;
    }

    /** `_active.pop(at)`. */
    method Deactivate(at: (string, string))
      modifies `active, `order
      ensures State() == Deactivated(old(State()), at)
    {
      active := active - {at};
      order := Without(order, at);
      assert State().entries == old(State()).entries;
    }

    /** One version replaces another in an environment, or enters it. */
    method Switch(key: (string, string), environment: string, leaving: Lifecycle.State, leftAs: EventKind, leftReason: string,
                  enteredAs: EventKind, reason: string, actor: Option<string>) returns (record: Event)
      requires Keyed() && key in entries
      requires var previous := ActiveVersion(State(), key.0, environment); previous.Some? ==> (key.0, previous.value) in entries
      modifies this, entries.Values
      ensures Keyed()
      ensures State() == Switched(old(State()), key, environment, leaving, leftAs, leftReason, enteredAs, reason, actor)
      ensures record == Last(State())
    {
      if (key.0, environment) in active {
        var left := Move((key.0, active[(key.0, environment)]), environment, leaving, leftAs, actor, leftReason);
      }
      record := Move(key, environment, Deployed, enteredAs, actor, reason);
      Activate((key.0, environment), key.1);
    }

    method Deploy(key: (string, string), environment: string, reason: string, actor: Option<string>, supplied: Option<CanaryReport>)
      returns (res: Result<Event, Error>)
      requires Keyed()
      modifies this, entries.Values
      ensures Keyed()
      ensures (State(), res) == DeployStep(old(State()), key, environment, reason, actor, supplied)
    {
      hide Switched, SupersededReason;
      var refusal := DeployRefusal(State(), key, environment, supplied);
      if refusal.Some? { return Err(refusal.value); }
      var previous := ActiveVersion(State(), key.0, environment);
      if previous == Some(key.1) && events != [] { return Ok(events[|events| - 1]); }
      if previous.Some? && (key.0, previous.value) !in entries { return Err(UnknownPolicy); }
      var record := Switch(key, environment, Superseded, WasSuperseded, SupersededReason(key.1, reason), WasDeployed, reason, actor);
      return Ok(record);
    }

    method Rollback(policy: string, target: string, environment: string, reason: string, actor: Option<string>) returns (res: Result<Event, Error>)
      requires Keyed()
      modifies this, entries.Values
      ensures Keyed()
      ensures (State(), res) == RollbackStep(old(State()), policy, target, environment, reason, actor)
    {
      hide Switched;
      var refusal := RollbackRefusal(State(), policy, target, environment);
      if refusal.Some? { return Err(refusal.value); }
      var record := Switch((policy, target), environment, RolledBack, WasRolledBack, reason, RollbackRestored, reason, actor);
      return Ok(record);
    }

    method Expire(at: (string, string), now: real)
      requires Keyed()
      modifies this, entries.Values
      ensures Keyed()
      ensures State() == ExpireStep(old(State()), at, now)
      ensures entries == old(entries)
    {
      hide Leave;
      if at !in active { return; }
      var key := (at.0, active[at]);
      if key !in entries { return; }
      if !IsDue(State().entries[key], now) { return; }
      var _ := Move(key, at.1, Expired, HasExpired, None, "policy expiry reached");
      Deactivate(at);
    }

    /** `monitor`: every key that was active when it began. */
    method Monitor(now: real)
      requires Keyed()
      modifies this, entries.Values
      ensures Keyed()
      ensures State() == MonitorStep(old(State()), now) && entries == old(entries)
    {
      var keys := order;
      for i := 0 to |keys|
        invariant Keyed() && entries == old(entries)
        invariant State() == ExpireAll(old(State()), keys[..i], now)
      {
        hide ExpireStep, State;
        Expire(keys[i], now);
        assert keys[..i + 1][..i] == keys[..i];
      }
      assert keys[..|keys|] == keys;
    }

    method Current(policy: string, environment: string, now: real) returns (res: Result<Bundle, Error>)
      requires Keyed()
      modifies this, entries.Values
      ensures Keyed()
      ensures (State(), res) == CurrentStep(old(State()), policy, environment, now) && entries == old(entries)
    {
      hide MonitorStep;
      Monitor(now);
      if (policy, environment) !in active { return Err(NotActive); }
      var key := (policy, active[(policy, environment)]);
      if key !in entries { return Err(UnknownPolicy); }
      return Ok(entries[key].bundle);
    }

    method Promote(key: (string, string), source: string, target: string, now: real, reason: string, actor: Option<string>,
                   supplied: Option<CanaryReport>) returns (res: Result<Event, Error>)
      requires Keyed()
      modifies this, entries.Values
      ensures Keyed()
      ensures (State(), res) == PromoteStep(old(State()), key, source, target, now, reason, actor, supplied)
    {
      hide CurrentStep, DeployStep, State;
      var found := Current(key.0, source, now);
      if found.Err? { return Err(found.error); }
      if found.value.version != key.1 { return Err(NotActive); }
      res := Deploy(key, target, reason, actor, supplied);
    }
  }
}
