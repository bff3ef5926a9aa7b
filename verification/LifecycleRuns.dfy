/** The policy lifecycle over whole runs, and what canaries sample. */
module LifecycleRuns {
  import opened Text
  import opened Lifecycle
  import opened LifecycleLaws

  // -------------------------------------------------------------- the index

  /** A version is active exactly where it is deployed, and its aggregate state is
      deployed exactly when it is active somewhere. */
  lemma IndexAgrees(threshold: int, roles: set<string>, ops: seq<Op>, key: (string, string), environment: string)
    requires threshold >= 1 && key in Run(Initial(threshold, roles), ops).entries
    ensures var m := Run(Initial(threshold, roles), ops);
            && (ActiveVersion(m, key.0, environment) == Some(key.1) <==> StateIn(m.entries[key].(state := Draft), environment).Deployed?)
            && (m.entries[key].state.Deployed? <==> exists e :: e in m.entries[key].environments && ActiveVersion(m, key.0, e) == Some(key.1))
  {
    var m := Run(Initial(threshold, roles), ops);
    RunIsValid(threshold, roles, ops);
    hide Run;
    assert PlaceOk(m, key, environment) by { assert PlacesOk(m); }
    assert Final(m.entries[key]);
    FinalMeansExpired(m, key);
    var places := m.entries[key].environments;
    hide EntriesOk, BallotsOk, OrderOk, LogOk, Final, Aggregate;
    if m.entries[key].state.Deployed? {
      var e :| e in places && places[e].Deployed?;
      assert PlaceOk(m, key, e);
    }
    if e :| e in places && ActiveVersion(m, key.0, e) == Some(key.1) {
      assert PlaceOk(m, key, e);
      assert Somewhere(places, Deployed);
    }
  }

  /** Whatever was done, an active version was validated and simulated, and at least
      the environment's threshold of distinct approvers voted for it there. */
  lemma ActiveIsEntitled(threshold: int, roles: set<string>, ops: seq<Op>, policy: string, environment: string)
    requires threshold >= 1 && ActiveVersion(Run(Initial(threshold, roles), ops), policy, environment).Some?
    ensures var m := Run(Initial(threshold, roles), ops);
            var key := (policy, m.active[(policy, environment)]);
            && key in m.entries && WasEverValidated(m.events, key) && m.entries[key].simulation.Some?
            && Entitled(m, key, environment)
  {
    var m := Run(Initial(threshold, roles), ops);
    RunIsValid(threshold, roles, ops);
    hide Run, BallotsOk, OrderOk, LogOk, Final, WasEverValidated, Entitled;
    var key := (policy, m.active[(policy, environment)]);
    assert PlaceOk(m, key, environment) && EntryOk(m, key);
    assert Somewhere(m.entries[key].environments, Deployed);
  }

  // ------------------------------------------------------------------ expiry

  /** An expired version is active nowhere. */
  lemma ExpiredIsIdle(m: Manager, key: (string, string), environment: string)
    requires EntriesOk(m) && PlacesOk(m) && key in m.entries && m.entries[key].state.Expired?
    ensures ActiveVersion(m, key.0, environment) != Some(key.1)
  {
    assert EntryOk(m, key) && PlaceOk(m, key, environment);
    hide EntriesOk, PlacesOk, Entitled, WasEverValidated;
    var places := m.entries[key].environments;
    assert environment in places && places[environment].Deployed? ==> Somewhere(places, Deployed);
  }

  lemma ExpiredSurvivesExpiry(n: Manager, at: (string, string), now: real, key: (string, string))
    requires Sound(n) && key in n.entries && n.entries[key].state.Expired?
    ensures key in ExpireStep(n, at, now).entries && ExpireStep(n, at, now).entries[key] == n.entries[key]
  {
    hide Sound, Moved, Without;
    Whole(n);
    ExpiredIsIdle(n, key, at.1);
  }

  lemma {:induction false} ExpiredSurvivesMonitor(m: Manager, keys: seq<(string, string)>, now: real, key: (string, string))
    requires Valid(m) && key in m.entries && m.entries[key].state.Expired?
    ensures var n := ExpireAll(m, keys, now); key in n.entries && n.entries[key] == m.entries[key]
  {
    if keys != [] {
      ExpiredSurvivesMonitor(m, keys[..|keys| - 1], now, key);
      ExpireAllKeeps(m, keys[..|keys| - 1], now);
      ExpiredSurvivesExpiry(ExpireAll(m, keys[..|keys| - 1], now), keys[|keys| - 1], now, key);
    }
  }

  lemma ExpiredSurvivesSwitch(m: Manager, key: (string, string), environment: string, leaving: State, leftAs: EventKind, leftReason: string,
                              enteredAs: EventKind, reason: string, actor: Option<string>, k: (string, string))
    requires Valid(m) && key in m.entries && k in m.entries && m.entries[k].state.Expired? && !m.entries[key].state.Expired?
    requires ActiveVersion(m, key.0, environment) != Some(key.1)
    requires var previous := ActiveVersion(m, key.0, environment); previous.Some? ==> (key.0, previous.value) in m.entries
    ensures var n := Switched(m, key, environment, leaving, leftAs, leftReason, enteredAs, reason, actor);
            k in n.entries && n.entries[k] == m.entries[k]
  {
    hide Sound, Final, Moved, Switched, EntriesOk, PlacesOk;
    Whole(m);
    ExpiredIsIdle(m, k, environment);
    SwitchedEntries(m, key, environment, leaving, leftAs, leftReason, enteredAs, reason, actor);
  }

  lemma ExpiredSurvivesDeploy(m: Manager, key: (string, string), environment: string, reason: string, actor: Option<string>, report: Option<CanaryReport>, k: (string, string))
    requires Valid(m) && k in m.entries && m.entries[k].state.Expired?
    ensures var n := DeployStep(m, key, environment, reason, actor, report).0; k in n.entries && n.entries[k] == m.entries[k]
  {
    hide Valid, Switched;
    if DeployRefusal(m, key, environment, report).None? {
      HasEvents(m);
      var previous := ActiveVersion(m, key.0, environment);
      if previous != Some(key.1) && (previous.Some? ==> (key.0, previous.value) in m.entries) {
        ExpiredSurvivesSwitch(m, key, environment, Superseded, WasSuperseded, SupersededReason(key.1, reason), WasDeployed, reason, actor, k);
      }
    }
  }

  lemma ExpiredSurvivesStep(m: Manager, op: Op, key: (string, string))
    requires Valid(m) && key in m.entries && m.entries[key].state.Expired?
    ensures key in Step(m, op).entries && Step(m, op).entries[key].state.Expired?
  {
    hide Valid, Switched, DeployStep, Simulation, Canaried, EventId;
    match op
    case DoDeploy(k, environment, reason, actor, report) => ExpiredSurvivesDeploy(m, k, environment, reason, actor, report, key);
    case DoPromote(k, source, target, now, reason, actor, report) =>
      ExpiredSurvivesMonitor(m, m.order, now, key);
      MonitorKeepsValid(m, now);
      ExpiredSurvivesDeploy(MonitorStep(m, now), k, target, reason, actor, report, key);
    case DoRollback(policy, target, environment, reason, actor) =>
      if RollbackRefusal(m, policy, target, environment).None? {
        ExpiredSurvivesSwitch(m, (policy, target), environment, RolledBack, WasRolledBack, reason, RollbackRestored, reason, actor, key);
      }
    case DoMonitor(now) => ExpiredSurvivesMonitor(m, m.order, now, key);
    case DoCurrent(_, _, now) => ExpiredSurvivesMonitor(m, m.order, now, key);
    case _ =>
  }

  /** Expiry is final: a version that expired in one environment is never active
      again in any, whatever is done next. */
  lemma {:induction false} ExpiryIsFinal(threshold: int, roles: set<string>, ops: seq<Op>, more: seq<Op>, key: (string, string), expired: string, environment: string)
    requires threshold >= 1
    requires var m := Run(Initial(threshold, roles), ops);
             key in m.entries && expired in m.entries[key].environments && m.entries[key].environments[expired].Expired?
    ensures var n := Run(Initial(threshold, roles), ops + more);
            && key in n.entries && n.entries[key].state.Expired?
            && ActiveVersion(n, key.0, environment) != Some(key.1)
    decreases |more|
  {
    var first := Initial(threshold, roles);
    RunIsValid(threshold, roles, ops + more);
    hide Valid, Step;
    if more == [] {
      assert ops + more == ops;
      StandsExpired(Run(first, ops), key, expired);
    } else {
      var front, last := more[..|more| - 1], more[|more| - 1];
      ExpiryIsFinal(threshold, roles, ops, front, key, expired, environment);
      RunIsValid(threshold, roles, ops + front);
      assert (ops + more)[..|ops + more| - 1] == ops + front;
      ExpiredSurvivesStep(Run(first, ops + front), last, key);
    }
    StandsIdle(Run(first, ops + more), key, environment);
  }

  lemma StandsExpired(m: Manager, key: (string, string), environment: string)
    requires Valid(m) && key in m.entries && environment in m.entries[key].environments && m.entries[key].environments[environment].Expired?
    ensures m.entries[key].state.Expired?
  {
    Whole(m);
    assert Final(m.entries[key]);
    hide Sound, EntriesOk, PlacesOk;
    FinalMeansExpired(m, key);
  }

  lemma StandsIdle(m: Manager, key: (string, string), environment: string)
    requires Valid(m) && key in m.entries && m.entries[key].state.Expired?
    ensures ActiveVersion(m, key.0, environment) != Some(key.1)
  {
    Whole(m);
    hide Sound;
    ExpiredIsIdle(m, key, environment);
  }

  /** `current` answers with the active version's bundle, never with one past its expiry. */
  lemma CurrentIsLive(threshold: int, roles: set<string>, ops: seq<Op>, policy: string, environment: string, now: real)
    requires threshold >= 1
    ensures var (n, found) := CurrentStep(Run(Initial(threshold, roles), ops), policy, environment, now);
            && (found.Ok? <==> (policy, environment) in n.active)
            && (found.Ok? ==>
                  && found.value.policyId == policy && n.active[(policy, environment)] == found.value.version
                  && var e := n.entries[(policy, found.value.version)];
                     e.bundle == found.value && (e.expiresAt.Some? ==> now < e.expiresAt.value))
  {
    var m := Run(Initial(threshold, roles), ops);
    RunIsValid(threshold, roles, ops);
    hide Run, Valid, MonitorStep;
    MonitorKeepsValid(m, now);
    var n := MonitorStep(m, now);
    if (policy, environment) in n.active { KeyedByBundle(n, (policy, n.active[(policy, environment)])); }
  }

  lemma KeyedByBundle(m: Manager, key: (string, string))
    requires Valid(m) && key in m.entries
    ensures (m.entries[key].bundle.policyId, m.entries[key].bundle.version) == key
  {
    hide PlacesOk, BallotsOk, OrderOk, LogOk, Final;
    assert EntryOk(m, key);
  }

  // ----------------------------------------------------------------- the log

  lemma {:induction false} ExpiringAppends(m: Manager, keys: seq<(string, string)>, now: real)
    ensures m.events <= ExpireAll(m, keys, now).events
  {
    if keys != [] {
      hide Moved, Without, EventId;
      ExpiringAppends(m, keys[..|keys| - 1], now);
    }
  }

  lemma SwitchingAppends(m: Manager, key: (string, string), environment: string, leaving: State, leftAs: EventKind, leftReason: string,
                         enteredAs: EventKind, reason: string, actor: Option<string>)
    requires key in m.entries
    requires var previous := ActiveVersion(m, key.0, environment); previous.Some? ==> (key.0, previous.value) in m.entries
    ensures m.events <= Switched(m, key, environment, leaving, leftAs, leftReason, enteredAs, reason, actor).events
  {
    hide Moved, EventId;
  }

  lemma DeployAppends(m: Manager, key: (string, string), environment: string, reason: string, actor: Option<string>, report: Option<CanaryReport>)
    ensures m.events <= DeployStep(m, key, environment, reason, actor, report).0.events
  {
    hide Switched;
    var previous := ActiveVersion(m, key.0, environment);
    if key in m.entries && (previous.Some? ==> (key.0, previous.value) in m.entries) {
      SwitchingAppends(m, key, environment, Superseded, WasSuperseded, SupersededReason(key.1, reason), WasDeployed, reason, actor);
    }
  }

  lemma StepAppends(m: Manager, op: Op)
    ensures m.events <= Step(m, op).events
  {
    hide Moved, EventId, Simulation, Canaried, ExpireAll, Aggregate, Switched, DeployStep;
    match op
    case DoDeploy(key, environment, reason, actor, report) => DeployAppends(m, key, environment, reason, actor, report);
    case DoPromote(key, source, target, now, reason, actor, report) =>
      ExpiringAppends(m, m.order, now);
      DeployAppends(MonitorStep(m, now), key, target, reason, actor, report);
    case DoRollback(policy, target, environment, reason, actor) =>
      if RollbackRefusal(m, policy, target, environment).None? {
        SwitchingAppends(m, (policy, target), environment, RolledBack, WasRolledBack, reason, RollbackRestored, reason, actor);
      }
    case DoMonitor(now) => ExpiringAppends(m, m.order, now);
    case DoCurrent(_, _, now) => ExpiringAppends(m, m.order, now);
    case _ =>
  }

  /** The log is append-only, every event carries its number, leaves the state that
      the earlier events give, and the events alone rebuild every version's states
      and the index of active versions. */
  lemma {:induction false} LogRebuildsState(threshold: int, roles: set<string>, ops: seq<Op>, more: seq<Op>)
    requires threshold >= 1
    ensures var m, n := Run(Initial(threshold, roles), ops), Run(Initial(threshold, roles), ops + more);
            m.events <= n.events && Faithful(n.events) && Replay(n.events) == ReplicaOf(n)
    decreases |more|
  {
    var first := Initial(threshold, roles);
    RunIsValid(threshold, roles, ops + more);
    Whole(Run(first, ops + more));
    hide Valid, Step, EntriesOk, PlacesOk, BallotsOk, OrderOk;
    if more == [] {
      assert ops + more == ops;
    } else {
      var front, last := more[..|more| - 1], more[|more| - 1];
      LogRebuildsState(threshold, roles, ops, front);
      assert (ops + more)[..|ops + more| - 1] == ops + front;
      StepAppends(Run(first, ops + front), last);
    }
  }

  lemma EventIdsDiffer(events: seq<Event>, j: nat, k: nat)
    requires Faithful(events) && j < k < |events|
    ensures events[j].id != events[k].id
  {
    var prefix := "policy-lifecycle-";
    assert EventId(j + 1)[|prefix|..] == Pad4(j + 1) && EventId(k + 1)[|prefix|..] == Pad4(k + 1);
    PaddedRoundTrip(j + 1);
    PaddedRoundTrip(k + 1);
  }

  // ---------------------------------------------------------------- canaries

  /** A case sampled at some rate is sampled at every higher one, and at rate one every case is. */
  lemma SamplingIsMonotone(low: real, high: real, c: Case)
    requires low <= high
    ensures IsSampled(low, c) ==> IsSampled(high, c)
    ensures IsSampled(1.0, c)
  {
    assert c.prefix as real / PREFIXES as real < 1.0;
  }

  lemma {:induction false} SampledAreSampled(rate: real, cases: seq<Case>, c: Case)
    ensures c in Sampled(rate, cases) <==> c in cases && IsSampled(rate, c)
  {
    if cases != [] {
      SampledAreSampled(rate, cases[..|cases| - 1], c);
      assert cases == cases[..|cases| - 1] + [cases[|cases| - 1]];
    }
  }

  lemma {:induction false} FullRateSamplesAll(cases: seq<Case>)
    ensures Sampled(1.0, cases) == cases
  {
    if cases != [] {
      FullRateSamplesAll(cases[..|cases| - 1]);
      SamplingIsMonotone(1.0, 1.0, cases[|cases| - 1]);
      assert cases == cases[..|cases| - 1] + [cases[|cases| - 1]];
    }
  }

  /** Sampling at a lower rate from the cases of a higher one gives the lower sample. */
  lemma {:induction false} SamplesNest(low: real, high: real, cases: seq<Case>)
    requires low <= high
    ensures Sampled(low, Sampled(high, cases)) == Sampled(low, cases)
  {
    if cases != [] {
      var front, last := cases[..|cases| - 1], cases[|cases| - 1];
      SamplesNest(low, high, front);
      SamplingIsMonotone(low, high, last);
      if IsSampled(high, last) {
        assert (Sampled(high, front) + [last])[..|Sampled(high, front)|] == Sampled(high, front);
      }
    }
  }

  function Results(candidate: Bundle, baseline: Bundle, cases: seq<Case>): seq<CaseResult> {
    Report(candidate, Some(baseline), cases).cases
  }

  lemma {:induction false} FewerCasesFewerChanges(candidate: Bundle, baseline: Bundle, rate: real, cases: seq<Case>)
    ensures Changes(Results(candidate, baseline, Sampled(rate, cases))) <= Changes(Results(candidate, baseline, cases))
  {
    if cases != [] {
      var front, last := cases[..|cases| - 1], cases[|cases| - 1];
      FewerCasesFewerChanges(candidate, baseline, rate, front);
      assert cases == front + [last];
      ResultsExtend(candidate, baseline, front, last);
      ResultsExtend(candidate, baseline, Sampled(rate, front), last);
    }
  }

  lemma ResultsExtend(candidate: Bundle, baseline: Bundle, cases: seq<Case>, last: Case)
    ensures Changes(Results(candidate, baseline, cases + [last]))
         == Changes(Results(candidate, baseline, cases)) + if Compared(candidate, Some(baseline), last).changed then 1 else 0
  {
    var all := Results(candidate, baseline, cases + [last]);
    assert all[..|all| - 1] == Results(candidate, baseline, cases);
  }

  lemma {:induction false} SampledStayDistinct(rate: real, cases: seq<Case>)
    requires DistinctCases(cases)
    ensures DistinctCases(Sampled(rate, cases))
    ensures forall c :: c in Sampled(rate, cases) ==> c in cases
  {
    if cases != [] {
      var front, last := cases[..|cases| - 1], cases[|cases| - 1];
      SampledStayDistinct(rate, front);
      forall c | c in front ensures c.id != last.id {}
    }
  }

  /** A canary that passes at a rate passes, on the same cases and baseline, at every lower rate. */
  lemma CanaryPassesAtLowerRates(m: Manager, key: (string, string), cases: seq<Case>, baseline: Bundle, environment: string,
                                 low: real, high: real, maxChanged: int)
    requires key in m.entries && low <= high
    requires Canaried(m, key, cases, baseline, environment, high, maxChanged).Ok?
    requires Canaried(m, key, cases, baseline, environment, high, maxChanged).value.passed
    ensures Canaried(m, key, cases, baseline, environment, low, maxChanged).Ok?
    ensures Canaried(m, key, cases, baseline, environment, low, maxChanged).value.passed
  {
    SampledStayDistinct(low, Sampled(high, cases));
    SamplesNest(low, high, cases);
    FewerCasesFewerChanges(m.entries[key].bundle, baseline, low, Sampled(high, cases));
  }

  // --------------------------------------------------- evidence of a canary

  /** The report of a canary that ran `candidate` against `baseline` on a sample of `cases`. */
  ghost predicate Ran(r: CanaryReport, candidate: Bundle, baseline: Bundle, cases: seq<Case>) {
    && 0.0 < r.sampleRate <= 1.0
    && r.simulation == Report(candidate, Some(baseline), Sampled(r.sampleRate, cases))
    && (r.passed <==> Changes(r.simulation.cases) <= r.maxChanged)
  }

  ghost predicate Recorded(m: Manager, key: (string, string), environment: string)
    requires key in m.entries && environment in m.entries[key].canaries
  {
    var r := m.entries[key].canaries[environment];
    && (r.policyId, r.candidateVersion) == key && r.environment == environment
    && exists baseline, cases :: Ran(r, m.entries[key].bundle, baseline, cases)
  }

  ghost predicate Evidence(m: Manager) {
    forall key, environment {:trigger Recorded(m, key, environment)} ::
      key in m.entries && environment in m.entries[key].canaries ==> Recorded(m, key, environment)
  }

  /** No version's canaries change, and a new version has none. */
  ghost predicate SameCanaries(m: Manager, n: Manager) {
    && (forall key :: key in m.entries ==> key in n.entries)
    && (forall key :: key in n.entries && key in m.entries ==>
          n.entries[key].canaries == m.entries[key].canaries && n.entries[key].bundle == m.entries[key].bundle)
    && (forall key :: key in n.entries && key !in m.entries ==> n.entries[key].canaries == map[])
  }

  lemma SameCanariesKeepEvidence(m: Manager, n: Manager)
    requires Evidence(m) && SameCanaries(m, n)
    ensures Evidence(n)
  {
    forall key, environment | key in n.entries && environment in n.entries[key].canaries ensures Recorded(n, key, environment) {
      assert Recorded(m, key, environment);
    }
  }

  lemma LeavingKeepsCanaries(m: Manager, key: (string, string), environment: string, to: State, kind: EventKind, actor: Option<string>, reason: string)
    requires key in m.entries
    ensures SameCanaries(m, Leave(m, key, environment, to, kind, actor, reason))
  {
    hide EventId, StateIn, Aggregate;
  }

  lemma ExpireStepKeepsCanaries(m: Manager, at: (string, string), now: real)
    ensures SameCanaries(m, ExpireStep(m, at, now))
  {
    hide Leave, Without;
    if at in m.active && (at.0, m.active[at]) in m.entries {
      LeavingKeepsCanaries(m, (at.0, m.active[at]), at.1, Expired, HasExpired, None, "policy expiry reached");
    }
  }

  lemma {:induction false} ExpiringKeepsCanaries(m: Manager, keys: seq<(string, string)>, now: real)
    ensures SameCanaries(m, ExpireAll(m, keys, now))
  {
    if keys != [] {
      var n, at := ExpireAll(m, keys[..|keys| - 1], now), keys[|keys| - 1];
      ExpiringKeepsCanaries(m, keys[..|keys| - 1], now);
      ExpireStepKeepsCanaries(n, at, now);
      hide ExpireStep;
    }
  }

  lemma SwitchingKeepsCanaries(m: Manager, key: (string, string), environment: string, leaving: State, leftAs: EventKind, leftReason: string,
                               enteredAs: EventKind, reason: string, actor: Option<string>)
    requires key in m.entries
    requires var previous := ActiveVersion(m, key.0, environment); previous.Some? ==> (key.0, previous.value) in m.entries
    ensures SameCanaries(m, Switched(m, key, environment, leaving, leftAs, leftReason, enteredAs, reason, actor))
  {
    hide Leave;
    var previous := ActiveVersion(m, key.0, environment);
    if previous.Some? {
      LeavingKeepsCanaries(m, (key.0, previous.value), environment, leaving, leftAs, actor, leftReason);
      LeavingKeepsCanaries(Leave(m, (key.0, previous.value), environment, leaving, leftAs, actor, leftReason), key, environment, Deployed, enteredAs, actor, reason);
    } else {
      LeavingKeepsCanaries(m, key, environment, Deployed, enteredAs, actor, reason);
    }
  }

  lemma DeployKeepsCanaries(m: Manager, key: (string, string), environment: string, reason: string, actor: Option<string>, report: Option<CanaryReport>)
    ensures SameCanaries(m, DeployStep(m, key, environment, reason, actor, report).0)
  {
    hide Switched;
    var previous := ActiveVersion(m, key.0, environment);
    if key in m.entries && (previous.Some? ==> (key.0, previous.value) in m.entries) {
      SwitchingKeepsCanaries(m, key, environment, Superseded, WasSuperseded, SupersededReason(key.1, reason), WasDeployed, reason, actor);
    }
  }

  lemma CanaryKeepsEvidence(m: Manager, key: (string, string), cases: seq<Case>, supplied: Option<Bundle>, environment: string,
                            rate: real, maxChanged: int, actor: Option<string>, reason: string)
    requires Evidence(m)
    ensures Evidence(CanaryStep(m, key, cases, supplied, environment, rate, maxChanged, actor, reason).0)
  {
    hide EventId, Report, Sampled, Changes;
    var n := CanaryStep(m, key, cases, supplied, environment, rate, maxChanged, actor, reason).0;
    forall k, e | k in n.entries && e in n.entries[k].canaries ensures Recorded(n, k, e) {
      if k == key && e == environment && n != m {
        assert Ran(n.entries[k].canaries[e], n.entries[k].bundle, Baseline(m, key.0, environment, supplied).value, cases);
      } else {
        assert Recorded(m, k, e);
      }
    }
  }

  lemma RecordingKeepsCanaries(m: Manager, op: Op)
    requires op.DoDraft? || op.DoValidate? || op.DoSimulate?
    ensures SameCanaries(m, Step(m, op))
  {
    hide SameCanaries;
    Alike(m);
    var n := Step(m, op);
    if n.entries != m.entries {
      var key := if op.DoDraft? then (op.bundle.policyId, op.bundle.version) else op.key;
      assert n.entries == m.entries[key := n.entries[key]] by { hide Logged, Simulation, Baseline; }
      FilingKeepsCanaries(m, n, key);
    } else {
      FilingNothing(m, n);
    }
  }

  lemma FilingNothing(m: Manager, n: Manager)
    requires n.entries == m.entries
    ensures SameCanaries(m, n)
  {}

  lemma FilingKeepsCanaries(m: Manager, n: Manager, key: (string, string))
    requires key in n.entries && n.entries == m.entries[key := n.entries[key]]
    requires if key in m.entries then n.entries[key].canaries == m.entries[key].canaries && n.entries[key].bundle == m.entries[key].bundle
             else n.entries[key].canaries == map[]
    ensures SameCanaries(m, n)
  {}

  lemma ApprovingKeepsCanaries(m: Manager, key: (string, string), approver: string, role: string, environment: string, reason: string)
    ensures SameCanaries(m, ApproveStep(m, key, approver, role, environment, reason).0)
  {
    hide EventId, Votes, Threshold;
  }

  lemma StepKeepsCanaries(m: Manager, op: Op)
    requires !op.DoCanary?
    ensures SameCanaries(m, Step(m, op))
  {
    hide SameCanaries, Switched, DeployStep, ExpireAll, DraftStep, ValidateStep, SimulateStep, ApproveStep;
    assert SameCanaries(m, m) by { Alike(m); }
    match op
    case DoDeploy(key, environment, reason, actor, report) => DeployKeepsCanaries(m, key, environment, reason, actor, report);
    case DoPromote(key, source, target, now, reason, actor, report) =>
      ExpiringKeepsCanaries(m, m.order, now);
      DeployKeepsCanaries(MonitorStep(m, now), key, target, reason, actor, report);
      AlikeTwice(m, MonitorStep(m, now), DeployStep(MonitorStep(m, now), key, target, reason, actor, report).0);
    case DoRollback(policy, target, environment, reason, actor) =>
      if RollbackRefusal(m, policy, target, environment).None? {
        SwitchingKeepsCanaries(m, (policy, target), environment, RolledBack, WasRolledBack, reason, RollbackRestored, reason, actor);
      }
    case DoMonitor(now) => ExpiringKeepsCanaries(m, m.order, now);
    case DoCurrent(_, _, now) => ExpiringKeepsCanaries(m, m.order, now);
    case DoApprove(key, approver, role, environment, reason) => ApprovingKeepsCanaries(m, key, approver, role, environment, reason);
    case _ => RecordingKeepsCanaries(m, op);
  }

  lemma Alike(m: Manager)
    ensures SameCanaries(m, m)
  {}

  lemma AlikeTwice(m: Manager, n: Manager, o: Manager)
    requires SameCanaries(m, n) && SameCanaries(n, o)
    ensures SameCanaries(m, o)
  {}

  lemma StepKeepsEvidence(m: Manager, op: Op)
    requires Evidence(m)
    ensures Evidence(Step(m, op))
  {
    hide Evidence, SameCanaries, CanaryStep;
    if op.DoCanary? {
      CanaryKeepsEvidence(m, op.key, op.cases, op.supplied, op.environment, op.rate, op.maxChanged, op.actor, op.reason);
    } else {
      StepKeepsCanaries(m, op);
      SameCanariesKeepEvidence(m, Step(m, op));
    }
  }

  lemma {:induction false} RunKeepsEvidence(threshold: int, roles: set<string>, ops: seq<Op>)
    ensures Evidence(Run(Initial(threshold, roles), ops))
  {
    if ops != [] {
      hide Evidence, Step;
      RunKeepsEvidence(threshold, roles, ops[..|ops| - 1]);
      StepKeepsEvidence(Run(Initial(threshold, roles), ops[..|ops| - 1]), ops[|ops| - 1]);
    }
  }

  /** In any run, production changes hands by deployment only if a recorded canary ran
      this bundle against a bundle of the version it replaces, on a positive sample,
      with no more changed decisions than that canary allowed. */
  lemma ProductionDeployHasEvidence(threshold: int, roles: set<string>, ops: seq<Op>, key: (string, string), reason: string, actor: Option<string>,
                                    supplied: Option<CanaryReport>)
    returns (report: CanaryReport, baseline: Bundle, cases: seq<Case>)
    requires var m := Run(Initial(threshold, roles), ops);
             DeployStep(m, key, "production", reason, actor, supplied).1.Ok? && (key.0, "production") in m.active
    ensures var m := Run(Initial(threshold, roles), ops);
            && key in m.entries && StoredCanary(m.entries[key], "production") == Some(report)
            && Ran(report, m.entries[key].bundle, baseline, cases) && baseline.version == m.active[(key.0, "production")]
            && Changes(report.simulation.cases) <= report.maxChanged
  {
    var m := Run(Initial(threshold, roles), ops);
    RunKeepsEvidence(threshold, roles, ops);
    hide Run, Switched;
    report := m.entries[key].canaries["production"];
    assert Recorded(m, key, "production");
    baseline, cases :| Ran(report, m.entries[key].bundle, baseline, cases);
  }
}
