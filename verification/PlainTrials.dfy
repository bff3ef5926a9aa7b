/** Filing, validation, simulation and canaries in plain terms, and the votes of versions
    that are not yet approved (governance/lifecycle.py). */
module PlainTrials {
  import opened Text
  import opened Lifecycle
  import opened LifecycleLaws
  import opened LifecycleRuns
  import opened PlainLifecycle

  /** Only one entry, the events and their count changed. */
  ghost predicate OnlyEntry(m: Manager, n: Manager, key: (string, string))
    requires key in n.entries
  {
    && n.entries == m.entries[key := n.entries[key]] && n.approvals == m.approvals && n.active == m.active && n.order == m.order
    && n.threshold == m.threshold && n.roles == m.roles
  }

  /** An entry filed with its event. */
  lemma RecordShape(m: Manager, key: (string, string), e: Entry, kind: EventKind, from: State, to: State, environment: Option<string>, actor: Option<string>, reason: string)
    requires m.nextEventId >= 0
    ensures var n := Logged(Filed(m, key, e), key, kind, from, to, environment, actor, reason);
            && key in n.entries && n.entries[key] == e && OnlyEntry(m, n, key)
            && Notes(m, n, key, kind, from, to, environment, actor, reason)
            && n.events != [] && Last(n) == n.events[|m.events|]
  {
    hide Pad4;
  }

  lemma RefiledIsSame(m: Manager, key: (string, string))
    requires key in m.entries
    ensures Filed(m, key, m.entries[key]) == m
  {
    assert m.entries[key := m.entries[key]] == m.entries;
  }

  /** Filing: refused for an expiry that is not in the future or for other content under the
      version; nothing happens when the content is on file. */
  lemma DraftInPlainTerms(m: Manager, bundle: Bundle, owner: string, expiresAt: Option<real>, now: real, reason: string)
    requires Valid(m)
    ensures var (n, res) := DraftStep(m, bundle, owner, expiresAt, now, reason);
            var key := (bundle.policyId, bundle.version);
            if expiresAt.Some? && expiresAt.value <= now then n == m && res == Err(ExpiryNotInFuture)
            else if key in m.entries then
              if m.entries[key].bundle.contentHash != bundle.contentHash then n == m && res == Err(DifferentContent)
              else n == m && m.events != [] && res == Ok(m.events[|m.events| - 1])
            else
              && m.nextEventId >= 0 && key in n.entries && OnlyEntry(m, n, key)
              && Filing(n.entries[key], bundle, owner, expiresAt)
              && Notes(m, n, key, Drafted, Draft, Draft, None, Some(owner), reason)
              && res == Ok(n.events[|m.events|])
  {
    IncumbentIsKnown(m, bundle.policyId, "");
    if m.entries != map[] { HasEvents(m); }
    hide Valid, Logged, Filed, OnlyEntry, Notes, Filing;
    FilingOf(bundle, owner, expiresAt);
    RecordShape(m, (bundle.policyId, bundle.version), Entry(bundle, owner, expiresAt, Draft, map[], None, map[]), Drafted, Draft, Draft, None, Some(owner), reason);
  }

  ghost predicate Filing(e: Entry, bundle: Bundle, owner: string, expiresAt: Option<real>) {
    && e.bundle.policyId == bundle.policyId && e.bundle.version == bundle.version && e.bundle.contentHash == bundle.contentHash
    && e.bundle.compiles == bundle.compiles && e.bundle.decide == bundle.decide
    && e.owner == owner && e.expiresAt == expiresAt && e.state == Draft && |e.environments| == 0 && e.simulation.None? && |e.canaries| == 0
  }

  lemma FilingOf(bundle: Bundle, owner: string, expiresAt: Option<real>)
    ensures Filing(Entry(bundle, owner, expiresAt, Draft, map[], None, map[]), bundle, owner, expiresAt)
  {}

  /** Validation: a draft that compiles becomes validated, and one that does not is noted. */
  lemma ValidationInPlainTerms(m: Manager, key: (string, string), actor: Option<string>, reason: string)
    requires Valid(m)
    ensures var (n, res) := ValidateStep(m, key, actor, reason);
            if key !in m.entries then n == m && res == Err(UnknownPolicy)
            else if m.entries[key].state != Draft then n == m && res == Err(WrongState(m.entries[key].state))
            else
              var e := m.entries[key];
              && m.nextEventId >= 0 && key in n.entries && OnlyEntry(m, n, key)
              && if e.bundle.compiles then
                   && n.entries[key] == e.(state := Validated) && Notes(m, n, key, WasValidated, Draft, Validated, None, actor, reason)
                   && res == Ok(n.events[|m.events|])
                 else
                   && n.entries[key] == e && Notes(m, n, key, ValidationFailed, Draft, Draft, None, actor, "does not compile")
                   && res == Err(DoesNotCompile)
  {
    IncumbentIsKnown(m, key.0, "");
    hide Valid, Logged, Filed, OnlyEntry, Notes;
    if key in m.entries {
      var e := m.entries[key];
      RecordShape(m, key, e.(state := Validated), WasValidated, Draft, Validated, None, actor, reason);
      RefiledIsSame(m, key);
      RecordShape(m, key, e, ValidationFailed, Draft, Draft, None, actor, "does not compile");
    }
  }

  // ------------------------------------------------------------ comparisons

  /** The supplied baseline, or the bundle in place in the environment. */
  function Yardstick(m: Manager, policy: string, environment: string, supplied: Option<Bundle>): Option<Bundle> {
    match (supplied, Incumbent(m, policy, environment))
    case (Some(b), _) => Some(b)
    case (None, Some(v)) => if (policy, v) in m.entries then Some(m.entries[(policy, v)].bundle) else None
    case (None, None) => None
  }

  /** Both policies decide every case, in order; a case changed when they differ. */
  predicate Decides(candidate: Bundle, baseline: Option<Bundle>, cases: seq<Case>, results: seq<CaseResult>) {
    && |results| == |cases|
    && forall i :: 0 <= i < |cases| ==>
         && results[i].id == cases[i].id && results[i].candidate == candidate.decide(cases[i])
         && match baseline
            case None => results[i].baseline == None && !results[i].changed
            case Some(b) => results[i].baseline == Some(b.decide(cases[i])) && (results[i].changed <==> candidate.decide(cases[i]) != b.decide(cases[i]))
  }

  predicate SomeTwice(cases: seq<Case>) { exists i, j :: 0 <= i < j < |cases| && cases[i].id == cases[j].id }

  /** A simulation: refused for an id that occurs twice or a policy that does not compile. */
  lemma SimulationInPlainTerms(candidate: Bundle, baseline: Option<Bundle>, cases: seq<Case>)
    ensures var res := Simulation(candidate, baseline, cases);
            if SomeTwice(cases) then res == Err(DuplicateCases)
            else if !candidate.compiles || (baseline.Some? && !baseline.value.compiles) then res == Err(DoesNotCompile)
            else
              && res.Ok? && res.value.policyId == candidate.policyId && res.value.candidateVersion == candidate.version
              && res.value.baselineVersion == (if baseline.Some? then Some(baseline.value.version) else None)
              && Decides(candidate, baseline, cases, res.value.cases)
  {
    if SomeTwice(cases) {
      var i, j :| 0 <= i < j < |cases| && cases[i].id == cases[j].id;
      assert !DistinctCases(cases);
    } else {
      assert DistinctCases(cases);
    }
  }

  /** `simulate`: for a validated version only; the report is kept and noted. */
  lemma SimulateInPlainTerms(m: Manager, key: (string, string), cases: seq<Case>, supplied: Option<Bundle>, environment: string,
                             actor: Option<string>, reason: string)
    requires Valid(m)
    ensures var (n, res) := SimulateStep(m, key, cases, supplied, environment, actor, reason);
            if key !in m.entries then n == m && res == Err(UnknownPolicy)
            else if m.entries[key].state != Validated then n == m && res == Err(WrongState(m.entries[key].state))
            else
              var e := m.entries[key];
              var report := Simulation(e.bundle, Yardstick(m, key.0, environment, supplied), cases);
              if report.Err? then n == m && res == report
              else
                && res == report && m.nextEventId >= 0 && key in n.entries && OnlyEntry(m, n, key)
                && n.entries[key] == e.(simulation := Some(report.value))
                && Notes(m, n, key, Simulated, Validated, Validated, Some(environment), actor, reason)
  {
    IncumbentIsKnown(m, key.0, environment);
    assert Baseline(m, key.0, environment, supplied) == Yardstick(m, key.0, environment, supplied);
    hide Valid, Simulation, Baseline, Yardstick, Logged, Filed, OnlyEntry, Notes;
    if key in m.entries {
      var report := Simulation(m.entries[key].bundle, Yardstick(m, key.0, environment, supplied), cases);
      if report.Ok? {
        RecordShape(m, key, m.entries[key].(simulation := Some(report.value)), Simulated, Validated, Validated, Some(environment), actor, reason);
      }
    }
  }

  /** The cases whose digest prefix is below the rate, in order. */
  predicate Samples(rate: real, cases: seq<Case>, picks: seq<int>, sample: seq<Case>) {
    && |sample| == |picks|
    && (forall i :: 0 <= i < |picks| ==> 0 <= picks[i] < |cases| && sample[i] == cases[picks[i]])
    && (forall i, j :: 0 <= i < j < |picks| ==> picks[i] < picks[j])
    && (forall k :: 0 <= k < |cases| ==> (k in picks <==> cases[k].prefix as real < rate * 281474976710656.0))
  }

  lemma Below(rate: real, c: Case)
    ensures IsSampled(rate, c) <==> c.prefix as real < rate * 281474976710656.0
  {
    var p, n := c.prefix as real, PREFIXES as real;
    assert p / n * n == p;
    if p < rate * n { assert p / n < rate; }
  }

  lemma {:induction false} SampledSamples(rate: real, cases: seq<Case>) returns (picks: seq<int>)
    ensures Samples(rate, cases, picks, Sampled(rate, cases))
  {
    picks := [];
    if cases != [] {
      var front, k := cases[..|cases| - 1], |cases| - 1;
      var before := SampledSamples(rate, front);
      Below(rate, cases[k]);
      assert forall i :: 0 <= i < |front| ==> front[i] == cases[i];
      picks := if IsSampled(rate, cases[k]) then before + [k] else before;
      assert k !in before;
      forall i | 0 <= i < |cases| ensures i in picks <==> cases[i].prefix as real < rate * 281474976710656.0 {
        if i < k { assert i in picks <==> i in before; assert front[i] == cases[i]; }
      }
    }
  }

  /** The changed results are counted. */
  lemma {:induction false} ChangesCount(results: seq<CaseResult>)
    ensures Changes(results) == |set i | 0 <= i < |results| && results[i].changed|
  {
    if results != [] {
      var k := |results| - 1;
      var front := results[..k];
      ChangesCount(front);
      var all, some := set i | 0 <= i < |results| && results[i].changed, set i | 0 <= i < |front| && front[i].changed;
      assert forall i :: 0 <= i < k ==> front[i] == results[i];
      if results[k].changed { assert all == some + {k}; } else { assert all == some; }
    }
  }

  /** The report of a canary over a sample: it passes when no more than the limit changed. */
  predicate Weighs(report: CanaryReport, key: (string, string), environment: string, rate: real, limit: int, simulation: SimulationReport) {
    && report.policyId == key.0 && report.candidateVersion == key.1 && report.environment == environment && report.sampleRate == rate
    && report.maxChanged == limit && report.simulation == simulation
    && (report.passed <==> |set i | 0 <= i < |simulation.cases| && simulation.cases[i].changed| <= limit)
  }

  /** `canary`: refused in this order; otherwise the sampled cases are simulated against the
      baseline, and the report is kept for the environment and noted. */
  lemma CanaryInPlainTerms(m: Manager, key: (string, string), cases: seq<Case>, supplied: Option<Bundle>, environment: string,
                           rate: real, limit: int, actor: Option<string>, reason: string) returns (picks: seq<int>, sample: seq<Case>)
    requires Valid(m)
    ensures Samples(rate, cases, picks, sample)
    ensures var (n, res) := CanaryStep(m, key, cases, supplied, environment, rate, limit, actor, reason);
            if key !in m.entries then n == m && res == Err(UnknownPolicy)
            else
              var e, baseline := m.entries[key], Yardstick(m, key.0, environment, supplied);
              if e.state != Validated && e.state != Approved then n == m && res == Err(WrongState(e.state))
              else if rate <= 0.0 || 1.0 < rate then n == m && res == Err(BadSampleRate)
              else if limit < 0 then n == m && res == Err(BadLimit)
              else if baseline.None? then n == m && res == Err(NoBaseline)
              else
                var simulation := Simulation(e.bundle, baseline, sample);
                if simulation.Err? then n == m && res == Err(simulation.error)
                else
                  && res.Ok? && Weighs(res.value, key, environment, rate, limit, simulation.value)
                  && m.nextEventId >= 0 && key in n.entries && OnlyEntry(m, n, key)
                  && n.entries[key] == e.(canaries := e.canaries[environment := res.value])
                  && Notes(m, n, key, if res.value.passed then CanaryPassed else CanaryFailed, e.state, e.state, Some(environment), actor, reason)
  {
    sample := Sampled(rate, cases);
    picks := SampledSamples(rate, cases);
    IncumbentIsKnown(m, key.0, environment);
    assert Baseline(m, key.0, environment, supplied) == Yardstick(m, key.0, environment, supplied);
    hide Valid, Simulation, Baseline, Yardstick, Sampled, Samples, Logged, Filed, OnlyEntry, Notes;
    hide Weighs, Canaried;
    if key in m.entries && Yardstick(m, key.0, environment, supplied).Some? {
      var e, baseline := m.entries[key], Yardstick(m, key.0, environment, supplied).value;
      CanariedWeighs(m, key, cases, baseline, environment, rate, limit);
      var report := Canaried(m, key, cases, baseline, environment, rate, limit);
      if report.Ok? {
        RecordShape(m, key, e.(canaries := e.canaries[environment := report.value]), if report.value.passed then CanaryPassed else CanaryFailed, e.state, e.state,
                    Some(environment), actor, reason);
      }
    }
  }

  lemma CanariedWeighs(m: Manager, key: (string, string), cases: seq<Case>, baseline: Bundle, environment: string, rate: real, limit: int)
    requires key in m.entries
    ensures var report := Canaried(m, key, cases, baseline, environment, rate, limit);
            var simulation := Simulation(m.entries[key].bundle, Some(baseline), Sampled(rate, cases));
            if simulation.Err? then report == Err(simulation.error) else report.Ok? && Weighs(report.value, key, environment, rate, limit, simulation.value)
  {
    hide Simulation, Sampled;
    var simulation := Simulation(m.entries[key].bundle, Some(baseline), Sampled(rate, cases));
    if simulation.Ok? { ChangesCount(simulation.value.cases); }
  }

  // ------------------------------------------------------ votes before approval

  /** Until a version is approved, it lacks a vote in every environment. */
  ghost predicate Short(m: Manager) {
    forall key, environment {:trigger Ballot(m, key, environment)} :: key in m.entries && m.entries[key].state in {Draft, Validated} ==>
      |Ballot(m, key, environment)| < Quorum(m.threshold, environment)
  }

  /** Ballots are not touched, and what is unapproved was so before or has just been filed. */
  ghost predicate Passes(m: Manager, n: Manager) {
    && n.threshold == m.threshold && n.approvals == m.approvals
    && forall key :: key in n.entries && n.entries[key].state in {Draft, Validated} ==>
         key !in m.entries || m.entries[key].state in {Draft, Validated}
  }

  lemma PassesKeepsShort(m: Manager, n: Manager)
    requires Valid(m) && Short(m) && Passes(m, n)
    ensures Short(n)
  {
    hide EntriesOk, PlacesOk, OrderOk, LogOk, Final, Quorum;
    forall key, environment {:trigger Ballot(n, key, environment)} | key in n.entries && n.entries[key].state in {Draft, Validated}
      ensures |Ballot(n, key, environment)| < Quorum(n.threshold, environment)
    {
      assert Ballot(n, key, environment) == Ballot(m, key, environment);
      if key !in m.entries { StrangersHaveNoVotes(m, key, environment); }
    }
  }

  lemma StrangersHaveNoVotes(m: Manager, key: (string, string), environment: string)
    requires Valid(m) && key !in m.entries
    ensures Ballot(m, key, environment) == [] && Quorum(m.threshold, environment) >= 1
  {
    hide EntriesOk, PlacesOk, OrderOk, LogOk, Final;
    var at := (key.0, key.1, environment);
    assert at in m.approvals ==> VotesOk(m, at);
  }

  lemma MovedIsPlaced(e: Entry, environment: string, state: State)
    requires state in {Deployed, Superseded, RolledBack, Expired}
    ensures Moved(e, environment, state).state !in {Draft, Validated}
  {
    MovedShifts(e, environment, state);
    var f := Moved(e, environment, state);
    assert environment in f.environments && Rank(f.environments[environment]) > 0;
    hide Moved;
  }

  lemma SwitchingPasses(m: Manager, key: (string, string), environment: string, left: State, leftAs: EventKind, leftReason: string,
                        enteredAs: EventKind, reason: string, actor: Option<string>)
    requires Enters(m, key, environment) && left in {Superseded, RolledBack}
    ensures Passes(m, Switched(m, key, environment, left, leftAs, leftReason, enteredAs, reason, actor))
  {
    hide Leave, Passes;
    var p := Incumbent(m, key.0, environment);
    PassesSelf(m);
    var n := if p.Some? then Leave(m, (key.0, p.value), environment, left, leftAs, actor, leftReason) else m;
    if p.Some? { LeavingPasses(m, (key.0, p.value), environment, left, leftAs, actor, leftReason); }
    LeavingPasses(n, key, environment, Deployed, enteredAs, actor, reason);
    PassesOn(m, n, Leave(n, key, environment, Deployed, enteredAs, actor, reason), Switched(m, key, environment, left, leftAs, leftReason, enteredAs, reason, actor));
  }

  lemma LeavingPasses(m: Manager, key: (string, string), environment: string, to: State, kind: EventKind, actor: Option<string>, reason: string)
    requires key in m.entries && to in {Deployed, Superseded, RolledBack, Expired}
    ensures var n := Leave(m, key, environment, to, kind, actor, reason);
            Passes(m, n) && n.entries.Keys == m.entries.Keys && n.active == m.active
  {
    MovedIsPlaced(m.entries[key], environment, to);
    hide Moved, EventId, StateIn;
  }

  lemma PassesOn(m: Manager, n: Manager, o: Manager, p: Manager)
    requires Passes(m, n) && Passes(n, o) && n.entries.Keys == m.entries.Keys
    requires p.entries == o.entries && p.approvals == o.approvals && p.threshold == o.threshold
    ensures Passes(m, p)
  {}

  lemma DeployPasses(m: Manager, key: (string, string), environment: string, reason: string, actor: Option<string>, supplied: Option<CanaryReport>)
    requires Valid(m)
    ensures Passes(m, DeployStep(m, key, environment, reason, actor, supplied).0)
  {
    IncumbentIsKnown(m, key.0, environment);
    hide Valid, Switched, Passes, DeployRefusal;
    assert Passes(m, m) by { PassesSelf(m); }
    if key in m.entries && Incumbent(m, key.0, environment) != Some(key.1) {
      SwitchingPasses(m, key, environment, Superseded, WasSuperseded, SupersededReason(key.1, reason), WasDeployed, reason, actor);
    } else {
      KnownRefuses(m, key, environment, supplied);
    }
  }

  lemma PassesSelf(m: Manager)
    ensures Passes(m, m)
  {}

  lemma KnownRefuses(m: Manager, key: (string, string), environment: string, supplied: Option<CanaryReport>)
    requires Valid(m)
    ensures key !in m.entries ==> DeployRefusal(m, key, environment, supplied).Some?
    ensures key in m.entries ==> m.events != []
  {
    if key in m.entries { HasEvents(m); }
    hide Valid;
  }

  lemma RollbackPasses(m: Manager, policy: string, target: string, environment: string, reason: string, actor: Option<string>)
    requires Valid(m)
    ensures Passes(m, RollbackStep(m, policy, target, environment, reason, actor).0)
  {
    IncumbentIsKnown(m, policy, environment);
    hide Valid, Switched, Passes;
    PassesSelf(m);
    if RollbackRefusal(m, policy, target, environment).None? {
      SwitchingPasses(m, (policy, target), environment, RolledBack, WasRolledBack, reason, RollbackRestored, reason, actor);
    }
  }

  lemma MonitorPasses(m: Manager, now: real)
    requires Valid(m)
    ensures Passes(m, MonitorStep(m, now))
  {
    MonitoringInPlainTerms(m, now);
    var n, gone := MonitorStep(m, now), Overdue(m, m.order, now);
    hide Valid, MonitorStep, Overdue, IsOver, LogFades, Shifts;
    forall key | key in n.entries && n.entries[key].state in {Draft, Validated} ensures m.entries[key].state in {Draft, Validated} {
      assert Fades(m, n, key, gone);
      if i :| 0 <= i < |gone| && gone[i].0 == key.0 && m.active[gone[i]] == key.1 { FadedIsPlaced(m, n, key, gone, i); }
    }
  }

  lemma FadedIsPlaced(m: Manager, n: Manager, key: (string, string), gone: seq<(string, string)>, i: nat)
    requires Valid(m) && forall j :: 0 <= j < |gone| ==> gone[j] in m.active
    requires key in m.entries && key in n.entries && Fades(m, n, key, gone)
    requires i < |gone| && gone[i].0 == key.0 && m.active[gone[i]] == key.1
    ensures n.entries[key].state !in {Draft, Validated}
  {
    PlaceInIndex(m, gone[i]);
    hide Valid;
    assert gone[i] in gone && gone[i] == (key.0, gone[i].1);
    assert n.entries[key].environments[gone[i].1] == Expired && Rank(Expired) > 0;
  }

  lemma StepKeepsShort(m: Manager, op: Op)
    requires Valid(m) && Short(m)
    ensures Short(Step(m, op))
  {
    hide Valid, Short, Passes, DeployStep, RollbackStep, MonitorStep, Simulation, Canaried, Baseline, EventId;
    match op
    case DoApprove(key, approver, role, environment, reason) => VoteKeepsShort(m, key, approver, role, environment, reason);
    case DoDeploy(key, environment, reason, actor, report) =>
      DeployPasses(m, key, environment, reason, actor, report);
      PassesKeepsShort(m, Step(m, op));
    case DoPromote(key, source, target, now, reason, actor, report) =>
      MonitorPasses(m, now);
      var n := MonitorStep(m, now);
      PassesKeepsShort(m, n);
      MonitorKeepsValid(m, now);
      DeployPasses(n, key, target, reason, actor, report);
      PassesKeepsShort(n, DeployStep(n, key, target, reason, actor, report).0);
    case DoRollback(policy, target, environment, reason, actor) =>
      RollbackPasses(m, policy, target, environment, reason, actor);
      PassesKeepsShort(m, Step(m, op));
    case DoMonitor(now) => MonitorPasses(m, now); PassesKeepsShort(m, MonitorStep(m, now));
    case DoCurrent(_, _, now) => MonitorPasses(m, now); PassesKeepsShort(m, MonitorStep(m, now));
    case _ =>
      RecordsPass(m, op);
      PassesKeepsShort(m, Step(m, op));
  }

  lemma RecordsPass(m: Manager, op: Op)
    requires op.DoDraft? || op.DoValidate? || op.DoSimulate? || op.DoCanary?
    ensures Passes(m, Step(m, op))
  {
    hide Simulation, Canaried, Baseline, EventId;
  }

  /** A vote leaves a validated version unapproved only while votes are lacking. */
  lemma VoteKeepsShort(m: Manager, key: (string, string), approver: string, role: string, environment: string, reason: string)
    requires Valid(m) && Short(m)
    ensures Short(ApproveStep(m, key, approver, role, environment, reason).0)
  {
    var (n, res) := ApproveStep(m, key, approver, role, environment, reason);
    IncumbentIsKnown(m, key.0, environment);
    VoteInPlainTerms(m, key, approver, role, environment, reason);
    hide Valid, ApproveStep, Notes, Quorum;
    if res.Ok? {
      forall k, p {:trigger Ballot(n, k, p)} | k in n.entries && n.entries[k].state in {Draft, Validated}
        ensures |Ballot(n, k, p)| < Quorum(n.threshold, p)
      {
        if k != key || p != environment { assert Ballot(n, k, p) == Ballot(m, k, p); }
      }
    }
  }

  /** In every run a version that is not yet approved has too few votes in every environment. */
  lemma {:induction false} UnapprovedIsShort(threshold: int, roles: set<string>, ops: seq<Op>)
    requires threshold >= 1
    ensures Short(Run(Initial(threshold, roles), ops))
  {
    if ops != [] {
      var front := ops[..|ops| - 1];
      UnapprovedIsShort(threshold, roles, front);
      RunIsValid(threshold, roles, front);
      hide Valid, Short, Step;
      StepKeepsShort(Run(Initial(threshold, roles), front), ops[|ops| - 1]);
    }
  }

  /** In every run a vote approves a validated version exactly when it brings the votes to
      the constructor's threshold in production, or to one elsewhere. */
  lemma VoteApprovesExactly(threshold: int, roles: set<string>, ops: seq<Op>, key: (string, string), approver: string, role: string,
                            environment: string, reason: string)
    requires threshold >= 1
    requires var m := Run(Initial(threshold, roles), ops);
             key in m.entries && m.entries[key].state == Validated && MayVote(m, key, approver, role, environment)
    ensures var m := Run(Initial(threshold, roles), ops);
            var n := ApproveStep(m, key, approver, role, environment, reason).0;
            && key in n.entries && n.entries[key].state in {Validated, Approved}
            && Ballot(n, key, environment) == Ballot(m, key, environment) + [Vote(approver, role, reason)]
            && (n.entries[key].state == Approved <==>
                  |Ballot(n, key, environment)| == if environment == "production" then threshold else 1)
  {
    var m := Run(Initial(threshold, roles), ops);
    RunIsValid(threshold, roles, ops);
    RunKeepsTerms(threshold, roles, ops);
    UnapprovedIsShort(threshold, roles, ops);
    hide Run, MayVote;
    IncumbentIsKnown(m, key.0, environment);
    VoteInPlainTerms(m, key, approver, role, environment, reason);
    hide Valid, ApproveStep, Notes;
    assert |Ballot(m, key, environment)| < Quorum(m.threshold, environment);
  }
}
