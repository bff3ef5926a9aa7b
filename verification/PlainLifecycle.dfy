/** The policy lifecycle in plain terms: what votes, deployments, rollbacks and expiry
    come to, said of the constructor's threshold and of entries, votes and events
    (governance/lifecycle.py). */
module PlainLifecycle {
  import opened Text
  import opened Lifecycle
  import opened LifecycleLaws
  import opened LifecycleRuns

  /** The votes that a version needs in an environment. */
  function Quorum(threshold: int, environment: string): int {
    match environment == "production"
    case true => threshold
    case false => 1
  }

  /** The votes that were cast for a version in an environment. */
  function Ballot(m: Manager, key: (string, string), environment: string): seq<Vote> {
    if (key.0, key.1, environment) in m.approvals then m.approvals[(key.0, key.1, environment)] else []
  }

  /** One event more, with the next number. */
  predicate Notes(m: Manager, n: Manager, key: (string, string), kind: EventKind, from: State, to: State,
                  environment: Option<string>, actor: Option<string>, reason: string)
    requires m.nextEventId >= 0
  {
    && n.events == m.events + [Event("policy-lifecycle-" + Pad4(m.nextEventId), key.0, key.1, kind, from, to, environment, actor, reason)]
    && n.nextEventId == m.nextEventId + 1
  }

  /** The vote is open to the version, and to the approver in the role. */
  predicate MayVote(m: Manager, key: (string, string), approver: string, role: string, environment: string) {
    && key in m.entries && m.entries[key].simulation.Some?
    && m.entries[key].state in {Validated, Approved, Deployed, Superseded, RolledBack}
    && (m.roles == {} || role in m.roles)
    && (forall i :: 0 <= i < |Ballot(m, key, environment)| ==> Ballot(m, key, environment)[i].approver != approver)
    && (environment == "production" && m.roles != {} ==>
          forall i :: 0 <= i < |Ballot(m, key, environment)| ==> Ballot(m, key, environment)[i].role != role)
  }

  /** A vote: accepted exactly when it is open to the approver; then it is appended, and
      approves a validated version when the votes are as many as the environment needs. */
  lemma VoteInPlainTerms(m: Manager, key: (string, string), approver: string, role: string, environment: string, reason: string)
    requires m.nextEventId >= 0
    ensures var (n, res) := ApproveStep(m, key, approver, role, environment, reason);
            && (res.Ok? <==> MayVote(m, key, approver, role, environment))
            && (res.Err? ==> n == m)
            && (res.Ok? ==>
                  var e, cast := m.entries[key], Ballot(m, key, environment) + [Vote(approver, role, reason)];
                  var reached := e.state == Validated && |cast| >= Quorum(m.threshold, environment);
                  && res.value == cast && n.approvals == m.approvals[(key.0, key.1, environment) := cast]
                  && n.entries == m.entries[key := e.(state := if reached then Approved else e.state)]
                  && n.active == m.active && n.order == m.order && n.threshold == m.threshold && n.roles == m.roles
                  && Notes(m, n, key, if reached then WasApproved else ApprovalRecorded, e.state, if reached then Approved else e.state,
                           Some(environment), Some(approver), reason))
  {
    RefusedVoteChangesNothing(m, key, approver, role, environment, reason);
    OpenMeansUnrefused(m, key, approver, role, environment);
    hide Pad4, MayVote, ApprovalRefusal, HasVoted;
  }

  lemma OpenMeansUnrefused(m: Manager, key: (string, string), approver: string, role: string, environment: string)
    ensures MayVote(m, key, approver, role, environment)
            <==> ApprovalRefusal(m, key, approver, role, environment).None? && !HasVoted(m, Votes(m, key, environment), environment, approver, role)
    ensures Ballot(m, key, environment) == Votes(m, key, environment)
  {
    var votes := Ballot(m, key, environment);
    assert votes == Votes(m, key, environment);
    if forall i :: 0 <= i < |votes| ==> votes[i].approver != approver {
      assert !exists i :: 0 <= i < |votes| && votes[i].approver == approver;
    }
    if forall i :: 0 <= i < |votes| ==> votes[i].role != role {
      assert !exists i :: 0 <= i < |votes| && votes[i].role == role;
    }
  }

  // ------------------------------------------------- the constructor's terms

  lemma StepKeepsTerms(m: Manager, op: Op)
    ensures Step(m, op).threshold == m.threshold && Step(m, op).roles == m.roles
  {
    hide Moved, EventId, Simulation, Canaried, Aggregate, DeployRefusal, RollbackRefusal, ApprovalRefusal, HasVoted, Baseline, ExpireAll;
    match op
    case DoPromote(key, source, target, now, reason, actor, report) => ExpiringKeepsTerms(m, m.order, now);
    case DoMonitor(now) => ExpiringKeepsTerms(m, m.order, now);
    case DoCurrent(_, _, now) => ExpiringKeepsTerms(m, m.order, now);
    case _ =>
  }

  lemma {:induction false} ExpiringKeepsTerms(m: Manager, keys: seq<(string, string)>, now: real)
    ensures ExpireAll(m, keys, now).threshold == m.threshold && ExpireAll(m, keys, now).roles == m.roles
  {
    hide Moved, EventId, Aggregate;
    if keys != [] { ExpiringKeepsTerms(m, keys[..|keys| - 1], now); }
  }

  lemma {:induction false} RunKeepsTerms(threshold: int, roles: set<string>, ops: seq<Op>)
    ensures Run(Initial(threshold, roles), ops).threshold == threshold && Run(Initial(threshold, roles), ops).roles == roles
  {
    hide Step;
    if ops != [] {
      RunKeepsTerms(threshold, roles, ops[..|ops| - 1]);
      StepKeepsTerms(Run(Initial(threshold, roles), ops[..|ops| - 1]), ops[|ops| - 1]);
    }
  }

  /** In every run an active version was voted for by as many distinct approvers as the
      constructor's threshold says for production, and by one elsewhere. */
  lemma ActiveHasQuorum(threshold: int, roles: set<string>, ops: seq<Op>, policy: string, environment: string)
    requires threshold >= 1
    ensures var m := Run(Initial(threshold, roles), ops);
            (policy, environment) in m.active ==>
              var votes := Ballot(m, (policy, m.active[(policy, environment)]), environment);
              && |votes| >= (if environment == "production" then threshold else 1)
              && forall i, j :: 0 <= i < j < |votes| ==> votes[i].approver != votes[j].approver
  {
    RunKeepsTerms(threshold, roles, ops);
    hide Run;
    if (policy, environment) in Run(Initial(threshold, roles), ops).active { ActiveIsEntitled(threshold, roles, ops, policy, environment); }
  }

  // ------------------------------------------------------- taking environments

  /** The aggregate state ranks the states of the environments. */
  function Rank(s: State): int {
    match s
    case Deployed => 4
    case Expired => 3
    case RolledBack => 2
    case Superseded => 1
    case _ => 0
  }

  /** `s` is the highest of the ranked states, or what it was if none is ranked. */
  predicate Highest(places: map<string, State>, was: State, s: State) {
    if exists p :: p in places && Rank(places[p]) > 0 then
      (exists p :: p in places && places[p] == s) && Rank(s) > 0 && forall p :: p in places ==> Rank(places[p]) <= Rank(s)
    else s == was
  }

  lemma AggregateIsHighest(places: map<string, State>, was: State)
    ensures Highest(places, was, Aggregate(places, was))
  {
    var s := Aggregate(places, was);
    if p :| p in places && Rank(places[p]) > 0 {
      assert Somewhere(places, places[p]);
      assert Somewhere(places, s);
    }
  }

  /** The entry whose state in one environment changed. */
  ghost predicate Shifts(e: Entry, f: Entry, environment: string, state: State) {
    && f == e.(environments := e.environments[environment := state], state := f.state)
    && Highest(f.environments, e.state, f.state)
  }

  lemma MovedShifts(e: Entry, environment: string, state: State)
    ensures Shifts(e, Moved(e, environment, state), environment, state)
  {
    var places := e.environments[environment := state];
    AggregateIsHighest(places, e.state);
    if state.Deployed? { assert Somewhere(places, Deployed) by { assert environment in places && places[environment] == Deployed; } }
    hide Highest;
  }

  /** Where a version stands: its state in the environment, or its own if it has none there. */
  function Standing(e: Entry, environment: string): State {
    if environment in e.environments.Keys then e.environments[environment] else e.state
  }

  /** The version active in an environment. */
  function Incumbent(m: Manager, policy: string, environment: string): Option<string> {
    if (policy, environment) in m.active.Keys then Some(m.active[(policy, environment)]) else None
  }

  function Entering(m: Manager, key: (string, string), environment: string, kind: EventKind, actor: Option<string>, reason: string, n: int): Event
    requires key in m.entries && n >= 0
  {
    Event("policy-lifecycle-" + Pad4(n), key.0, key.1, kind, Standing(m.entries[key], environment), Deployed, Some(environment), actor, reason)
  }

  /** A version takes an environment: it is deployed and active there, the version that was
      active there leaves for `left`, and both are noted, the leaving first. */
  ghost predicate Takes(m: Manager, n: Manager, key: (string, string), environment: string, left: State, leftAs: EventKind, leftReason: string,
                  enteredAs: EventKind, reason: string, actor: Option<string>)
    requires key in m.entries && m.nextEventId >= 0
    requires var p := Incumbent(m, key.0, environment); p.Some? ==> (key.0, p.value) in m.entries && p.value != key.1
  {
    var at := (key.0, environment);
    && n.threshold == m.threshold && n.roles == m.roles && n.approvals == m.approvals
    && n.active == m.active[at := key.1] && n.order == (if at in m.active.Keys then m.order else m.order + [at])
    && key in n.entries && Shifts(m.entries[key], n.entries[key], environment, Deployed)
    && match Incumbent(m, key.0, environment)
       case None =>
         && n.entries == m.entries[key := n.entries[key]]
         && n.events == m.events + [Entering(m, key, environment, enteredAs, actor, reason, m.nextEventId)]
         && n.nextEventId == m.nextEventId + 1
       case Some(version) =>
         var was := (key.0, version);
         && was in n.entries && Shifts(m.entries[was], n.entries[was], environment, left)
         && n.entries == m.entries[was := n.entries[was]][key := n.entries[key]]
         && n.events == m.events
            + [Event("policy-lifecycle-" + Pad4(m.nextEventId), was.0, was.1, leftAs, Standing(m.entries[was], environment), left,
                     Some(environment), actor, leftReason)]
            + [Entering(m, key, environment, enteredAs, actor, reason, m.nextEventId + 1)]
         && n.nextEventId == m.nextEventId + 2
  }

  lemma SwitchingTakes(m: Manager, key: (string, string), environment: string, left: State, leftAs: EventKind, leftReason: string,
                       enteredAs: EventKind, reason: string, actor: Option<string>)
    requires key in m.entries && m.nextEventId >= 0
    requires var p := Incumbent(m, key.0, environment); p.Some? ==> (key.0, p.value) in m.entries && p.value != key.1
    ensures Takes(m, Switched(m, key, environment, left, leftAs, leftReason, enteredAs, reason, actor), key, environment, left, leftAs, leftReason,
                  enteredAs, reason, actor)
  {
    MovedShifts(m.entries[key], environment, Deployed);
    var p := Incumbent(m, key.0, environment);
    if p.Some? { MovedShifts(m.entries[(key.0, p.value)], environment, left); }
    hide Moved, Shifts, Pad4;
  }

  /** The evidence that a deployment over a production version needs: the canary on file,
      which is the one supplied if any is, that compared this version here with the one in
      place, and passed. */
  predicate Tried(m: Manager, key: (string, string), environment: string, supplied: Option<CanaryReport>)
    requires key in m.entries
  {
    environment == "production" && Incumbent(m, key.0, environment).Some? ==>
      && environment in m.entries[key].canaries.Keys
      && var r := m.entries[key].canaries[environment];
         && (supplied.Some? ==> supplied.value == r)
         && r.policyId == key.0 && r.candidateVersion == key.1 && r.environment == "production"
         && r.simulation.baselineVersion == Incumbent(m, key.0, environment) && r.passed
  }

  /** A deployment: refused in this order, without effect; then nothing happens if the version
      is in place, and otherwise it takes the environment from the version that it supersedes. */
  lemma DeploymentInPlainTerms(m: Manager, key: (string, string), environment: string, reason: string, actor: Option<string>, supplied: Option<CanaryReport>)
    requires Valid(m)
    ensures var (n, res) := DeployStep(m, key, environment, reason, actor, supplied);
            if key !in m.entries then n == m && res == Err(UnknownPolicy)
            else
              var e := m.entries[key];
              if e.state in {Draft, Validated, Expired} then n == m && res == Err(WrongState(e.state))
              else if |Ballot(m, key, environment)| < Quorum(m.threshold, environment) then n == m && res == Err(TooFewApprovals)
              else if !Tried(m, key, environment, supplied) then
                && n == m && res.Err?
                && (res.error == ForeignEvidence <==> supplied.Some? && (environment in e.canaries ==> e.canaries[environment] != supplied.value))
                && (res.error == FailedCanary ==> environment in e.canaries && !e.canaries[environment].passed)
                && res.error in {ForeignEvidence, NoMatchingCanary, FailedCanary}
              else if Incumbent(m, key.0, environment) == Some(key.1) then n == m && res.Ok? && m.events != [] && res.value == m.events[|m.events| - 1]
              else
                && Enters(m, key, environment)
                && Takes(m, n, key, environment, Superseded, WasSuperseded, "superseded by " + key.1 + ": " + reason, WasDeployed, reason, actor)
                && n.events != [] && res == Ok(n.events[|n.events| - 1])
  {
    DeployRefusals(m, key, environment, supplied);
    if key in m.entries {
      HasEvents(m);
      IncumbentIsKnown(m, key.0, environment);
      hide Valid, Switched, Takes, DeployRefusal, Tried, Quorum, Ballot;
      if DeployRefusal(m, key, environment, supplied).None? && Incumbent(m, key.0, environment) != Some(key.1) {
        SwitchingTakes(m, key, environment, Superseded, WasSuperseded, "superseded by " + key.1 + ": " + reason, WasDeployed, reason, actor);
        SwitchedLogs(m, key, environment, Superseded, WasSuperseded, "superseded by " + key.1 + ": " + reason, WasDeployed, reason, actor);
      }
    }
  }

  lemma DeployRefusals(m: Manager, key: (string, string), environment: string, supplied: Option<CanaryReport>)
    ensures var refusal := DeployRefusal(m, key, environment, supplied);
            if key !in m.entries then refusal == Some(UnknownPolicy)
            else
              var e := m.entries[key];
              if e.state in {Draft, Validated, Expired} then refusal == Some(WrongState(e.state))
              else if |Ballot(m, key, environment)| < Quorum(m.threshold, environment) then refusal == Some(TooFewApprovals)
              else if !Tried(m, key, environment, supplied) then
                && refusal.Some?
                && (refusal.value == ForeignEvidence <==> supplied.Some? && (environment in e.canaries ==> e.canaries[environment] != supplied.value))
                && (refusal.value == FailedCanary ==> environment in e.canaries && !e.canaries[environment].passed)
                && refusal.value in {ForeignEvidence, NoMatchingCanary, FailedCanary}
              else refusal.None?
  {}

  /** The version is not in place, and the one that is is known. */
  predicate Enters(m: Manager, key: (string, string), environment: string) {
    && key in m.entries && m.nextEventId >= 0
    && var p := Incumbent(m, key.0, environment);
       p.Some? ==> (key.0, p.value) in m.entries && p.value != key.1
  }

  lemma IncumbentIsKnown(m: Manager, policy: string, environment: string)
    requires Valid(m)
    ensures m.nextEventId >= 1
    ensures var p := Incumbent(m, policy, environment); p.Some? ==> (policy, p.value) in m.entries
  {
    hide EntriesOk, BallotsOk, OrderOk, Final;
    ActiveIsKnown(m);
  }

  lemma SwitchedLogs(m: Manager, key: (string, string), environment: string, left: State, leftAs: EventKind, leftReason: string,
                     enteredAs: EventKind, reason: string, actor: Option<string>)
    requires Enters(m, key, environment)
    ensures Switched(m, key, environment, left, leftAs, leftReason, enteredAs, reason, actor).events != []
  {
    hide Moved, EventId;
  }

  /** A rollback: refused in this order, without effect; otherwise the target takes the
      environment from the version that is rolled back. */
  lemma RollbackInPlainTerms(m: Manager, policy: string, target: string, environment: string, reason: string, actor: Option<string>)
    requires Valid(m)
    ensures var (n, res) := RollbackStep(m, policy, target, environment, reason, actor);
            var key, current := (policy, target), Incumbent(m, policy, environment);
            if current.None? then n == m && res == Err(NotActive)
            else if current.value == target then n == m && res == Err(AlreadyActive)
            else if key !in m.entries then n == m && res == Err(UnknownPolicy)
            else if m.entries[key].state == Expired then n == m && res == Err(TargetExpired)
            else if |Ballot(m, key, environment)| < Quorum(m.threshold, environment) then n == m && res == Err(TooFewApprovals)
            else
              && Enters(m, key, environment)
              && Takes(m, n, key, environment, RolledBack, WasRolledBack, reason, RollbackRestored, reason, actor)
              && n.events != [] && res == Ok(n.events[|n.events| - 1])
  {
    var key := (policy, target);
    IncumbentIsKnown(m, policy, environment);
    assert Ballot(m, key, environment) == Votes(m, key, environment);
    hide Valid, Switched, Takes;
    if RollbackRefusal(m, policy, target, environment).None? {
      SwitchingTakes(m, key, environment, RolledBack, WasRolledBack, reason, RollbackRestored, reason, actor);
      SwitchedLogs(m, key, environment, RolledBack, WasRolledBack, reason, RollbackRestored, reason, actor);
    }
  }

  /** A promotion first expires what is due, and then deploys in the target environment
      exactly the version that is in place in the source environment. */
  lemma PromotionInPlainTerms(m: Manager, key: (string, string), source: string, target: string, now: real, reason: string, actor: Option<string>,
                              supplied: Option<CanaryReport>)
    requires Valid(m)
    ensures var n := MonitorStep(m, now);
            PromoteStep(m, key, source, target, now, reason, actor, supplied) ==
              if Incumbent(n, key.0, source) == Some(key.1) then DeployStep(n, key, target, reason, actor, supplied) else (n, Err(NotActive))
  {
    var n := MonitorStep(m, now);
    MonitorKeepsValid(m, now);
    IncumbentIsKnown(n, key.0, source);
    hide Valid, MonitorStep, DeployStep;
    var p := Incumbent(n, key.0, source);
    if p.Some? { KeyedByBundle(n, (key.0, p.value)); }
  }

  // -------------------------------------------------------------------- expiry

  /** The version in place at a key of the index is past its expiry. */
  predicate IsOver(m: Manager, at: (string, string), now: real) {
    && at in m.active.Keys && (at.0, m.active[at]) in m.entries
    && match m.entries[(at.0, m.active[at])].expiresAt
       case Some(t) => t <= now
       case None => false
  }

  /** The keys whose versions are past their expiry, in order. */
  function Overdue(m: Manager, keys: seq<(string, string)>, now: real): seq<(string, string)> {
    if keys == [] then []
    else
      var front := Overdue(m, keys[..|keys| - 1], now);
      if IsOver(m, keys[|keys| - 1], now) then front + [keys[|keys| - 1]] else front
  }

  function Kept(order: seq<(string, string)>, gone: seq<(string, string)>): seq<(string, string)> {
    if order == [] then [] else if order[0] in gone then Kept(order[1..], gone) else [order[0]] + Kept(order[1..], gone)
  }

  /** The events of the expiries, numbered from `n`. */
  function Expiries(m: Manager, gone: seq<(string, string)>, n: nat): seq<Event>
    requires forall k :: 0 <= k < |gone| ==> gone[k] in m.active
  {
    seq(|gone|, k requires 0 <= k < |gone| =>
      Event("policy-lifecycle-" + Pad4(n + k), gone[k].0, m.active[gone[k]], HasExpired, Deployed, Expired, Some(gone[k].1), None, "policy expiry reached"))
  }

  /** Where an entry is once the versions in place at the keys `gone` expired. */
  ghost predicate Fades(m: Manager, n: Manager, k: (string, string), gone: seq<(string, string)>)
    requires forall i :: 0 <= i < |gone| ==> gone[i] in m.active
    requires k in m.entries && k in n.entries
  {
    var e, f := m.entries[k], n.entries[k];
    && f == e.(environments := f.environments, state := f.state) && f.environments.Keys == e.environments.Keys
    && (forall p :: p in e.environments ==> f.environments[p] == if (k.0, p) in gone && m.active[(k.0, p)] == k.1 then Expired else e.environments[p])
    && (if exists i :: 0 <= i < |gone| && gone[i].0 == k.0 && m.active[gone[i]] == k.1 then Highest(f.environments, e.state, f.state)
        else f.state == e.state)
  }

  ghost predicate IndexFades(m: Manager, n: Manager, gone: seq<(string, string)>) {
    && n.threshold == m.threshold && n.roles == m.roles && n.approvals == m.approvals
    && (forall at :: at in n.active <==> at in m.active && at !in gone) && (forall at :: at in n.active ==> n.active[at] == m.active[at])
    && n.order == Kept(m.order, gone)
  }

  predicate LogFades(m: Manager, n: Manager, gone: seq<(string, string)>)
    requires forall i :: 0 <= i < |gone| ==> gone[i] in m.active
  {
    && m.nextEventId >= 0 && n.nextEventId == m.nextEventId + |gone|
    && n.events == m.events + Expiries(m, gone, m.nextEventId)
  }

  ghost predicate EntriesFade(m: Manager, n: Manager, gone: seq<(string, string)>)
    requires forall i :: 0 <= i < |gone| ==> gone[i] in m.active
  {
    n.entries.Keys == m.entries.Keys && forall k {:trigger Fades(m, n, k, gone)} :: k in m.entries ==> Fades(m, n, k, gone)
  }

  /** The versions in place at the keys `gone` expired, and nothing else happened. */
  ghost predicate Faded(m: Manager, n: Manager, gone: seq<(string, string)>)
    requires forall i :: 0 <= i < |gone| ==> gone[i] in m.active
  {
    IndexFades(m, n, gone) && LogFades(m, n, gone) && EntriesFade(m, n, gone)
  }

  lemma {:induction false} OverdueIsOver(m: Manager, keys: seq<(string, string)>, now: real, at: (string, string))
    ensures at in Overdue(m, keys, now) <==> at in keys && IsOver(m, at, now)
  {
    if keys != [] {
      OverdueIsOver(m, keys[..|keys| - 1], now, at);
      assert keys == keys[..|keys| - 1] + [keys[|keys| - 1]];
    }
  }

  lemma OverdueIsActive(m: Manager, keys: seq<(string, string)>, now: real)
    ensures forall i :: 0 <= i < |Overdue(m, keys, now)| ==> Overdue(m, keys, now)[i] in m.active
  {
    forall i | 0 <= i < |Overdue(m, keys, now)| ensures Overdue(m, keys, now)[i] in m.active { OverdueIsOver(m, keys, now, Overdue(m, keys, now)[i]); }
  }

  lemma {:induction false} KeptAll(order: seq<(string, string)>)
    ensures Kept(order, []) == order
  {
    if order != [] { KeptAll(order[1..]); }
  }

  lemma {:induction false} KeptWithout(order: seq<(string, string)>, gone: seq<(string, string)>, at: (string, string))
    ensures Without(Kept(order, gone), at) == Kept(order, gone + [at])
  {
    if order != [] {
      KeptWithout(order[1..], gone, at);
      if order[0] !in gone { assert ([order[0]] + Kept(order[1..], gone))[1..] == Kept(order[1..], gone); }
    }
  }

  lemma PlaceInIndex(m: Manager, at: (string, string))
    requires Valid(m) && at in m.active
    ensures var k := (at.0, m.active[at]);
            k in m.entries && at.1 in m.entries[k].environments && m.entries[k].environments[at.1] == Deployed
  {
    ActiveIsKnown(m);
    assert PlaceOk(m, (at.0, m.active[at]), at.1);
    hide EntriesOk, BallotsOk, OrderOk, LogOk, Final, Entitled;
  }

  lemma ExpiredShifts(m: Manager, n: Manager, o: Manager, k: (string, string), gone: seq<(string, string)>, at: (string, string))
    requires forall i :: 0 <= i < |gone| ==> gone[i] in m.active
    requires at in m.active && k == (at.0, m.active[at]) && k in m.entries && k in n.entries && k in o.entries
    requires at.1 in m.entries[k].environments && Fades(m, n, k, gone) && Shifts(n.entries[k], o.entries[k], at.1, Expired)
    ensures Fades(m, o, k, gone + [at])
  {
    var e, f, g, more := m.entries[k], n.entries[k], o.entries[k], gone + [at];
    assert g.environments[at.1] == Expired && Rank(Expired) > 0;
    assert Highest(g.environments, e.state, g.state);
    hide Highest, Rank;
    assert more[|gone|] == at;
    forall p | p in e.environments
      ensures g.environments[p] == if (k.0, p) in more && m.active[(k.0, p)] == k.1 then Expired else e.environments[p]
    {
      if (k.0, p) in more { assert (k.0, p) in gone || (k.0, p) == at; }
    }
  }

  lemma OthersFade(m: Manager, n: Manager, o: Manager, k: (string, string), gone: seq<(string, string)>, at: (string, string))
    requires forall i :: 0 <= i < |gone| ==> gone[i] in m.active
    requires at in m.active && k != (at.0, m.active[at]) && k in m.entries && k in n.entries && k in o.entries
    requires Fades(m, n, k, gone) && o.entries[k] == n.entries[k]
    ensures Fades(m, o, k, gone + [at])
  {
    var more := gone + [at];
    assert forall i :: 0 <= i < |more| ==> more[i] == (if i < |gone| then gone[i] else at);
    hide Highest;
  }

  /** One expiry: its entry, its event and the index. */
  lemma ExpiryShape(n: Manager, at: (string, string), now: real)
    requires IsOver(n, at, now) && n.nextEventId >= 0
    ensures var o, k := ExpireStep(n, at, now), (at.0, n.active[at]);
            && k in o.entries && o.entries == n.entries[k := o.entries[k]] && Shifts(n.entries[k], o.entries[k], at.1, Expired)
            && o.events == n.events + [Event("policy-lifecycle-" + Pad4(n.nextEventId), k.0, k.1, HasExpired, Standing(n.entries[k], at.1), Expired,
                                             Some(at.1), None, "policy expiry reached")]
            && o.nextEventId == n.nextEventId + 1 && o.threshold == n.threshold && o.roles == n.roles && o.approvals == n.approvals
            && o.active == n.active - {at} && o.order == Without(n.order, at)
  {
    MovedShifts(n.entries[(at.0, n.active[at])], at.1, Expired);
    hide Moved, Shifts, Pad4;
  }

  lemma EntriesFadeOnce(m: Manager, n: Manager, o: Manager, k: (string, string), gone: seq<(string, string)>, at: (string, string))
    requires (forall i :: 0 <= i < |gone| ==> gone[i] in m.active) && EntriesFade(m, n, gone)
    requires at in m.active && k == (at.0, m.active[at]) && k in m.entries && at.1 in m.entries[k].environments
    requires k in n.entries && k in o.entries && o.entries == n.entries[k := o.entries[k]] && Shifts(n.entries[k], o.entries[k], at.1, Expired)
    ensures EntriesFade(m, o, gone + [at])
  {
    hide Fades, Shifts;
    assert k in n.entries && Fades(m, n, k, gone);
    ExpiredShifts(m, n, o, k, gone, at);
    forall j | j in m.entries ensures Fades(m, o, j, gone + [at]) {
      assert Fades(m, n, j, gone);
      if j != k { OthersFade(m, n, o, j, gone, at); }
    }
  }

  lemma LogFadesOnce(m: Manager, n: Manager, o: Manager, gone: seq<(string, string)>, at: (string, string))
    requires (forall i :: 0 <= i < |gone| ==> gone[i] in m.active) && LogFades(m, n, gone) && at in m.active && n.nextEventId >= 0
    requires o.nextEventId == n.nextEventId + 1
    requires o.events == n.events + [Event("policy-lifecycle-" + Pad4(n.nextEventId), at.0, m.active[at], HasExpired, Deployed, Expired,
                                           Some(at.1), None, "policy expiry reached")]
    ensures LogFades(m, o, gone + [at])
  {
    hide Pad4;
    var more, first := gone + [at], m.nextEventId;
    assert Expiries(m, more, first) == Expiries(m, gone, first) + [o.events[|n.events|]];
  }

  lemma IndexFadesOnce(m: Manager, n: Manager, o: Manager, gone: seq<(string, string)>, at: (string, string))
    requires IndexFades(m, n, gone) && o.threshold == n.threshold && o.roles == n.roles && o.approvals == n.approvals
    requires o.active == n.active - {at} && o.order == Without(n.order, at)
    ensures IndexFades(m, o, gone + [at])
  {
    KeptWithout(m.order, gone, at);
    assert forall k :: k in gone + [at] <==> k in gone || k == at;
  }

  lemma FadesOnce(m: Manager, n: Manager, gone: seq<(string, string)>, at: (string, string), now: real)
    requires Valid(m) && (forall i :: 0 <= i < |gone| ==> gone[i] in m.active) && Faded(m, n, gone)
    requires at !in gone && at in m.active && IsOver(m, at, now)
    ensures Faded(m, ExpireStep(n, at, now), gone + [at])
  {
    var k := (at.0, m.active[at]);
    PlaceInIndex(m, at);
    hide Valid, ExpireStep, Shifts, Highest, Pad4;
    assert k in n.entries && Fades(m, n, k, gone);
    assert n.entries[k].environments[at.1] == Deployed;
    hide Fades;
    var o := ExpireStep(n, at, now);
    ExpiryShape(n, at, now);
    EntriesFadeOnce(m, n, o, k, gone, at);
    LogFadesOnce(m, n, o, gone, at);
    IndexFadesOnce(m, n, o, gone, at);
  }

  lemma NoneFades(m: Manager)
    requires Valid(m)
    ensures Faded(m, m, [])
  {
    KeptAll(m.order);
    hide EntriesOk, PlacesOk, BallotsOk, Final, Highest;
    forall k | k in m.entries ensures Fades(m, m, k, []) {}
    assert Expiries(m, [], m.nextEventId) == [];
  }

  /** `monitor` over the first keys of the index. */
  lemma {:induction false} FadesInOrder(m: Manager, keys: seq<(string, string)>, now: real)
    requires Valid(m) && Unique(keys) && forall at :: at in keys ==> at in m.active
    ensures forall i :: 0 <= i < |Overdue(m, keys, now)| ==> Overdue(m, keys, now)[i] in m.active
    ensures Faded(m, ExpireAll(m, keys, now), Overdue(m, keys, now))
  {
    OverdueIsActive(m, keys, now);
    if keys == [] {
      NoneFades(m);
    } else {
      var front, at := keys[..|keys| - 1], keys[|keys| - 1];
      FadesInOrder(m, front, now);
      OverdueIsActive(m, front, now);
      OverdueIsOver(m, front, now, at);
      assert at in keys && at !in front;
      var n := ExpireAll(m, front, now);
      PlaceInIndex(m, at);
      hide Valid, Moved;
      var k := (at.0, m.active[at]);
      assert Fades(m, n, k, Overdue(m, front, now));
      hide Fades;
      if IsOver(m, at, now) { FadesOnce(m, n, Overdue(m, front, now), at, now); } else { assert ExpireStep(n, at, now) == n; }
    }
  }

  /** Monitoring: the versions past their expiry leave the index in its order, each with its
      event, and expire in every environment in which they were in place. */
  lemma MonitoringInPlainTerms(m: Manager, now: real)
    requires Valid(m)
    ensures forall i :: 0 <= i < |Overdue(m, m.order, now)| ==> Overdue(m, m.order, now)[i] in m.active
    ensures Faded(m, MonitorStep(m, now), Overdue(m, m.order, now))
    ensures forall at :: at in Overdue(m, m.order, now) <==> IsOver(m, at, now)
  {
    assert Unique(m.order) && forall at :: at in m.order <==> at in m.active by { hide EntriesOk, PlacesOk, BallotsOk, LogOk, Final; }
    hide Valid, Faded, ExpireAll;
    FadesInOrder(m, m.order, now);
    forall at ensures at in Overdue(m, m.order, now) <==> IsOver(m, at, now) { OverdueIsOver(m, m.order, now, at); }
  }
}
