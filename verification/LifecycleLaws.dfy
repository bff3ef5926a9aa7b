/** What every run of the policy lifecycle keeps: the index of active versions agrees
    with the environments, expiry is final, and the event log rebuilds the state. */
module LifecycleLaws {
  import opened Text
  import opened Lifecycle

  // ---------------------------------------------------------------- the log

  /** The state that the events alone give. */
  datatype Replica = Replica(
    states: map<(string, string), State>, places: map<(string, string), map<string, State>>, active: map<(string, string), string>)

  function ReplicaOf(m: Manager): Replica {
    Replica(map k | k in m.entries :: m.entries[k].state, map k | k in m.entries :: m.entries[k].environments, m.active)
  }

  function KeyOf(e: Event): (string, string) { (e.policyId, e.version) }

  /** Events about an environment's state. */
  predicate Moves(kind: EventKind) {
    kind.WasSuperseded? || kind.WasDeployed? || kind.WasRolledBack? || kind.RollbackRestored? || kind.HasExpired?
  }

  function Apply(r: Replica, e: Event): Replica {
    var key := KeyOf(e);
    if e.kind.Drafted? then r.(states := r.states[key := Draft], places := r.places[key := map[]])
    else if e.kind.WasValidated? || e.kind.WasApproved? then r.(states := r.states[key := e.to])
    else if !Moves(e.kind) || e.environment.None? || key !in r.places || key !in r.states then r
    else
      var at := (e.policyId, e.environment.value);
      var places := r.places[key][e.environment.value := e.to];
      Replica(r.states[key := if e.to.Deployed? then Deployed else Aggregate(places, r.states[key])],
              r.places[key := places],
              if e.to.Deployed? then r.active[at := e.version] else r.active - {at})
  }

  function Replay(events: seq<Event>): Replica {
    if events == [] then Replica(map[], map[], map[]) else Apply(Replay(events[..|events| - 1]), events[|events| - 1])
  }

  /** The event leaves the state that the earlier events give. */
  predicate Continues(r: Replica, e: Event) {
    var key := KeyOf(e);
    if e.kind.Drafted? then key !in r.states && e.from == e.to == Draft
    else
      && key in r.states && key in r.places
      && e.from == (if Moves(e.kind) && e.environment.Some? && e.environment.value in r.places[key]
                    then r.places[key][e.environment.value] else r.states[key])
      && (Moves(e.kind) ==> e.environment.Some?)
      && (!Moves(e.kind) && !e.kind.WasValidated? && !e.kind.WasApproved? ==> e.to == e.from)
  }

  predicate Faithful(events: seq<Event>) {
    forall k {:trigger events[k]} :: 0 <= k < |events| ==> Continues(Replay(events[..k]), events[k]) && events[k].id == EventId(k + 1)
  }

  lemma ReplayExtends(events: seq<Event>, e: Event)
    requires Faithful(events) && Continues(Replay(events), e) && e.id == EventId(|events| + 1)
    ensures Replay(events + [e]) == Apply(Replay(events), e) && Faithful(events + [e])
  {
    var more := events + [e];
    assert more[..|events|] == events;
    forall k | 0 <= k < |more| ensures Continues(Replay(more[..k]), more[k]) && more[k].id == EventId(k + 1) {
      if k < |events| { assert more[..k] == events[..k] && more[k] == events[k]; }
    }
  }

  // -------------------------------------------------------------- invariant

  predicate IsPlaced(s: State) { s.Deployed? || s.Superseded? || s.RolledBack? || s.Expired? }

  predicate DistinctApprovers(votes: seq<Vote>) {
    forall i, j :: 0 <= i < j < |votes| ==> votes[i].approver != votes[j].approver
  }

  /** Enough distinct approvers voted for the version in this environment. */
  predicate Entitled(m: Manager, key: (string, string), environment: string) {
    |Votes(m, key, environment)| >= Threshold(m, environment) && DistinctApprovers(Votes(m, key, environment))
  }

  predicate WasEverValidated(events: seq<Event>, key: (string, string)) {
    exists k :: 0 <= k < |events| && events[k].kind.WasValidated? && KeyOf(events[k]) == key
  }

  predicate EntryOk(m: Manager, key: (string, string))
    requires key in m.entries
  {
    var e := m.entries[key];
    && (e.bundle.policyId, e.bundle.version) == key
    && (if e.environments == map[] then e.state.Draft? || e.state.Validated? || e.state.Approved?
        else IsPlaced(e.state) && e.state == Aggregate(e.environments, Draft))
    && (!e.state.Draft? ==> WasEverValidated(m.events, key))
    && (e.simulation.Some? ==> !e.state.Draft?)
  }

  /** A version stands in an environment only with its approvals; it is deployed
      there exactly when the index says it is active. */
  predicate PlaceOk(m: Manager, key: (string, string), environment: string)
    requires key in m.entries
  {
    var places := m.entries[key].environments;
    && (environment in places ==> IsPlaced(places[environment]) && Entitled(m, key, environment) && m.entries[key].simulation.Some?)
    && (environment in places && places[environment].Deployed? <==> ActiveVersion(m, key.0, environment) == Some(key.1))
  }

  predicate VotesOk(m: Manager, at: (string, string, string))
    requires at in m.approvals
  {
    && DistinctApprovers(m.approvals[at])
    && (at.0, at.1) in m.entries && m.entries[(at.0, at.1)].simulation.Some?
  }

  predicate Unique(order: seq<(string, string)>) {
    forall i, j :: 0 <= i < j < |order| ==> order[i] != order[j]
  }

  ghost predicate EntriesOk(m: Manager) {
    forall key {:trigger EntryOk(m, key)} :: key in m.entries ==> EntryOk(m, key)
  }

  ghost predicate PlacesOk(m: Manager) {
    && (forall key, environment {:trigger PlaceOk(m, key, environment)} :: key in m.entries ==> PlaceOk(m, key, environment))
    && (forall at :: at in m.active ==> (at.0, m.active[at]) in m.entries)
  }

  ghost predicate BallotsOk(m: Manager) {
    forall at {:trigger VotesOk(m, at)} :: at in m.approvals ==> VotesOk(m, at)
  }

  ghost predicate OrderOk(m: Manager) {
    Unique(m.order) && (forall at :: at in m.order <==> at in m.active)
  }

  predicate LogOk(m: Manager) {
    m.nextEventId == |m.events| + 1 && Faithful(m.events) && Replay(m.events) == ReplicaOf(m)
  }

  ghost predicate Sound(m: Manager) {
    m.threshold >= 1 && EntriesOk(m) && PlacesOk(m) && BallotsOk(m) && OrderOk(m) && LogOk(m)
  }

  /** A version that expired anywhere is deployed nowhere. */
  predicate Final(e: Entry) { Somewhere(e.environments, Expired) ==> !Somewhere(e.environments, Deployed) }

  ghost predicate Valid(m: Manager) {
    Sound(m) && forall key :: key in m.entries ==> Final(m.entries[key])
  }

  lemma FinalMeansExpired(m: Manager, key: (string, string))
    requires EntriesOk(m) && key in m.entries && Final(m.entries[key])
    ensures m.entries[key].state.Expired? <==> Somewhere(m.entries[key].environments, Expired)
    ensures m.entries[key].state.Deployed? <==> Somewhere(m.entries[key].environments, Deployed)
  {
    assert EntryOk(m, key);
    hide WasEverValidated;
  }

  // --------------------------------------------------------------- logging

  lemma Earlier(before: seq<Event>, after: seq<Event>, key: (string, string))
    requires |before| <= |after| && before == after[..|before|] && WasEverValidated(before, key)
    ensures WasEverValidated(after, key)
  {}

  /** Appending an event keeps the log, if the event says what becomes of the state. */
  lemma LoggingKeepsLog(m: Manager, n: Manager, event: Event)
    requires LogOk(m) && n.events == m.events + [event] && n.nextEventId == m.nextEventId + 1 && m.nextEventId >= 0
    requires event.id == EventId(m.nextEventId) && Continues(ReplicaOf(m), event) && Apply(ReplicaOf(m), event) == ReplicaOf(n)
    ensures LogOk(n)
  {
    hide Continues, Apply, ReplicaOf, EventId;
    ReplayExtends(m.events, event);
  }

  /** The replica of a manager one of whose entries changes. */
  lemma ReplicaChanges(m: Manager, n: Manager, key: (string, string))
    requires key in n.entries && n.entries == m.entries[key := n.entries[key]]
    ensures ReplicaOf(n) == Replica(ReplicaOf(m).states[key := n.entries[key].state],
                                    ReplicaOf(m).places[key := n.entries[key].environments], n.active)
    ensures key in m.entries ==> ReplicaHas(m, key)
  {
    assert ReplicaOf(n).states == ReplicaOf(m).states[key := n.entries[key].state];
    assert ReplicaOf(n).places == ReplicaOf(m).places[key := n.entries[key].environments];
  }

  lemma Unchanged(r: Replica, key: (string, string))
    requires key in r.states && key in r.places
    ensures r.states[key := r.states[key]] == r.states && r.places[key := r.places[key]] == r.places
  {}

  predicate ReplicaHas(m: Manager, key: (string, string))
    requires key in m.entries
  {
    var r := ReplicaOf(m);
    && key in r.states && key in r.places && r.active == m.active
    && r.states[key] == m.entries[key].state && r.places[key] == m.entries[key].environments
  }

  function EventOf(m: Manager, key: (string, string), kind: EventKind, from: State, to: State, environment: Option<string>, actor: Option<string>, reason: string): Event
    requires m.nextEventId >= 0
  {
    Event(EventId(m.nextEventId), key.0, key.1, kind, from, to, environment, actor, reason)
  }

  /** An entry other than `key` is what it was. */
  lemma OtherEntriesStay(m: Manager, n: Manager, key: (string, string))
    requires EntriesOk(m) && |m.events| <= |n.events| && n.events[..|m.events|] == m.events
    requires forall k :: k in n.entries && k != key ==> k in m.entries && n.entries[k] == m.entries[k]
    requires key in n.entries ==> EntryOk(n, key)
    ensures EntriesOk(n)
  {
    hide Aggregate, WasEverValidated;
    forall k | k in n.entries ensures EntryOk(n, k) {
      if k != key {
        assert EntryOk(m, k);
        if WasEverValidated(m.events, k) { Earlier(m.events, n.events, k); }
      }
    }
  }

  // ------------------------------------------- steps that leave environments

  /** What `validate`, `simulate`, `canary` and `approve` may do to an entry. */
  ghost predicate Revised(was: Entry, e: Entry, kind: EventKind) {
    && e.bundle == was.bundle && e.environments == was.environments && e.expiresAt == was.expiresAt
    && (was.simulation.Some? ==> e.simulation.Some?)
    && (e.simulation.Some? ==> !e.state.Draft?)
    && (if kind.WasValidated? then e.state.Validated? && was.state.Draft?
        else if kind.WasApproved? then e.state.Approved? && was.state.Validated?
        else e.state == was.state && !Moves(kind) && !kind.Drafted?)
  }

  lemma RecordLogs(m: Manager, key: (string, string), e: Entry, kind: EventKind, environment: Option<string>, actor: Option<string>, reason: string)
    requires LogOk(m) && key in m.entries && Revised(m.entries[key], e, kind)
    ensures LogOk(Logged(Filed(m, key, e), key, kind, m.entries[key].state, e.state, environment, actor, reason))
  {
    var n := Logged(Filed(m, key, e), key, kind, m.entries[key].state, e.state, environment, actor, reason);
    var event := EventOf(m, key, kind, m.entries[key].state, e.state, environment, actor, reason);
    ReplicaChanges(m, n, key);
    assert ReplicaHas(m, key);
    hide LogOk, ReplicaOf, EventId, Aggregate;
    assert Continues(ReplicaOf(m), event);
    assert Apply(ReplicaOf(m), event) == ReplicaOf(n) by { Unchanged(ReplicaOf(m), key); }
    LoggingKeepsLog(m, n, event);
  }

  lemma RecordKeepsEntries(m: Manager, key: (string, string), e: Entry, kind: EventKind, n: Manager)
    requires EntriesOk(m) && key in m.entries && Revised(m.entries[key], e, kind)
    requires n.entries == m.entries[key := e] && |n.events| == |m.events| + 1 && n.events[..|m.events|] == m.events
    requires n.events[|m.events|].kind == kind && KeyOf(n.events[|m.events|]) == key
    ensures EntriesOk(n)
  {
    assert EntryOk(m, key);
    if WasEverValidated(m.events, key) { Earlier(m.events, n.events, key); }
    assert !e.state.Draft? ==> WasEverValidated(n.events, key);
    hide Aggregate, WasEverValidated, EntriesOk;
    OtherEntriesStay(m, n, key);
  }

  /** Places and ballots look at an entry's environments and simulation only. */
  lemma RecordKeepsPlaces(m: Manager, key: (string, string), e: Entry, n: Manager)
    requires PlacesOk(m) && BallotsOk(m) && key in m.entries
    requires e.environments == m.entries[key].environments && (m.entries[key].simulation.Some? ==> e.simulation.Some?)
    requires n == m.(entries := m.entries[key := e], events := n.events, nextEventId := n.nextEventId)
    ensures PlacesOk(n) && BallotsOk(n)
  {
    forall k, environment | k in n.entries ensures PlaceOk(n, k, environment) { assert PlaceOk(m, k, environment); }
    forall at | at in n.approvals ensures VotesOk(n, at) { assert VotesOk(m, at); }
  }

  lemma RecordKeepsValid(m: Manager, key: (string, string), e: Entry, kind: EventKind, environment: Option<string>, actor: Option<string>, reason: string)
    requires Valid(m) && key in m.entries && Revised(m.entries[key], e, kind)
    ensures Valid(Logged(Filed(m, key, e), key, kind, m.entries[key].state, e.state, environment, actor, reason))
  {
    var n := Logged(Filed(m, key, e), key, kind, m.entries[key].state, e.state, environment, actor, reason);
    hide EntriesOk, PlacesOk, BallotsOk, LogOk, EventId;
    RecordLogs(m, key, e, kind, environment, actor, reason);
    RecordKeepsEntries(m, key, e, kind, n);
    RecordKeepsPlaces(m, key, e, n);
    hide Final;
    assert Final(e) by { Same(m.entries[key], e); }
  }

  lemma Same(was: Entry, e: Entry)
    requires Final(was) && e.environments == was.environments
    ensures Final(e)
  {}

  // -------------------------------------------------- moving an environment

  /** The entry after a move has the aggregate of its environments. */
  lemma MovedAggregates(e: Entry, environment: string, state: State)
    requires IsPlaced(state) && forall env :: env in e.environments ==> IsPlaced(e.environments[env])
    ensures Moved(e, environment, state).state == Aggregate(Moved(e, environment, state).environments, Draft)
    ensures IsPlaced(Moved(e, environment, state).state)
  {
    var places := e.environments[environment := state];
    assert places[environment] == state;
    assert Somewhere(places, state);
  }

  /** `Leave`, and the index with it, is what its event says. */
  lemma LeaveLogs(m: Manager, n: Manager, key: (string, string), environment: string, to: State, kind: EventKind, actor: Option<string>, reason: string)
    requires LogOk(m) && key in m.entries && Moves(kind)
    requires n == Leave(m, key, environment, to, kind, actor, reason).(active := n.active, order := n.order)
    requires n.active == if to.Deployed? then m.active[(key.0, environment) := key.1] else m.active - {(key.0, environment)}
    ensures LogOk(n)
  {
    var event := EventOf(m, key, kind, StateIn(m.entries[key], environment), to, Some(environment), actor, reason);
    ReplicaChanges(m, n, key);
    assert ReplicaHas(m, key);
    hide LogOk, ReplicaOf, EventId, Aggregate;
    assert Continues(ReplicaOf(m), event);
    assert Apply(ReplicaOf(m), event) == ReplicaOf(n) by { Unchanged(ReplicaOf(m), key); }
    LoggingKeepsLog(m, n, event);
  }

  lemma LeaveKeepsEntries(m: Manager, n: Manager, key: (string, string), environment: string, to: State, kind: EventKind, actor: Option<string>, reason: string)
    requires EntriesOk(m) && PlacesOk(m) && key in m.entries && IsPlaced(to) && !m.entries[key].state.Draft?
    requires n == Leave(m, key, environment, to, kind, actor, reason).(active := n.active, order := n.order)
    ensures EntriesOk(n)
  {
    var e := m.entries[key];
    forall env | env in e.environments ensures IsPlaced(e.environments[env]) { assert PlaceOk(m, key, env); }
    MovedAggregates(e, environment, to);
    assert EntryOk(m, key);
    hide EntriesOk, PlacesOk, WasEverValidated, EventId;
    assert n.events[..|m.events|] == m.events;
    Earlier(m.events, n.events, key);
    assert n.entries[key] == Moved(e, environment, to);
    assert environment in n.entries[key].environments;
    hide Aggregate;
    OtherEntriesStay(m, n, key);
  }

  /** A version leaves an environment: its key leaves the index. */
  function Vacated(m: Manager, at: (string, string), to: State, kind: EventKind, actor: Option<string>, reason: string): Manager
    requires at in m.active && (at.0, m.active[at]) in m.entries
  {
    Deactivated(Leave(m, (at.0, m.active[at]), at.1, to, kind, actor, reason), at)
  }

  lemma {:induction false} WithoutRemoves(order: seq<(string, string)>, at: (string, string))
    requires Unique(order)
    ensures Unique(Without(order, at))
    ensures forall k :: k in Without(order, at) <==> k in order && k != at
  {
    if order != [] {
      var rest := order[1..];
      WithoutRemoves(rest, at);
      assert order == [order[0]] + rest;
      assert order[0] !in rest;
    }
  }

  lemma VacatingKeepsPlaces(m: Manager, at: (string, string), to: State, kind: EventKind, actor: Option<string>, reason: string)
    requires PlacesOk(m) && BallotsOk(m) && at in m.active && (to.Superseded? || to.RolledBack? || to.Expired?)
    ensures PlacesOk(Vacated(m, at, to, kind, actor, reason)) && BallotsOk(Vacated(m, at, to, kind, actor, reason))
  {
    var key := (at.0, m.active[at]);
    var n := Vacated(m, at, to, kind, actor, reason);
    assert PlaceOk(m, key, at.1);
    hide Aggregate, Without, EventId;
    forall k, environment | k in n.entries ensures PlaceOk(n, k, environment) { assert PlaceOk(m, k, environment); }
    forall p | p in n.approvals ensures VotesOk(n, p) { assert VotesOk(m, p); }
  }

  lemma VacatingKeepsSound(m: Manager, at: (string, string), to: State, kind: EventKind, actor: Option<string>, reason: string)
    requires Sound(m) && at in m.active && Moves(kind) && (to.Superseded? || to.RolledBack? || to.Expired?)
    ensures Sound(Vacated(m, at, to, kind, actor, reason))
  {
    var key := (at.0, m.active[at]);
    var n := Vacated(m, at, to, kind, actor, reason);
    assert !m.entries[key].state.Draft? by { ActiveIsNoDraft(m, at); }
    hide EntriesOk, BallotsOk, LogOk, Without, Unique, Aggregate, EventId;
    VacatingKeepsPlaces(m, at, to, kind, actor, reason);
    LeaveLogs(m, n, key, at.1, to, kind, actor, reason);
    LeaveKeepsEntries(m, n, key, at.1, to, kind, actor, reason);
    WithoutRemoves(m.order, at);
  }

  lemma ActiveIsNoDraft(m: Manager, at: (string, string))
    requires EntriesOk(m) && PlacesOk(m) && at in m.active
    ensures !m.entries[(at.0, m.active[at])].state.Draft?
  {
    var key := (at.0, m.active[at]);
    assert PlaceOk(m, key, at.1) && EntryOk(m, key);
    assert Somewhere(m.entries[key].environments, Deployed);
  }

  /** A version takes over an environment in which none is active. */
  function Occupied(m: Manager, key: (string, string), environment: string, kind: EventKind, actor: Option<string>, reason: string): Manager
    requires key in m.entries
  {
    Activated(Leave(m, key, environment, Deployed, kind, actor, reason), (key.0, environment), key.1)
  }

  lemma OccupyingKeepsPlaces(m: Manager, key: (string, string), environment: string, kind: EventKind, actor: Option<string>, reason: string)
    requires PlacesOk(m) && BallotsOk(m) && key in m.entries && (key.0, environment) !in m.active
    requires Entitled(m, key, environment) && m.entries[key].simulation.Some?
    ensures PlacesOk(Occupied(m, key, environment, kind, actor, reason)) && BallotsOk(Occupied(m, key, environment, kind, actor, reason))
  {
    var n := Occupied(m, key, environment, kind, actor, reason);
    hide Aggregate, EventId, DistinctApprovers;
    forall k, env | k in n.entries ensures PlaceOk(n, k, env) { assert PlaceOk(m, k, env); }
    forall p | p in n.approvals ensures VotesOk(n, p) { assert VotesOk(m, p); }
  }

  lemma OccupyingKeepsSound(m: Manager, key: (string, string), environment: string, kind: EventKind, actor: Option<string>, reason: string)
    requires Sound(m) && key in m.entries && (key.0, environment) !in m.active && Moves(kind)
    requires Entitled(m, key, environment) && m.entries[key].simulation.Some? && !m.entries[key].state.Draft?
    ensures Sound(Occupied(m, key, environment, kind, actor, reason))
  {
    var n := Occupied(m, key, environment, kind, actor, reason);
    hide EntriesOk, BallotsOk, LogOk, PlacesOk, Aggregate, EventId, Entitled;
    OccupyingKeepsPlaces(m, key, environment, kind, actor, reason);
    LeaveLogs(m, n, key, environment, Deployed, kind, actor, reason);
    LeaveKeepsEntries(m, n, key, environment, Deployed, kind, actor, reason);
  }

  lemma LeaveShape(m: Manager, key: (string, string), environment: string, to: State, kind: EventKind, actor: Option<string>, reason: string)
    requires key in m.entries
    ensures var n := Leave(m, key, environment, to, kind, actor, reason);
            && n.entries == m.entries[key := Moved(m.entries[key], environment, to)]
            && n.approvals == m.approvals && n.active == m.active && n.order == m.order && n.threshold == m.threshold
  {
    hide EventId, Moved, StateIn;
  }

  /** Taking over is vacating, then occupying, with the key kept in its place in the order. */
  lemma SwitchedShape(m: Manager, key: (string, string), environment: string, leaving: State, leftAs: EventKind, leftReason: string,
                            enteredAs: EventKind, reason: string, actor: Option<string>)
    requires key in m.entries && PlacesOk(m) && ActiveVersion(m, key.0, environment) != Some(key.1)
    ensures var at, n := (key.0, environment), Switched(m, key, environment, leaving, leftAs, leftReason, enteredAs, reason, actor);
            && n.entries.Keys == m.entries.Keys
            && (at !in m.active ==> n == Occupied(m, key, environment, enteredAs, actor, reason))
            && (at in m.active ==>
                  var v := Vacated(m, at, leaving, leftAs, actor, leftReason);
                  && key in v.entries && v.entries[key] == m.entries[key] && at !in v.active
                  && v.approvals == m.approvals && v.threshold == m.threshold
                  && var o := Occupied(v, key, environment, enteredAs, actor, reason);
                     && n == o.(order := m.order)
                     && o.active.Keys == m.active.Keys)
  {
    var at := (key.0, environment);
    hide PlacesOk, Leave, Without, Moved, Occupied, Activated, Deactivated;
    ActiveIsKnown(m);
    OccupiedIs(m, key, environment, enteredAs, actor, reason);
    if at in m.active {
      var previous := (key.0, m.active[at]);
      LeaveShape(m, previous, environment, leaving, leftAs, actor, leftReason);
      var left := Leave(m, previous, environment, leaving, leftAs, actor, leftReason);
      DeactivatedIs(left, at);
      Reactivated(left, key, environment, enteredAs, actor, reason);
      OccupiedIs(left, key, environment, enteredAs, actor, reason);
    }
  }

  lemma DeactivatedIs(m: Manager, at: (string, string))
    ensures var n := Deactivated(m, at);
            n.entries == m.entries && n.active == m.active - {at} && n.approvals == m.approvals && n.threshold == m.threshold
  {
    hide Without;
  }

  lemma OccupiedIs(m: Manager, key: (string, string), environment: string, kind: EventKind, actor: Option<string>, reason: string)
    requires key in m.entries
    ensures var n := Occupied(m, key, environment, kind, actor, reason);
            && n == Activated(Leave(m, key, environment, Deployed, kind, actor, reason), (key.0, environment), key.1)
            && n.entries.Keys == m.entries.Keys && n.active.Keys == m.active.Keys + {(key.0, environment)}
  {
    hide Leave, Moved;
    LeaveShape(m, key, environment, Deployed, kind, actor, reason);
  }

  /** Occupying an environment that was just vacated puts its key at the end of the order. */
  lemma Reactivated(left: Manager, key: (string, string), environment: string, kind: EventKind, actor: Option<string>, reason: string)
    requires key in left.entries && (key.0, environment) in left.active
    ensures var at := (key.0, environment);
            && key in Deactivated(left, at).entries
            && Occupied(Deactivated(left, at), key, environment, kind, actor, reason).(order := left.order)
            == Activated(Leave(left, key, environment, Deployed, kind, actor, reason), at, key.1)
            && Occupied(Deactivated(left, at), key, environment, kind, actor, reason).active.Keys == left.active.Keys
  {
    var at := (key.0, environment);
    hide Leave, Without, Activated;
    LeaveShape(left, key, environment, Deployed, kind, actor, reason);
    LeaveIgnoresIndex(left, key, environment, Deployed, kind, actor, reason, left.active - {at}, Without(left.order, at));
    var last := Leave(left, key, environment, Deployed, kind, actor, reason);
    ActivatingAgain(last, at, key.1, Without(left.order, at));
    ActivatedKeys(last.(active := last.active - {at}, order := Without(left.order, at)), at, key.1);
  }

  lemma ActivatedKeys(m: Manager, at: (string, string), version: string)
    ensures var n := Activated(m, at, version); n.entries == m.entries && n.active.Keys == m.active.Keys + {at}
  {}

  /** Assigning to a key that was taken out, and to one in its place, differ in the order only. */
  lemma ActivatingAgain(m: Manager, at: (string, string), version: string, order: seq<(string, string)>)
    requires at in m.active
    ensures Activated(m.(active := m.active - {at}, order := order), at, version).(order := m.order) == Activated(m, at, version)
  {
    assert (m.active - {at})[at := version] == m.active[at := version];
  }

  /** The entries after a takeover. */
  lemma SwitchedEntries(m: Manager, key: (string, string), environment: string, leaving: State, leftAs: EventKind, leftReason: string,
                        enteredAs: EventKind, reason: string, actor: Option<string>)
    requires key in m.entries
    requires var previous := ActiveVersion(m, key.0, environment); previous.Some? ==> (key.0, previous.value) in m.entries && previous.value != key.1
    ensures var n, previous := Switched(m, key, environment, leaving, leftAs, leftReason, enteredAs, reason, actor), ActiveVersion(m, key.0, environment);
            && (previous.None? ==> n.entries == m.entries[key := Moved(m.entries[key], environment, Deployed)])
            && (previous.Some? ==>
                  var out := (key.0, previous.value);
                  n.entries == m.entries[out := Moved(m.entries[out], environment, leaving)][key := Moved(m.entries[key], environment, Deployed)])
  {
    hide Leave, Moved;
    LeaveShape(m, key, environment, Deployed, enteredAs, actor, reason);
    var previous := ActiveVersion(m, key.0, environment);
    if previous.Some? {
      var out := (key.0, previous.value);
      LeaveShape(m, out, environment, leaving, leftAs, actor, leftReason);
      LeaveShape(Leave(m, out, environment, leaving, leftAs, actor, leftReason), key, environment, Deployed, enteredAs, actor, reason);
    }
  }

  lemma ActiveIsKnown(m: Manager)
    requires PlacesOk(m)
    ensures forall p :: p in m.active ==> (p.0, m.active[p]) in m.entries
  {}

  lemma LeaveIgnoresIndex(m: Manager, key: (string, string), environment: string, to: State, kind: EventKind, actor: Option<string>, reason: string,
                          active: map<(string, string), string>, order: seq<(string, string)>)
    requires key in m.entries
    ensures Leave(m.(active := active, order := order), key, environment, to, kind, actor, reason)
         == Leave(m, key, environment, to, kind, actor, reason).(active := active, order := order)
  {
    hide Moved, EventId, StateIn;
  }

  lemma MovingKeepsFinal(e: Entry, environment: string, to: State)
    requires Final(e) && !to.Deployed? && !to.Expired?
    ensures Final(Moved(e, environment, to))
  {
    hide Aggregate;
  }

  lemma DeployingKeepsFinal(e: Entry, environment: string)
    requires !Somewhere(e.environments, Expired)
    ensures Final(Moved(e, environment, Deployed))
  {}

  lemma SwitchingKeepsFinal(m: Manager, key: (string, string), environment: string, leaving: State, leftAs: EventKind, leftReason: string,
                            enteredAs: EventKind, reason: string, actor: Option<string>)
    requires Valid(m) && key in m.entries && !m.entries[key].state.Expired?
    requires leaving.Superseded? || leaving.RolledBack?
    requires ActiveVersion(m, key.0, environment) != Some(key.1)
    ensures var n := Switched(m, key, environment, leaving, leftAs, leftReason, enteredAs, reason, actor);
            forall k :: k in n.entries ==> Final(n.entries[k])
  {
    hide Sound, Final, Moved, Switched, EntriesOk, PlacesOk;
    Whole(m);
    ActiveIsKnown(m);
    FinalMeansExpired(m, key);
    DeployingKeepsFinal(m.entries[key], environment);
    SwitchedEntries(m, key, environment, leaving, leftAs, leftReason, enteredAs, reason, actor);
    var previous := ActiveVersion(m, key.0, environment);
    if previous.Some? { MovingKeepsFinal(m.entries[(key.0, previous.value)], environment, leaving); }
  }

  lemma SwitchingKeepsSound(m: Manager, key: (string, string), environment: string, leaving: State, leftAs: EventKind, leftReason: string,
                            enteredAs: EventKind, reason: string, actor: Option<string>)
    requires Sound(m) && key in m.entries && ActiveVersion(m, key.0, environment) != Some(key.1)
    requires Entitled(m, key, environment) && m.entries[key].simulation.Some? && !m.entries[key].state.Draft?
    requires (leaving.Superseded? || leaving.RolledBack?) && Moves(leftAs) && Moves(enteredAs)
    ensures Sound(Switched(m, key, environment, leaving, leftAs, leftReason, enteredAs, reason, actor))
  {
    var at := (key.0, environment);
    hide Sound, PlacesOk, Switched, Vacated, Occupied, Entitled;
    Whole(m);
    SwitchedShape(m, key, environment, leaving, leftAs, leftReason, enteredAs, reason, actor);
    if at in m.active {
      var v := Vacated(m, at, leaving, leftAs, actor, leftReason);
      VacatingKeepsSound(m, at, leaving, leftAs, actor, leftReason);
      StillEntitled(m, v, key, environment);
      OccupyingKeepsSound(v, key, environment, enteredAs, actor, reason);
      OrderIsFree(Occupied(v, key, environment, enteredAs, actor, reason), m.order);
    } else {
      OccupyingKeepsSound(m, key, environment, enteredAs, actor, reason);
    }
  }

  lemma StillEntitled(m: Manager, n: Manager, key: (string, string), environment: string)
    requires Entitled(m, key, environment) && n.approvals == m.approvals && n.threshold == m.threshold
    ensures Entitled(n, key, environment)
  {}

  lemma OrderIsFree(m: Manager, order: seq<(string, string)>)
    requires Sound(m) && Unique(order) && (forall at :: at in order <==> at in m.active)
    ensures Sound(m.(order := order))
  {
    var n := m.(order := order);
    hide Faithful, Replay, ReplicaOf, Aggregate, WasEverValidated, DistinctApprovers;
    SameReplica(m, n);
    forall k | k in n.entries ensures EntryOk(n, k) { assert EntryOk(m, k); }
    forall k, env | k in n.entries ensures PlaceOk(n, k, env) { assert PlaceOk(m, k, env); }
    forall p | p in n.approvals ensures VotesOk(n, p) { assert VotesOk(m, p); }
  }

  lemma SameReplica(m: Manager, n: Manager)
    requires n.entries == m.entries && n.active == m.active
    ensures ReplicaOf(n) == ReplicaOf(m)
  {
    assert ReplicaOf(n).states == ReplicaOf(m).states && ReplicaOf(n).places == ReplicaOf(m).places;
  }

  lemma SwitchingKeepsValid(m: Manager, key: (string, string), environment: string, leaving: State, leftAs: EventKind, leftReason: string,
                            enteredAs: EventKind, reason: string, actor: Option<string>)
    requires Valid(m) && key in m.entries && ActiveVersion(m, key.0, environment) != Some(key.1)
    requires Entitled(m, key, environment) && m.entries[key].simulation.Some? && !m.entries[key].state.Draft? && !m.entries[key].state.Expired?
    requires (leaving.Superseded? || leaving.RolledBack?) && Moves(leftAs) && Moves(enteredAs)
    ensures Valid(Switched(m, key, environment, leaving, leftAs, leftReason, enteredAs, reason, actor))
  {
    hide Sound, Final, Switched;
    assert Sound(m) && PlacesOk(m) by { Whole(m); }
    SwitchingKeepsFinal(m, key, environment, leaving, leftAs, leftReason, enteredAs, reason, actor);
    SwitchingKeepsSound(m, key, environment, leaving, leftAs, leftReason, enteredAs, reason, actor);
  }

  lemma Whole(m: Manager)
    requires Sound(m)
    ensures EntriesOk(m) && PlacesOk(m) && BallotsOk(m) && OrderOk(m) && LogOk(m)
  {}

  // ------------------------------------------------------------------ expiry

  /** What the loop of `monitor` keeps besides `Sound`. */
  ghost predicate Expiring(m: Manager, n: Manager, now: real) {
    && n.entries.Keys == m.entries.Keys
    && (forall key :: key in n.entries ==> n.entries[key].expiresAt == m.entries[key].expiresAt)
    && (forall at :: at in n.active ==> at in m.active && n.active[at] == m.active[at])
    && (forall key :: key in n.entries ==> Final(n.entries[key]) || IsDue(n.entries[key], now))
  }

  lemma ExpireStepKeeps(m: Manager, n: Manager, at: (string, string), now: real)
    requires Sound(n) && Expiring(m, n, now)
    ensures Sound(ExpireStep(n, at, now)) && Expiring(m, ExpireStep(n, at, now), now)
    ensures var o := ExpireStep(n, at, now); at in o.active ==> (at.0, o.active[at]) in o.entries && !IsDue(o.entries[(at.0, o.active[at])], now)
    ensures forall p :: p in ExpireStep(n, at, now).active ==> p in n.active
  {
    hide Sound, Final, EntriesOk, PlacesOk, BallotsOk, OrderOk, LogOk, ExpireStep;
    Whole(n);
    ActiveIsKnown(n);
    ExpireShape(n, at, now);
    var o := ExpireStep(n, at, now);
    forall key | key in o.entries ensures Final(o.entries[key]) || IsDue(o.entries[key], now) {
      assert o.entries[key].expiresAt == n.entries[key].expiresAt;
    }
  }

  lemma ExpireShape(n: Manager, at: (string, string), now: real)
    requires Sound(n) && (at in n.active ==> (at.0, n.active[at]) in n.entries)
    ensures var o := ExpireStep(n, at, now);
            && Sound(o) && o.entries.Keys == n.entries.Keys
            && (forall key :: key in o.entries ==> o.entries[key].expiresAt == n.entries[key].expiresAt)
            && (forall key :: key in o.entries ==> o.entries[key] == n.entries[key] || IsDue(n.entries[key], now))
            && (forall p :: p in o.active ==> p in n.active && o.active[p] == n.active[p])
            && (at in o.active ==> !IsDue(n.entries[(at.0, n.active[at])], now))
  {
    hide Sound, Final, Leave, Moved, Without;
    if at in n.active && IsDue(n.entries[(at.0, n.active[at])], now) {
      LeaveShape(n, (at.0, n.active[at]), at.1, Expired, HasExpired, None, "policy expiry reached");
      MovingKeepsTerms(n.entries[(at.0, n.active[at])], at.1, Expired);
      VacatingKeepsSound(n, at, Expired, HasExpired, None, "policy expiry reached");
    }
  }

  lemma MovingKeepsTerms(e: Entry, environment: string, to: State)
    ensures var n := Moved(e, environment, to);
            n.bundle == e.bundle && n.owner == e.owner && n.expiresAt == e.expiresAt && n.simulation == e.simulation
  {}

  lemma {:induction false} ExpireAllKeeps(m: Manager, keys: seq<(string, string)>, now: real)
    requires Valid(m)
    ensures var n := ExpireAll(m, keys, now);
            && Sound(n) && Expiring(m, n, now)
            && forall k :: 0 <= k < |keys| && keys[k] in n.active ==>
                 (keys[k].0, n.active[keys[k]]) in n.entries && !IsDue(n.entries[(keys[k].0, n.active[keys[k]])], now)
  {
    hide Sound, Final, ExpireStep;
    if keys != [] {
      var front, last := keys[..|keys| - 1], keys[|keys| - 1];
      ExpireAllKeeps(m, front, now);
      var n := ExpireAll(m, front, now);
      ExpireStepKeeps(m, n, last, now);
      var o := ExpireStep(n, last, now);
      forall k | 0 <= k < |keys| && keys[k] in o.active
        ensures (keys[k].0, o.active[keys[k]]) in o.entries && !IsDue(o.entries[(keys[k].0, o.active[keys[k]])], now)
      {
        if k < |front| { assert keys[k] == front[k]; }
      }
    }
  }

  /** After `monitor` no active version is past its expiry, and no expired version is active anywhere. */
  lemma MonitorKeepsValid(m: Manager, now: real)
    requires Valid(m)
    ensures var n := MonitorStep(m, now);
            && Valid(n)
            && (forall at :: at in n.active ==> (at.0, n.active[at]) in n.entries && !IsDue(n.entries[(at.0, n.active[at])], now))
  {
    var n := MonitorStep(m, now);
    ExpireAllKeeps(m, m.order, now);
    assert OrderOk(m) && PlacesOk(n);
    hide EntriesOk, BallotsOk, LogOk, ExpireAll;
    forall key | key in n.entries ensures Final(n.entries[key]) {
      if Somewhere(n.entries[key].environments, Deployed) {
        var environment :| environment in n.entries[key].environments && n.entries[key].environments[environment] == Deployed;
        assert PlaceOk(n, key, environment);
        assert (key.0, environment) in n.active && (key.0, environment) in m.order;
      }
    }
  }

  // ------------------------------------------------------------- every step

  lemma DraftLogs(m: Manager, key: (string, string), e: Entry, owner: string, reason: string)
    requires LogOk(m) && key !in m.entries && e.state.Draft? && e.environments == map[]
    ensures LogOk(Logged(Filed(m, key, e), key, Drafted, Draft, Draft, None, Some(owner), reason))
  {
    var n := Logged(Filed(m, key, e), key, Drafted, Draft, Draft, None, Some(owner), reason);
    var event := EventOf(m, key, Drafted, Draft, Draft, None, Some(owner), reason);
    ReplicaChanges(m, n, key);
    assert key !in ReplicaOf(m).states;
    hide LogOk, ReplicaOf, EventId, Aggregate;
    LoggingKeepsLog(m, n, event);
  }

  lemma DraftKeepsPlaces(m: Manager, n: Manager, key: (string, string))
    requires PlacesOk(m) && BallotsOk(m) && key !in m.entries && key in n.entries && n.entries[key].environments == map[]
    requires n.entries == m.entries[key := n.entries[key]]
    requires n.active == m.active && n.approvals == m.approvals && n.threshold == m.threshold
    ensures PlacesOk(n) && BallotsOk(n)
  {
    hide DistinctApprovers;
    forall k, env | k in n.entries ensures PlaceOk(n, k, env) { if k != key { assert PlaceOk(m, k, env); } }
    forall p | p in n.approvals ensures VotesOk(n, p) { assert VotesOk(m, p); }
  }

  lemma DraftKeepsValid(m: Manager, bundle: Bundle, owner: string, expiresAt: Option<real>, now: real, reason: string)
    requires Valid(m)
    ensures Valid(DraftStep(m, bundle, owner, expiresAt, now, reason).0)
  {
    hide EntriesOk, PlacesOk, BallotsOk, LogOk, EventId;
    var key := (bundle.policyId, bundle.version);
    var n := DraftStep(m, bundle, owner, expiresAt, now, reason).0;
    if n != m {
      var e := Entry(bundle, owner, expiresAt, Draft, map[], None, map[]);
      assert n == Logged(Filed(m, key, e), key, Drafted, Draft, Draft, None, Some(owner), reason);
      DraftLogs(m, key, e, owner, reason);
      DraftKeepsPlaces(m, n, key);
      assert EntryOk(n, key);
      OtherEntriesStay(m, n, key);
    }
  }

  lemma ValidateKeepsValid(m: Manager, key: (string, string), actor: Option<string>, reason: string)
    requires Valid(m)
    ensures Valid(ValidateStep(m, key, actor, reason).0)
  {
    hide Valid, Logged;
    if key in m.entries && m.entries[key].state.Draft? {
      var e := m.entries[key];
      NoDraftSimulated(m, key);
      if e.bundle.compiles {
        RecordKeepsValid(m, key, e.(state := Validated), WasValidated, None, actor, reason);
      } else {
        RecordKeepsValid(m, key, e, ValidationFailed, None, actor, "does not compile");
        assert Filed(m, key, e) == m;
      }
    }
  }

  lemma NoDraftSimulated(m: Manager, key: (string, string))
    requires Valid(m) && key in m.entries
    ensures m.entries[key].simulation.Some? ==> !m.entries[key].state.Draft?
  {
    hide PlacesOk, BallotsOk, OrderOk, LogOk, Final;
    assert EntryOk(m, key);
  }

  lemma SimulateKeepsValid(m: Manager, key: (string, string), cases: seq<Case>, supplied: Option<Bundle>, environment: string, actor: Option<string>, reason: string)
    requires Valid(m)
    ensures Valid(SimulateStep(m, key, cases, supplied, environment, actor, reason).0)
  {
    hide Valid, Logged, Simulation, Baseline;
    if key in m.entries {
      var report := Simulation(m.entries[key].bundle, Baseline(m, key.0, environment, supplied), cases);
      if m.entries[key].state.Validated? && report.Ok? {
        RecordKeepsValid(m, key, m.entries[key].(simulation := Some(report.value)), Simulated, Some(environment), actor, reason);
      }
    }
  }

  lemma CanaryKeepsValid(m: Manager, key: (string, string), cases: seq<Case>, supplied: Option<Bundle>, environment: string,
                         rate: real, maxChanged: int, actor: Option<string>, reason: string)
    requires Valid(m)
    ensures Valid(CanaryStep(m, key, cases, supplied, environment, rate, maxChanged, actor, reason).0)
  {
    hide Valid, Logged, Canaried, Baseline;
    if key in m.entries && Baseline(m, key.0, environment, supplied).Some? {
      var e := m.entries[key];
      NoDraftSimulated(m, key);
      var report := Canaried(m, key, cases, Baseline(m, key.0, environment, supplied).value, environment, rate, maxChanged);
      if report.Ok? {
        RecordKeepsValid(m, key, e.(canaries := e.canaries[environment := report.value]),
                         if report.value.passed then CanaryPassed else CanaryFailed, Some(environment), actor, reason);
      }
    }
  }

  /** A ballot that only grows, by distinct approvers. */
  lemma BallotKeepsValid(m: Manager, at: (string, string, string), votes: seq<Vote>)
    requires Valid(m) && DistinctApprovers(votes)
    requires (at.0, at.1) in m.entries && m.entries[(at.0, at.1)].simulation.Some?
    requires |Votes(m, (at.0, at.1), at.2)| <= |votes|
    ensures Valid(m.(approvals := m.approvals[at := votes]))
  {
    var n := m.(approvals := m.approvals[at := votes]);
    hide PlacesOk, BallotsOk, Faithful, Replay, ReplicaOf, Aggregate, WasEverValidated, Final, Unique;
    SameReplica(m, n);
    BallotKeepsPlaces(m, at, votes);
    forall k | k in n.entries ensures EntryOk(n, k) { assert EntryOk(m, k); }
  }

  lemma BallotKeepsPlaces(m: Manager, at: (string, string, string), votes: seq<Vote>)
    requires PlacesOk(m) && BallotsOk(m) && DistinctApprovers(votes)
    requires (at.0, at.1) in m.entries && m.entries[(at.0, at.1)].simulation.Some?
    requires |Votes(m, (at.0, at.1), at.2)| <= |votes|
    ensures PlacesOk(m.(approvals := m.approvals[at := votes])) && BallotsOk(m.(approvals := m.approvals[at := votes]))
  {
    var n := m.(approvals := m.approvals[at := votes]);
    forall k, env | k in n.entries ensures PlaceOk(n, k, env) {
      assert PlaceOk(m, k, env);
      if (k.0, k.1, env) == at { assert Votes(n, k, env) == votes; } else { assert Votes(n, k, env) == Votes(m, k, env); }
    }
    hide DistinctApprovers;
    forall p | p in n.approvals ensures VotesOk(n, p) { if p != at { assert VotesOk(m, p); } }
  }

  lemma BallotIsDistinct(m: Manager, key: (string, string), environment: string)
    requires Valid(m)
    ensures DistinctApprovers(Votes(m, key, environment))
  {
    hide EntriesOk, PlacesOk, OrderOk, LogOk, Final;
    var at := (key.0, key.1, environment);
    if at in m.approvals { assert VotesOk(m, at); }
  }

  lemma ApproveKeepsValid(m: Manager, key: (string, string), approver: string, role: string, environment: string, reason: string)
    requires Valid(m)
    ensures Valid(ApproveStep(m, key, approver, role, environment, reason).0)
  {
    hide Valid, Logged;
    if ApprovalRefusal(m, key, approver, role, environment).None? {
      var votes := Votes(m, key, environment);
      BallotIsDistinct(m, key, environment);
      if ApproveStep(m, key, approver, role, environment, reason).1.Err? {
        BallotKeepsValid(m, (key.0, key.1, environment), votes);
      } else {
        var e, cast := m.entries[key], votes + [Vote(approver, role, reason)];
        assert DistinctApprovers(cast);
        BallotKeepsValid(m, (key.0, key.1, environment), cast);
        var n := m.(approvals := m.approvals[(key.0, key.1, environment) := cast]);
        var reached := |cast| >= Threshold(m, environment) && e.state.Validated?;
        RecordKeepsValid(n, key, e.(state := if reached then Approved else e.state),
                         if reached then WasApproved else ApprovalRecorded, Some(environment), Some(approver), reason);
      }
    }
  }

  /** Votes are cast for simulated versions only, and distinct approvers cast them. */
  lemma VotedIsEntitled(m: Manager, key: (string, string), environment: string)
    requires Valid(m) && key in m.entries && |Votes(m, key, environment)| >= Threshold(m, environment)
    ensures Entitled(m, key, environment) && m.entries[key].simulation.Some? && !m.entries[key].state.Draft?
  {
    hide EntriesOk, PlacesOk, OrderOk, LogOk, Final;
    BallotIsDistinct(m, key, environment);
    NoDraftSimulated(m, key);
    var at := (key.0, key.1, environment);
    assert at in m.approvals && VotesOk(m, at);
  }

  lemma DeployKeepsValid(m: Manager, key: (string, string), environment: string, reason: string, actor: Option<string>, report: Option<CanaryReport>)
    requires Valid(m)
    ensures Valid(DeployStep(m, key, environment, reason, actor, report).0)
  {
    hide Valid, Switched, Entitled;
    if DeployRefusal(m, key, environment, report).None? && ActiveVersion(m, key.0, environment) != Some(key.1) {
      VotedIsEntitled(m, key, environment);
      SwitchingKeepsValid(m, key, environment, Superseded, WasSuperseded, SupersededReason(key.1, reason), WasDeployed, reason, actor);
    }
    if key in m.entries { HasEvents(m); }
  }

  lemma HasEvents(m: Manager)
    requires Valid(m) && m.entries != map[]
    ensures m.events != []
  {
    var key :| key in m.entries;
    assert key in ReplicaOf(m).states;
  }

  lemma RollbackKeepsValid(m: Manager, policy: string, target: string, environment: string, reason: string, actor: Option<string>)
    requires Valid(m)
    ensures Valid(RollbackStep(m, policy, target, environment, reason, actor).0)
  {
    hide Valid, Switched, Entitled;
    if RollbackRefusal(m, policy, target, environment).None? {
      VotedIsEntitled(m, (policy, target), environment);
      SwitchingKeepsValid(m, (policy, target), environment, RolledBack, WasRolledBack, reason, RollbackRestored, reason, actor);
    }
  }

  lemma StepKeepsValid(m: Manager, op: Op)
    requires Valid(m)
    ensures Valid(Step(m, op))
  {
    hide Valid, DraftStep, ValidateStep, SimulateStep, CanaryStep, ApproveStep, DeployStep, RollbackStep, MonitorStep;
    match op
    case DoDraft(bundle, owner, expiresAt, now, reason) => DraftKeepsValid(m, bundle, owner, expiresAt, now, reason);
    case DoValidate(key, actor, reason) => ValidateKeepsValid(m, key, actor, reason);
    case DoSimulate(key, cases, supplied, environment, actor, reason) =>
      SimulateKeepsValid(m, key, cases, supplied, environment, actor, reason);
    case DoCanary(key, cases, supplied, environment, rate, maxChanged, actor, reason) =>
      CanaryKeepsValid(m, key, cases, supplied, environment, rate, maxChanged, actor, reason);
    case DoApprove(key, approver, role, environment, reason) => ApproveKeepsValid(m, key, approver, role, environment, reason);
    case DoDeploy(key, environment, reason, actor, report) => DeployKeepsValid(m, key, environment, reason, actor, report);
    case DoPromote(key, source, target, now, reason, actor, report) =>
      MonitorKeepsValid(m, now);
      DeployKeepsValid(MonitorStep(m, now), key, target, reason, actor, report);
    case DoRollback(policy, target, environment, reason, actor) => RollbackKeepsValid(m, policy, target, environment, reason, actor);
    case DoMonitor(now) => MonitorKeepsValid(m, now);
    case DoCurrent(_, _, now) => MonitorKeepsValid(m, now);
  }

  lemma {:induction false} RunIsValid(threshold: int, roles: set<string>, ops: seq<Op>)
    requires threshold >= 1
    ensures Valid(Run(Initial(threshold, roles), ops))
  {
    if ops == [] {
      var m := Initial(threshold, roles);
      assert ReplicaOf(m) == Replica(map[], map[], map[]);
    } else {
      hide Valid, Step;
      RunIsValid(threshold, roles, ops[..|ops| - 1]);
      StepKeepsValid(Run(Initial(threshold, roles), ops[..|ops| - 1]), ops[|ops| - 1]);
    }
  }
}
