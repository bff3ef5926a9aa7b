/** The approval lifecycle as values: quorum votes, expiry under any clock,
    single use, and the snapshot (governance/approval.py). */
module Approval {
  import opened Text
  import opened Model
  import opened Tables

  /** The four fingerprints a request is bound to. */
  datatype Binding = Binding(action: string, context: string, policy: string, state: string)

  datatype ApprovalState = Pending | Approved | Denied | Expired

  datatype Request = Request(
    id: string, role: string, binding: Binding, matchedRules: seq<string>,
    createdAt: real, expiresAt: real, requiredRoles: seq<string>, threshold: int,
    identity: Option<string>,
    votes: seq<string>, state: ApprovalState, consumed: bool,
    voteIdentities: seq<(string, string)>, denialIdentity: Option<string>)

  datatype Manager = Manager(
    ttl: real, prefix: string, requireIdentity: bool, nextId: int, requests: map<string, Request>)

  /** Identity claims, and whether the verifier issued them. */
  datatype Identity = Identity(
    genuine: bool, issuedAt: real, expiresAt: real, roles: set<string>, reference: string)

  datatype ApprovalError =
    | NotEscalation | RequesterIdentityRequired | TtlNotPositive | UnknownRequest
    | InState(state: ApprovalState) | RoleNotRequired | AlreadyVoted | ApproverIdentityRequired
    | IdentityRejected | BindingChanged | AlreadyConsumed

  type Reply = Result<Request, ApprovalError>

  function RequestId(prefix: string, n: nat): string { prefix + "-" + Pad4(n) }

  // ------------------------------------------------------------ transitions

  /** The pending request that an escalation opens. */
  function Opened(id: string, d: Decision, binding: Binding, identity: Option<string>, created: real, lifetime: real): Request
    requires Truthy(d.role)
  {
    Request(
      id, d.role.value, binding, d.matchedRules, created, created + lifetime,
      if d.approvalRoles != [] then d.approvalRoles else [d.role.value],
      if d.approvalThreshold != 0 then d.approvalThreshold else 1,
      identity, [], Pending, false, [], None)
  }

  /** Why `request` opens nothing, if it does not. */
  function AskRefusal(m: Manager, d: Decision, identity: Option<string>, ttl: Option<real>): Option<ApprovalError> {
    if !d.kind.Escalate? || !Truthy(d.role) then Some(NotEscalation)
    else if m.requireIdentity && identity.None? then Some(RequesterIdentityRequired)
    else if Lifetime(m, ttl) <= 0.0 then Some(TtlNotPositive)
    else None
  }

  function Lifetime(m: Manager, ttl: Option<real>): real {
    if ttl.Some? then ttl.value else m.ttl
  }

  function Filed(m: Manager, r: Request): Manager {
    m.(nextId := m.nextId + 1, requests := m.requests[r.id := r])
  }

  /** `request`. */
  function AskStep(m: Manager, d: Decision, binding: Binding, identity: Option<string>, created: real, ttl: Option<real>): (Manager, Reply)
    requires m.nextId >= 0
  {
    var refusal := AskRefusal(m, d, identity, ttl);
    if refusal.Some? then (m, Err(refusal.value))
    else
      var r := Opened(RequestId(m.prefix, m.nextId), d, binding, identity, created, Lifetime(m, ttl));
      (Filed(m, r), Ok(r))
  }

  function Current(r: Request, now: Option<real>): real {
    if now.Some? then now.value else r.createdAt
  }

  /** What reading a request at `now` makes of it. */
  function Aged(r: Request, now: Option<real>): Request {
    if !r.consumed && (r.state.Pending? || r.state.Approved?) && Current(r, now) >= r.expiresAt
    then r.(state := Expired)
    else r
  }

  function Put(m: Manager, r: Request): Manager {
    m.(requests := m.requests[r.id := r])
  }

  /** `_get`. */
  function LookStep(m: Manager, id: string, now: Option<real>): (Manager, Reply) {
    if id !in m.requests then (m, Err(UnknownRequest))
    else
      var r := Aged(m.requests[id], now);
      (Put(m, r), Ok(r))
  }

  predicate IdentityOk(i: Identity, role: string, current: real) {
    i.genuine && i.issuedAt <= current < i.expiresAt && role in i.roles && i.reference != ""
  }

  /** One approving vote on a request that was just read. */
  function Voted(r: Request, role: string, reference: Option<string>): Request {
    var votes := r.votes + [role];
    r.(votes := votes,
       voteIdentities := if reference.Some? then r.voteIdentities + [(role, reference.value)] else r.voteIdentities,
       state := if |votes| >= r.threshold then Approved else r.state)
  }

  /** Why `approve` turns a vote away, if it does. The binding is that of the
      policy, action, context and graph presented with the vote. */
  function ApproveRefusal(strict: bool, r: Request, role: string, binding: Binding, now: Option<real>, who: Option<Identity>): Option<ApprovalError> {
    if !r.state.Pending? then Some(InState(r.state))
    else if role !in r.requiredRoles then Some(RoleNotRequired)
    else if role in r.votes then Some(AlreadyVoted)
    else if strict && who.None? then Some(ApproverIdentityRequired)
    else if who.Some? && !IdentityOk(who.value, role, Current(r, now)) then Some(IdentityRejected)
    else if r.binding != binding then Some(BindingChanged)
    else None
  }

  function Reference(who: Option<Identity>): Option<string> {
    if who.Some? then Some(who.value.reference) else None
  }

  /** `approve`. */
  function ApproveStep(m: Manager, id: string, role: string, binding: Binding, now: Option<real>, who: Option<Identity>): (Manager, Reply) {
    var (read, found) := LookStep(m, id, now);
    if found.Err? then (read, found)
    else
      var refusal := ApproveRefusal(m.requireIdentity, found.value, role, binding, now, who);
      if refusal.Some? then (read, Err(refusal.value))
      else
        var voted := Voted(found.value, role, Reference(who));
        (Put(read, voted), Ok(voted))
  }

  /** Why `deny` turns a denial away, if it does. */
  function DenyRefusal(strict: bool, r: Request, role: string, now: Option<real>, who: Option<Identity>): Option<ApprovalError> {
    if !r.state.Pending? then Some(InState(r.state))
    else if role !in r.requiredRoles then Some(RoleNotRequired)
    else if strict && who.None? then Some(ApproverIdentityRequired)
    else if who.Some? && !IdentityOk(who.value, role, Current(r, now)) then Some(IdentityRejected)
    else None
  }

  function Refused(r: Request, reference: Option<string>): Request {
    r.(state := Denied, denialIdentity := if reference.Some? then reference else r.denialIdentity)
  }

  /** `deny`. */
  function DenyStep(m: Manager, id: string, role: string, now: Option<real>, who: Option<Identity>): (Manager, Reply) {
    var (read, found) := LookStep(m, id, now);
    if found.Err? then (read, found)
    else
      var refusal := DenyRefusal(m.requireIdentity, found.value, role, now, who);
      if refusal.Some? then (read, Err(refusal.value))
      else
        var denied := Refused(found.value, Reference(who));
        (Put(read, denied), Ok(denied))
  }

  /** `prepare_resume`. */
  function ResumeStep(m: Manager, id: string, binding: Binding, now: Option<real>): (Manager, Reply) {
    var (read, found) := LookStep(m, id, now);
    if found.Err? then (read, found)
    else
      var r := found.value;
      if !r.state.Approved? then (read, Err(InState(r.state)))
      else if r.consumed then (read, Err(AlreadyConsumed))
      else if r.binding != binding then (read, Err(BindingChanged))
      else
        var used := r.(consumed := true);
        (Put(read, used), Ok(used))
  }

  datatype Op =
    | Ask(decision: Decision, binding: Binding, identity: Option<string>, created: real, ttl: Option<real>)
    | Look(id: string, now: Option<real>)
    | Approve(id: string, role: string, binding: Binding, now: Option<real>, who: Option<Identity>)
    | Deny(id: string, role: string, now: Option<real>, who: Option<Identity>)
    | Resume(id: string, binding: Binding, now: Option<real>)

  function Step(m: Manager, op: Op): (Manager, Reply)
    requires m.nextId >= 0
  {
    match op
    case Ask(d, binding, identity, created, ttl) => AskStep(m, d, binding, identity, created, ttl)
    case Look(id, now) => LookStep(m, id, now)
    case Approve(id, role, binding, now, who) => ApproveStep(m, id, role, binding, now, who)
    case Deny(id, role, now, who) => DenyStep(m, id, role, now, who)
    case Resume(id, binding, now) => ResumeStep(m, id, binding, now)
  }

  // -------------------------------------------------------------- invariant

  predicate DistinctKeys(pairs: seq<(string, string)>) {
    forall i, j :: 0 <= i < j < |pairs| ==> pairs[i].0 != pairs[j].0
  }

  /** A closed set of distinct voters, a quorum exactly where the state says
      so, and consumption only of approved requests. */
  predicate ValidRequest(r: Request) {
    && r.id != "" && r.role != ""
    && r.createdAt < r.expiresAt
    && 1 <= r.threshold <= |r.requiredRoles|
    && Distinct(r.votes) && (forall v :: v in r.votes ==> v in r.requiredRoles)
    && (r.state.Approved? ==> |r.votes| >= r.threshold)
    && (r.state.Pending? ==> |r.votes| < r.threshold)
    && (r.consumed ==> r.state.Approved?)
    && DistinctKeys(r.voteIdentities)
    && (forall i :: 0 <= i < |r.voteIdentities| ==> r.voteIdentities[i].0 in r.votes)
    && (r.denialIdentity.Some? ==> r.state.Denied?)
  }

  predicate IssuedBefore(id: string, prefix: string, n: int) {
    prefix + "-" <= id && IsDigits(id[|prefix| + 1..]) && ValueOf(id[|prefix| + 1..]) < n
  }

  predicate Valid(m: Manager) {
    && m.ttl > 0.0 && m.prefix != "" && m.nextId > 0
    && (forall id :: id in m.requests ==> m.requests[id].id == id)
    && (forall id {:trigger ValidRequest(m.requests[id])} :: id in m.requests ==> ValidRequest(m.requests[id]))
    && (forall id {:trigger IssuedBefore(id, m.prefix, m.nextId)} :: id in m.requests ==> IssuedBefore(id, m.prefix, m.nextId))
  }

  lemma NextIdIsFresh(m: Manager)
    requires Valid(m)
    ensures var id := RequestId(m.prefix, m.nextId);
            id !in m.requests && id != "" && IssuedBefore(id, m.prefix, m.nextId + 1)
  {
    var id := RequestId(m.prefix, m.nextId);
    PaddedRoundTrip(m.nextId);
    assert id[|m.prefix| + 1..] == Pad4(m.nextId);
    assert !IssuedBefore(id, m.prefix, m.nextId);
  }

  // --------------------------------------------------------------- progress

  /** Identity references as a map from role to reference. */
  ghost predicate ReferencesKept(a: Request, b: Request) {
    forall pair :: pair in a.voteIdentities ==> pair in b.voteIdentities
  }

  ghost predicate SameUpToReferenceOrder(a: Request, b: Request) {
    && b == a.(voteIdentities := b.voteIdentities)
    && ReferencesKept(a, b) && ReferencesKept(b, a)
  }

  /** `b` is a later state of request `a`: its bindings are kept, votes are only
      appended, a consumed request stays consumed and approved, and denial and
      expiry are final. */
  ghost predicate Progress(a: Request, b: Request) {
    && b == a.(votes := b.votes, state := b.state, consumed := b.consumed,
               voteIdentities := b.voteIdentities, denialIdentity := b.denialIdentity)
    && a.votes <= b.votes
    && ReferencesKept(a, b)
    && (a.consumed ==> b.consumed)
    && (a.state.Denied? || a.state.Expired? ==> SameUpToReferenceOrder(a, b))
    && (a.state.Approved? ==> (b.state.Approved? || b.state.Expired?) && b.votes == a.votes)
    && (a.consumed ==> b.state == a.state)
  }

  /** `n` is a later state of manager `m`. */
  ghost predicate Advances(m: Manager, n: Manager) {
    && n.ttl == m.ttl && n.prefix == m.prefix && n.requireIdentity == m.requireIdentity
    && m.nextId <= n.nextId
    && forall id :: id in m.requests ==> id in n.requests && Progress(m.requests[id], n.requests[id])
  }

  lemma ProgressIsTransitive(a: Request, b: Request, c: Request)
    requires Progress(a, b) && Progress(b, c)
    ensures Progress(a, c)
  {}

  lemma AdvancesIsReflexive(m: Manager)
    ensures Advances(m, m)
  {}

  lemma AdvancesIsTransitive(m: Manager, n: Manager, o: Manager)
    requires Advances(m, n) && Advances(n, o)
    ensures Advances(m, o)
  {
    forall id | id in m.requests ensures id in o.requests && Progress(m.requests[id], o.requests[id]) {
      ProgressIsTransitive(m.requests[id], n.requests[id], o.requests[id]);
    }
  }

  lemma AgedProgresses(r: Request, now: Option<real>)
    requires ValidRequest(r)
    ensures ValidRequest(Aged(r, now)) && Progress(r, Aged(r, now))
  {}

  lemma VoteProgresses(r: Request, role: string, reference: Option<string>)
    requires ValidRequest(r) && r.state.Pending? && role in r.requiredRoles && role !in r.votes
    ensures ValidRequest(Voted(r, role, reference)) && Progress(r, Voted(r, role, reference))
  {
    var v := Voted(r, role, reference);
    forall i | 0 <= i < |v.voteIdentities| ensures v.voteIdentities[i].0 in v.votes {
      if i < |r.voteIdentities| { assert r.voteIdentities[i].0 in r.votes; }
    }
  }

  lemma PutAdvances(m: Manager, r: Request)
    requires Valid(m) && r.id in m.requests && ValidRequest(r) && Progress(m.requests[r.id], r)
    ensures Valid(Put(m, r)) && Advances(m, Put(m, r))
  {
    forall id | id in m.requests ensures Progress(m.requests[id], Put(m, r).requests[id]) {}
  }

  lemma LookAdvances(m: Manager, id: string, now: Option<real>)
    requires Valid(m)
    ensures var n := LookStep(m, id, now).0;
            Valid(n) && Advances(m, n) && (id in m.requests ==> n.requests[id] == Aged(m.requests[id], now))
  {
    if id in m.requests {
      AgedProgresses(m.requests[id], now);
      PutAdvances(m, Aged(m.requests[id], now));
    }
  }

  /** A mutation of the request just read. */
  lemma LookThenPut(m: Manager, id: string, now: Option<real>, r: Request)
    requires Valid(m) && id in m.requests && r.id == id
    requires ValidRequest(r) && Progress(Aged(m.requests[id], now), r)
    ensures var n := Put(LookStep(m, id, now).0, r); Valid(n) && Advances(m, n)
  {
    LookAdvances(m, id, now);
    PutAdvances(LookStep(m, id, now).0, r);
    AdvancesIsTransitive(m, LookStep(m, id, now).0, Put(LookStep(m, id, now).0, r));
  }

  lemma IssuedLater(id: string, prefix: string, n: int)
    requires IssuedBefore(id, prefix, n)
    ensures IssuedBefore(id, prefix, n + 1)
  {}

  lemma AdmitAdvances(m: Manager, r: Request)
    requires Valid(m) && ValidRequest(r)
    requires r.id !in m.requests && IssuedBefore(r.id, m.prefix, m.nextId + 1)
    ensures Valid(Filed(m, r)) && Advances(m, Filed(m, r))
  {
    hide IssuedBefore, ValidRequest;
    var n := Filed(m, r);
    forall id | id in m.requests ensures ValidRequest(n.requests[id]) && IssuedBefore(id, n.prefix, n.nextId) {
      assert ValidRequest(m.requests[id]);
      IssuedLater(id, m.prefix, m.nextId);
    }
  }

  lemma OpenedIsValid(id: string, d: Decision, binding: Binding, identity: Option<string>, created: real, lifetime: real)
    requires id != "" && Truthy(d.role) && d.kind.Escalate? && lifetime > 0.0
    ensures var r := Opened(id, d, binding, identity, created, lifetime); ValidRequest(r) && r.id == id
  {}

  lemma AskAdvances(m: Manager, d: Decision, binding: Binding, identity: Option<string>, created: real, ttl: Option<real>)
    requires Valid(m)
    ensures var n := AskStep(m, d, binding, identity, created, ttl).0; Valid(n) && Advances(m, n)
  {
    hide IssuedBefore, ValidRequest, Opened, RequestId;
    NextIdIsFresh(m);
    if AskRefusal(m, d, identity, ttl).None? {
      var id := RequestId(m.prefix, m.nextId);
      OpenedIsValid(id, d, binding, identity, created, Lifetime(m, ttl));
      AdmitAdvances(m, Opened(id, d, binding, identity, created, Lifetime(m, ttl)));
    }
  }

  lemma ApproveAdvances(m: Manager, id: string, role: string, binding: Binding, now: Option<real>, who: Option<Identity>)
    requires Valid(m)
    ensures var n := ApproveStep(m, id, role, binding, now, who).0; Valid(n) && Advances(m, n)
  {
    LookAdvances(m, id, now);
    if ApproveStep(m, id, role, binding, now, who).1.Ok? {
      var r := Aged(m.requests[id], now);
      AgedProgresses(m.requests[id], now);
      VoteProgresses(r, role, Reference(who));
      LookThenPut(m, id, now, Voted(r, role, Reference(who)));
    }
  }

  lemma DenyAdvances(m: Manager, id: string, role: string, now: Option<real>, who: Option<Identity>)
    requires Valid(m)
    ensures var n := DenyStep(m, id, role, now, who).0; Valid(n) && Advances(m, n)
  {
    LookAdvances(m, id, now);
    if DenyStep(m, id, role, now, who).1.Ok? {
      AgedProgresses(m.requests[id], now);
      LookThenPut(m, id, now, DenyStep(m, id, role, now, who).1.value);
    }
  }

  lemma ResumeAdvances(m: Manager, id: string, binding: Binding, now: Option<real>)
    requires Valid(m)
    ensures var n := ResumeStep(m, id, binding, now).0; Valid(n) && Advances(m, n)
  {
    LookAdvances(m, id, now);
    if ResumeStep(m, id, binding, now).1.Ok? {
      AgedProgresses(m.requests[id], now);
      LookThenPut(m, id, now, ResumeStep(m, id, binding, now).1.value);
    }
  }

  /** Every operation keeps the invariant and only makes progress. */
  lemma StepAdvances(m: Manager, op: Op)
    requires Valid(m)
    ensures Valid(Step(m, op).0) && Advances(m, Step(m, op).0)
  {
    match op
    case Ask(d, binding, identity, created, ttl) => AskAdvances(m, d, binding, identity, created, ttl);
    case Look(id, now) => LookAdvances(m, id, now);
    case Approve(id, role, binding, now, who) => ApproveAdvances(m, id, role, binding, now, who);
    case Deny(id, role, now, who) => DenyAdvances(m, id, role, now, who);
    case Resume(id, binding, now) => ResumeAdvances(m, id, binding, now);
  }

  function Run(m: Manager, ops: seq<Op>): (n: Manager)
    requires Valid(m)
    ensures Valid(n)
  {
    if ops == [] then m
    else
      var before := Run(m, ops[..|ops| - 1]);
      StepAdvances(before, ops[|ops| - 1]);
      Step(before, ops[|ops| - 1]).0
  }

  /** Over any run, under any clocks, every request only makes progress. */
  lemma {:induction false} RunAdvances(m: Manager, ops: seq<Op>, k: nat)
    requires Valid(m) && k <= |ops|
    ensures Advances(Run(m, ops[..k]), Run(m, ops))
    decreases |ops|
  {
    if k < |ops| {
      var front := ops[..|ops| - 1];
      assert front[..k] == ops[..k];
      RunAdvances(m, front, k);
      StepAdvances(Run(m, front), ops[|ops| - 1]);
      AdvancesIsTransitive(Run(m, ops[..k]), Run(m, front), Run(m, ops));
    } else {
      assert ops[..k] == ops;
    }
  }

  // -------------------------------------------------------------- single use

  lemma OpenedIsUnused(m: Manager, op: Op)
    requires Valid(m) && op.Ask?
    ensures Step(m, op).1.Ok? ==> Step(m, op).1.value.id == RequestId(m.prefix, m.nextId)
  {}

  /** Consumption happens only by resuming, before expiry, with a quorum of
      distinct required roles and an unchanged binding. */
  lemma ConsumedOnlyWithQuorum(m: Manager, op: Op, id: string)
    requires Valid(m) && id in m.requests && !m.requests[id].consumed
    requires id in Step(m, op).0.requests && Step(m, op).0.requests[id].consumed
    ensures op.Resume? && op.id == id
    ensures var r := m.requests[id];
            && Current(r, op.now) < r.expiresAt
            && op.binding == r.binding
            && Distinct(r.votes) && |r.votes| >= r.threshold
            && (forall v :: v in r.votes ==> v in r.requiredRoles)
  {
    hide RequestId, Opened, IssuedBefore;
    assert ValidRequest(m.requests[id]);
    if op.Ask? {
      NextIdIsFresh(m);
      OpenedIsUnused(m, op);
    }
  }

  ghost predicate Resumed(m: Manager, ops: seq<Op>, i: nat, id: string)
    requires Valid(m) && i < |ops|
  {
    ops[i].Resume? && ops[i].id == id && Step(Run(m, ops[..i]), ops[i]).1.Ok?
  }

  /** In any run, under any clocks, a request is consumed at most once. */
  lemma ConsumedAtMostOnce(m: Manager, ops: seq<Op>, i: nat, j: nat, id: string)
    requires Valid(m) && i < j < |ops| && Resumed(m, ops, i, id)
    ensures !Resumed(m, ops, j, id)
  {
    assert ops[..i + 1][..i] == ops[..i] && ops[..j][..i + 1] == ops[..i + 1];
    assert Run(m, ops[..i + 1]) == Step(Run(m, ops[..i]), ops[i]).0;
    assert Run(m, ops[..i + 1]).requests[id].consumed;
    RunAdvances(m, ops[..j], i + 1);
    assert Run(m, ops[..j]).requests[id].consumed;
  }

  // ---------------------------------------------------------------- snapshot

  datatype Snapshot = Snapshot(
    version: string, ttl: real, prefix: string, requireIdentity: bool, nextId: int, requests: seq<Request>)

  ghost function ListedRequests(m: Manager): seq<Request> {
    var ids := Sorted(m.requests.Keys);
    assert forall i :: 0 <= i < |ids| ==> ids[i] in Members(ids);
    seq(|ids|, i requires 0 <= i < |ids| => m.requests[ids[i]])
  }

  /** `snapshot`. */
  ghost function SnapshotOf(m: Manager): Snapshot {
    Snapshot("1.0", m.ttl, m.prefix, m.requireIdentity, m.nextId, ListedRequests(m))
  }

  /** A restored request: an empty role list stands for the request's own role. */
  function Defaulted(r: Request): Request {
    if r.requiredRoles == [] then r.(requiredRoles := [r.role]) else r
  }

  /** The per-request checks of `from_snapshot`. */
  predicate RequestAccepted(listed: Request) {
    var r := Defaulted(listed);
    && r.id != "" && r.role != "" && r.createdAt <= r.expiresAt
    && 1 <= r.threshold <= |r.requiredRoles|
    && Distinct(r.votes) && (forall v :: v in r.votes ==> v in r.requiredRoles)
    && (r.state.Approved? ==> |r.votes| >= r.threshold)
    && (r.state.Pending? ==> |r.votes| < r.threshold)
    && (r.consumed ==> r.state.Approved?)
    && DistinctKeys(r.voteIdentities)
    && (forall i :: 0 <= i < |r.voteIdentities| ==> r.voteIdentities[i].0 in r.votes)
    && (r.denialIdentity.Some? ==> r.state.Denied?)
  }

  function Ids(listed: seq<Request>): seq<string> {
    seq(|listed|, i requires 0 <= i < |listed| => listed[i].id)
  }

  function AllDefaulted(listed: seq<Request>): seq<Request> {
    seq(|listed|, i requires 0 <= i < |listed| => Defaulted(listed[i]))
  }

  predicate Accepts(s: Snapshot) {
    && s.version == "1.0" && s.ttl > 0.0 && s.prefix != "" && s.nextId > 0
    && Distinct(Ids(s.requests))
    && forall i :: 0 <= i < |s.requests| ==> RequestAccepted(s.requests[i])
  }

  function Loadable(listed: seq<Request>): map<string, Request> { Table(Ids(listed), AllDefaulted(listed)) }

  function Restored(s: Snapshot): Manager {
    Manager(s.ttl, s.prefix, s.requireIdentity, s.nextId, Loadable(s.requests))
  }

  /** Loading one more listed request. */
  lemma OneMoreListed(listed: seq<Request>, i: nat)
    requires i < |listed| && Distinct(Ids(listed[..i]))
    ensures Loadable(listed[..i + 1]) == Loadable(listed[..i])[listed[i].id := Defaulted(listed[i])]
    ensures listed[i].id in Loadable(listed[..i]) ==> !Distinct(Ids(listed))
    ensures listed[i].id !in Loadable(listed[..i]) ==> Distinct(Ids(listed[..i + 1]))
  {
    hide Defaulted, RequestAccepted, Table;
    assert Ids(listed)[..i] == Ids(listed[..i]) && Ids(listed)[..i + 1] == Ids(listed[..i + 1]);
    assert AllDefaulted(listed)[..i] == AllDefaulted(listed[..i]) && AllDefaulted(listed)[..i + 1] == AllDefaulted(listed[..i + 1]);
    TableGrows(Ids(listed), AllDefaulted(listed), i);
  }

  /** `m` is what the loader holds after `i` listed requests. */
  ghost predicate Loaded(s: Snapshot, i: nat, m: Manager) {
    && i <= |s.requests|
    && m == Restored(s).(nextId := 1, requests := Loadable(s.requests[..i]))
    && Distinct(Ids(s.requests[..i]))
    && forall k :: 0 <= k < i ==> RequestAccepted(s.requests[k])
  }

  lemma LoadStarts(s: Snapshot)
    ensures Loaded(s, 0, Manager(s.ttl, s.prefix, s.requireIdentity, 1, map[]))
  {}

  lemma LoadContinues(s: Snapshot, i: nat, m: Manager)
    requires Loaded(s, i, m) && i < |s.requests|
    ensures var listed := s.requests[i];
            if listed.id !in m.requests && RequestAccepted(listed)
            then Loaded(s, i + 1, m.(requests := m.requests[listed.id := Defaulted(listed)]))
            else !Accepts(s)
  {
    OneMoreListed(s.requests, i);
  }

  lemma LoadEnds(s: Snapshot, m: Manager)
    requires Loaded(s, |s.requests|, m)
    requires s.version == "1.0" && s.ttl > 0.0 && s.prefix != "" && s.nextId > 0
    ensures Accepts(s) && m.(nextId := s.nextId) == Restored(s)
  {
    assert s.requests[..|s.requests|] == s.requests;
  }

  lemma SnapshotLists(m: Manager)
    requires Valid(m)
    ensures var ids, listed := Sorted(m.requests.Keys), ListedRequests(m);
            && |listed| == |ids| && Distinct(Ids(listed))
            && forall i :: 0 <= i < |ids| ==>
                 ids[i] in m.requests && listed[i] == m.requests[ids[i]] && listed[i].id == ids[i]
  {
    var ids, listed := Sorted(m.requests.Keys), ListedRequests(m);
    forall i | 0 <= i < |ids| ensures ids[i] in m.requests {
      assert ids[i] in Members(ids);
    }
    forall i, j | 0 <= i < j < |ids| ensures listed[i].id != listed[j].id {
      BeforeIsStrict(ids[i], ids[j]);
    }
  }

  lemma RequestsReadBack(m: Manager)
    requires Valid(m)
    ensures Loadable(ListedRequests(m)) == m.requests
  {
    var ids, listed := Sorted(m.requests.Keys), ListedRequests(m);
    SnapshotLists(m);
    assert Ids(listed) == ids;
    TableHolds(ids, AllDefaulted(listed));
    hide Table;
    forall id | id in m.requests ensures id in Loadable(listed) && Loadable(listed)[id] == m.requests[id] {
      assert id in Members(ids);
      var i :| 0 <= i < |ids| && ids[i] == id;
      assert ValidRequest(listed[i]);
    }
    forall id | id in Loadable(listed) ensures id in m.requests { assert id in Members(ids); }
  }

  /** Every valid state, so every reachable one, is accepted back from its
      snapshot and is restored exactly. */
  lemma SnapshotRoundTrip(m: Manager)
    requires Valid(m)
    ensures Accepts(SnapshotOf(m)) && Restored(SnapshotOf(m)) == m
  {
    SnapshotLists(m);
    RequestsReadBack(m);
    forall i | 0 <= i < |ListedRequests(m)| ensures RequestAccepted(ListedRequests(m)[i]) {
      assert ValidRequest(ListedRequests(m)[i]);
    }
  }
}
