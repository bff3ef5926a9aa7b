/** The approval operations in plain terms: what each comes to, said of the fields of
    requests and identities, and who stands behind every vote (governance/approval.py). */
module PlainApprovals {
  import opened Text
  import opened Model
  import opened Tables
  import opened Approval

  /** The time at which an operation looks at a request. */
  function TimeOf(r: Request, now: Option<real>): real {
    match now
    case Some(t) => t
    case None => r.createdAt
  }

  /** Open until its deadline, and not used. */
  predicate Lapsed(r: Request, t: real) { (r.state == Pending || r.state == Approved) && !r.consumed && t >= r.expiresAt }

  /** The request as it is read at a time. */
  predicate ReadAs(r: Request, t: real, read: Request) {
    read == Request(r.id, r.role, r.binding, r.matchedRules, r.createdAt, r.expiresAt, r.requiredRoles, r.threshold, r.identity, r.votes,
                    if Lapsed(r, t) then Expired else r.state, r.consumed, r.voteIdentities, r.denialIdentity)
  }

  /** An identity that may act in a role at a time: none where none is needed, or one that
      the verifier issued, within its time, that holds the role and has a reference. */
  predicate MayAct(required: bool, who: Option<Identity>, role: string, t: real) {
    match who
    case None => !required
    case Some(i) => i.genuine && i.issuedAt <= t && t < i.expiresAt && role in i.roles && |i.reference| > 0
  }

  predicate MayVote(m: Manager, r: Request, role: string, binding: Binding, t: real, who: Option<Identity>) {
    && r.state == Pending && t < r.expiresAt && role in r.requiredRoles && role !in r.votes
    && r.binding.action == binding.action && r.binding.context == binding.context && r.binding.policy == binding.policy && r.binding.state == binding.state
    && MayAct(m.requireIdentity, who, role, t)
  }

  /** The manager in which one request is replaced. */
  predicate Replaces(m: Manager, n: Manager, id: string, r: Request) {
    && n.ttl == m.ttl && n.prefix == m.prefix && n.requireIdentity == m.requireIdentity && n.nextId == m.nextId
    && n.requests == m.requests[id := r]
  }

  /** A vote: accepted exactly when it may be cast; then it is appended, with the
      identity behind it, and approves the request when it reaches the threshold. */
  lemma VoteInPlainTerms(m: Manager, id: string, role: string, binding: Binding, now: Option<real>, who: Option<Identity>)
    requires Valid(m)
    ensures var (n, reply) := ApproveStep(m, id, role, binding, now, who);
            if id !in m.requests then n == m && reply == Err(UnknownRequest)
            else
              var r := m.requests[id];
              var t := TimeOf(r, now);
              && (reply.Ok? <==> MayVote(m, r, role, binding, t, who))
              && (reply.Ok? ==>
                    var v := reply.value;
                    && Replaces(m, n, id, v)
                    && v == r.(votes := v.votes, voteIdentities := v.voteIdentities, state := v.state)
                    && v.votes == r.votes + [role]
                    && v.voteIdentities == (if who.Some? then r.voteIdentities + [(role, who.value.reference)] else r.voteIdentities)
                    && v.state == (if |r.votes| + 1 >= r.threshold then Approved else Pending))
              && (reply.Err? ==> exists read :: ReadAs(r, t, read) && Replaces(m, n, id, read))
  {
    if id in m.requests {
      var r := m.requests[id];
      assert ReadAs(r, TimeOf(r, now), Aged(r, now));
      assert ValidRequest(r) && r.id == id;
    }
  }

  /** Why a vote is turned away. */
  lemma VoteRefusals(m: Manager, id: string, role: string, binding: Binding, now: Option<real>, who: Option<Identity>)
    requires Valid(m) && id in m.requests && ApproveStep(m, id, role, binding, now, who).1.Err?
    ensures var r := m.requests[id];
            var t := TimeOf(r, now);
            var error := ApproveStep(m, id, role, binding, now, who).1.error;
            if r.state != Pending || t >= r.expiresAt then error == InState(if Lapsed(r, t) then Expired else r.state)
            else if role !in r.requiredRoles then error == RoleNotRequired
            else if role in r.votes then error == AlreadyVoted
            else if who.None? && m.requireIdentity then error == ApproverIdentityRequired
            else if !MayAct(m.requireIdentity, who, role, t) then error == IdentityRejected
            else error == BindingChanged
  {
    assert ValidRequest(m.requests[id]) && m.requests[id].id == id;
  }

  predicate MayDeny(m: Manager, r: Request, role: string, t: real, who: Option<Identity>) {
    r.state == Pending && t < r.expiresAt && role in r.requiredRoles && MayAct(m.requireIdentity, who, role, t)
  }

  /** A denial: accepted exactly when it may be given; then it ends the request. */
  lemma DenialInPlainTerms(m: Manager, id: string, role: string, now: Option<real>, who: Option<Identity>)
    requires Valid(m)
    ensures var (n, reply) := DenyStep(m, id, role, now, who);
            if id !in m.requests then n == m && reply == Err(UnknownRequest)
            else
              var r := m.requests[id];
              var t := TimeOf(r, now);
              && (reply.Ok? <==> MayDeny(m, r, role, t, who))
              && (reply.Ok? ==>
                    && Replaces(m, n, id, reply.value)
                    && reply.value == r.(state := Denied, denialIdentity := if who.Some? then Some(who.value.reference) else r.denialIdentity))
              && (reply.Err? ==> exists read :: ReadAs(r, t, read) && Replaces(m, n, id, read))
              && (reply.Err? ==>
                    reply.error ==
                      if r.state != Pending || t >= r.expiresAt then InState(if Lapsed(r, t) then Expired else r.state)
                      else if role !in r.requiredRoles then RoleNotRequired
                      else if who.None? then ApproverIdentityRequired else IdentityRejected)
  {
    if id in m.requests {
      var r := m.requests[id];
      assert ReadAs(r, TimeOf(r, now), Aged(r, now));
      assert ValidRequest(r) && r.id == id;
    }
  }

  /** A resumption: accepted exactly for an approved, unused request before its deadline
      under the bindings that it was opened with; then it is used. */
  lemma ResumptionInPlainTerms(m: Manager, id: string, binding: Binding, now: Option<real>)
    requires Valid(m)
    ensures var (n, reply) := ResumeStep(m, id, binding, now);
            if id !in m.requests then n == m && reply == Err(UnknownRequest)
            else
              var r := m.requests[id];
              var t := TimeOf(r, now);
              && (reply.Ok? <==>
                    && r.state == Approved && !r.consumed && t < r.expiresAt
                    && r.binding.action == binding.action && r.binding.context == binding.context && r.binding.policy == binding.policy
                    && r.binding.state == binding.state)
              && (reply.Ok? ==> reply.value == r.(consumed := true) && Replaces(m, n, id, reply.value))
              && (reply.Err? ==> exists read :: ReadAs(r, t, read) && Replaces(m, n, id, read))
              && (reply.Err? ==>
                    reply.error ==
                      if Lapsed(r, t) then InState(Expired) else if r.state != Approved then InState(r.state)
                      else if r.consumed then AlreadyConsumed else BindingChanged)
  {
    if id in m.requests {
      var r := m.requests[id];
      assert ReadAs(r, TimeOf(r, now), Aged(r, now));
      assert ValidRequest(r) && r.id == id;
    }
  }

  /** Reading a request expires it exactly when it lapsed. */
  lemma ReadingInPlainTerms(m: Manager, id: string, now: Option<real>)
    requires Valid(m)
    ensures var (n, reply) := LookStep(m, id, now);
            if id !in m.requests then n == m && reply == Err(UnknownRequest)
            else reply.Ok? && ReadAs(m.requests[id], TimeOf(m.requests[id], now), reply.value) && Replaces(m, n, id, reply.value)
  {}

  /** Asking: an escalation with a lifetime opens one pending request, under the next id,
      bound to what it was asked for, that asks the roles of the decision. */
  lemma AskingInPlainTerms(m: Manager, d: Decision, binding: Binding, identity: Option<string>, created: real, lifetime: Option<real>)
    requires Valid(m)
    ensures var (n, reply) := AskStep(m, d, binding, identity, created, lifetime);
            var span := if lifetime.None? then m.ttl else lifetime.value;
            if d.kind != Escalate then n == m && reply == Err(NotEscalation)
            else if m.requireIdentity && identity.None? then n == m && reply == Err(RequesterIdentityRequired)
            else if span <= 0.0 then n == m && reply == Err(TtlNotPositive)
            else
              && reply.Ok? && d.role.Some?
              && reply.value == Request(m.prefix + "-" + Pad4(m.nextId), d.role.value, binding, d.matchedRules, created, created + span,
                                        if d.approvalRoles == [] then [d.role.value] else d.approvalRoles,
                                        if d.approvalThreshold == 0 then 1 else d.approvalThreshold,
                                        identity, [], Pending, false, [], None)
              && n == Manager(m.ttl, m.prefix, m.requireIdentity, m.nextId + 1, m.requests[reply.value.id := reply.value])
  {
    hide Pad4;
  }

  // --------------------------------------------------- who stands behind votes

  /** The vote that an operation of the run casts, by an identity that may act in its role. */
  ghost predicate Backed(r: Request, role: string, op: Op) {
    && op.Approve? && op.id == r.id && op.role == role && op.who.Some?
    && MayAct(true, op.who, role, TimeOf(r, op.now)) && (role, op.who.value.reference) in r.voteIdentities
  }

  ghost predicate AllBacked(m: Manager, ops: seq<Op>) {
    forall id, role :: id in m.requests && role in m.requests[id].votes ==> exists k :: 0 <= k < |ops| && Backed(m.requests[id], role, ops[k])
  }

  lemma BackingStays(a: Request, b: Request, role: string, op: Op)
    requires Backed(a, role, op) && Progress(a, b)
    ensures Backed(b, role, op)
  {}

  lemma OneMoreBacked(m: Manager, ops: seq<Op>, op: Op)
    requires Valid(m) && m.requireIdentity && AllBacked(m, ops)
    ensures Step(m, op).0.requireIdentity && AllBacked(Step(m, op).0, ops + [op])
  {
    var n := Step(m, op).0;
    StepAdvances(m, op);
    hide AllBacked;
    forall id, role | id in n.requests && role in n.requests[id].votes
      ensures exists k :: 0 <= k < |ops + [op]| && Backed(n.requests[id], role, (ops + [op])[k])
    {
      if id in m.requests && role in m.requests[id].votes {
        BackedBefore(m, ops, id, role);
        var k :| 0 <= k < |ops| && Backed(m.requests[id], role, ops[k]);
        BackingStays(m.requests[id], n.requests[id], role, ops[k]);
        assert (ops + [op])[k] == ops[k];
      } else {
        NewVoteIsBacked(m, op, id, role);
        assert (ops + [op])[|ops|] == op;
      }
    }
    assert AllBacked(n, ops + [op]) by { ShownBacked(n, ops + [op]); }
  }

  lemma BackedBefore(m: Manager, ops: seq<Op>, id: string, role: string)
    requires AllBacked(m, ops) && id in m.requests && role in m.requests[id].votes
    ensures exists k :: 0 <= k < |ops| && Backed(m.requests[id], role, ops[k])
  {}

  lemma ShownBacked(m: Manager, ops: seq<Op>)
    requires forall id, role :: id in m.requests && role in m.requests[id].votes ==> exists k :: 0 <= k < |ops| && Backed(m.requests[id], role, ops[k])
    ensures AllBacked(m, ops)
  {}

  lemma NewVoteIsBacked(m: Manager, op: Op, id: string, role: string)
    requires Valid(m) && m.requireIdentity
    requires var n := Step(m, op).0; id in n.requests && role in n.requests[id].votes
    requires id in m.requests ==> role !in m.requests[id].votes
    ensures Backed(Step(m, op).0.requests[id], role, op)
  {
    if op.Ask? {
      AskingInPlainTerms(m, op.decision, op.binding, op.identity, op.created, op.ttl);
      hide AskStep, Valid;
    } else if op.Approve? {
      VoteInPlainTerms(m, op.id, op.role, op.binding, op.now, op.who);
      assert id in m.requests ==> m.requests[id].id == id;
      hide ApproveStep, Valid;
    }
  }

  /** In every run of a manager that requires identities, each vote was cast by an
      identity that the verifier issued, that held its role at the time, and whose
      reference is kept beside the vote. */
  lemma {:induction false} VotesAreBacked(m: Manager, ops: seq<Op>)
    requires Valid(m) && m.requireIdentity && m.requests == map[]
    ensures Run(m, ops).requireIdentity && AllBacked(Run(m, ops), ops)
  {
    if ops != [] {
      var front, last := ops[..|ops| - 1], ops[|ops| - 1];
      VotesAreBacked(m, front);
      hide Valid, AllBacked, Step;
      OneMoreBacked(Run(m, front), front, last);
      assert front + [last] == ops;
    }
  }

  // ------------------------------------------------------------- loaded state

  /** The snapshot's requests, with their own role where no role is listed. */
  function Listed(s: Snapshot, i: nat): Request
    requires i < |s.requests|
  {
    var r := s.requests[i];
    if |r.requiredRoles| == 0 then r.(requiredRoles := [r.role]) else r
  }

  /** A snapshot is accepted exactly when it is of this version, its ids differ, and its
      requests are valid but for a lifetime that may be empty. */
  lemma AcceptanceInPlainTerms(s: Snapshot)
    ensures Accepts(s) <==>
              && s.version == "1.0" && s.ttl > 0.0 && s.prefix != "" && s.nextId > 0
              && (forall i, j :: 0 <= i < |s.requests| && 0 <= j < |s.requests| && i != j ==> s.requests[i].id != s.requests[j].id)
              && forall i :: 0 <= i < |s.requests| ==>
                   && Listed(s, i).createdAt <= Listed(s, i).expiresAt
                   && ValidRequest(Listed(s, i).(expiresAt := Listed(s, i).expiresAt + 1.0))
  {
    var ids := Approval.Ids(s.requests);
    assert |ids| == |s.requests| && forall i :: 0 <= i < |ids| ==> ids[i] == s.requests[i].id;
    forall i | 0 <= i < |s.requests|
      ensures RequestAccepted(s.requests[i]) <==>
                && Listed(s, i).createdAt <= Listed(s, i).expiresAt
                && ValidRequest(Listed(s, i).(expiresAt := Listed(s, i).expiresAt + 1.0))
    {
      StretchedIsAccepted(s, i);
    }
    hide RequestAccepted, ValidRequest, Listed;
  }

  lemma StretchedIsAccepted(s: Snapshot, i: nat)
    requires i < |s.requests|
    ensures RequestAccepted(s.requests[i]) <==>
              && Listed(s, i).createdAt <= Listed(s, i).expiresAt
              && ValidRequest(Listed(s, i).(expiresAt := Listed(s, i).expiresAt + 1.0))
  {
    assert Listed(s, i) == Defaulted(s.requests[i]);
  }

  /** What is loaded is a valid manager exactly when every request has a lifetime and an id
      that was given before the next one. */
  lemma LoadedIsValidExactly(s: Snapshot)
    requires Accepts(s)
    ensures Valid(Restored(s)) <==>
              forall i :: 0 <= i < |s.requests| ==>
                s.requests[i].createdAt < s.requests[i].expiresAt && IssuedBefore(s.requests[i].id, s.prefix, s.nextId)
  {
    var ids, listed := Approval.Ids(s.requests), AllDefaulted(s.requests);
    TableHolds(ids, listed);
    hide Table, IssuedBefore;
    var m := Restored(s);
    forall i | 0 <= i < |s.requests|
      ensures ids[i] in m.requests && m.requests[ids[i]] == listed[i]
      ensures ValidRequest(listed[i]) <==> s.requests[i].createdAt < s.requests[i].expiresAt
    {
      assert RequestAccepted(s.requests[i]);
    }
    hide ValidRequest, RequestAccepted, Defaulted;
    if Valid(m) {
      forall i | 0 <= i < |s.requests|
        ensures s.requests[i].createdAt < s.requests[i].expiresAt && IssuedBefore(s.requests[i].id, s.prefix, s.nextId)
      {
        assert ValidRequest(m.requests[ids[i]]) && IssuedBefore(ids[i], m.prefix, m.nextId);
      }
    }
  }

  /** An accepted snapshot whose next id is taken: the next escalation replaces the request
      that was loaded under it. */
  lemma LoadedRequestMayBeReplaced(d: Decision) returns (s: Snapshot, id: string)
    requires d.kind == Escalate
    ensures Accepts(s) && id in Restored(s).requests && Restored(s).requests[id].state == Pending
    ensures var (n, reply) := AskStep(Restored(s), d, Binding("a", "", "", ""), None, 1.0, None);
            reply.Ok? && reply.value.id == id && n.requests[id] != Restored(s).requests[id] && n.requests.Keys == Restored(s).requests.Keys
  {
    id := RequestId("approval", 1);
    var r := Request(id, "approver", Binding("", "", "", ""), [], 0.0, 1.0, ["approver"], 1, None, [], Pending, false, [], None);
    s := Snapshot("1.0", 1.0, "approval", false, 1, [r]);
    var ids, listed := Approval.Ids(s.requests), AllDefaulted(s.requests);
    assert ids == [id] && listed == [r];
    TableHolds(ids, listed);
    hide Table;
    assert RequestAccepted(r) by { assert "approval" + ("-" + Pad4(1)) != ""; }
  }
}
