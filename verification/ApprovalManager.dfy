/** The mutable approval manager and its requests (governance/approval.py),
    proved against the transitions of module Approval. */
module ApprovalManagers {
  import opened Text
  import opened Model
  import opened Approval

  class ApprovalRequest {
    const id: string
    const role: string
    const binding: Binding
    const matchedRules: seq<string>
    const createdAt: real
    const expiresAt: real
    const requiredRoles: seq<string>
    const threshold: int
    const identity: Option<string>
    var votes: seq<string>
    var state: ApprovalState
    var consumed: bool
    var voteIdentities: seq<(string, string)>
    var denialIdentity: Option<string>

    function View(): Request
      reads this
    {
      Request(id, role, binding, matchedRules, createdAt, expiresAt, requiredRoles, threshold, identity,
              votes, state, consumed, voteIdentities, denialIdentity)
    }

    constructor (r: Request)
      ensures View() == r
    {
      id, role, binding, matchedRules := r.id, r.role, r.binding, r.matchedRules;
      createdAt, expiresAt, requiredRoles, threshold := r.createdAt, r.expiresAt, r.requiredRoles, r.threshold;
      identity, votes, state, consumed := r.identity, r.votes, r.state, r.consumed;
      voteIdentities, denialIdentity := r.voteIdentities, r.denialIdentity;
    }

    /** An accepted vote. */
    method Vote(role: string, reference: Option<string>)
      modifies this
      ensures View() == Voted(old(View()), role, reference)
    {
      votes := votes + [role];
      if reference.Some? { voteIdentities := voteIdentities + [(role, reference.value)]; }
      if |votes| >= threshold { state := ApprovalState.Approved; }
    }

    /** An accepted denial. */
    method Refuse(reference: Option<string>)
      modifies this
      ensures View() == Refused(old(View()), reference)
    {
      if reference.Some? { denialIdentity := reference; }
      state := ApprovalState.Denied;
    }
  }

  class ApprovalManager {
    const ttl: real
    const prefix: string
    const requireIdentity: bool
    var nextId: int
    var requests: map<string, ApprovalRequest>

    function State(): Manager
      reads this, requests.Values
    {
      Manager(ttl, prefix, requireIdentity, nextId, map id | id in requests :: requests[id].View())
    }

    /** Requests are filed under their own id, so no two keys share an object. */
    ghost predicate Keyed()
      reads this
    {
      forall id :: id in requests ==> requests[id].id == id
    }

    constructor (ttl: real, prefix: string, requireIdentity: bool)
      ensures State() == Manager(ttl, prefix, requireIdentity, 1, map[]) && Keyed() && requests == map[]
    {
      this.ttl, this.prefix, this.requireIdentity := ttl, prefix, requireIdentity;
      nextId, requests := 1, map[];
    }

    /** A new request object under its id. */
    method File(r: Request) returns (request: ApprovalRequest)
      requires Keyed()
      modifies this`requests
      ensures Keyed() && fresh(request) && request.View() == r
      ensures requests == old(requests)[r.id := request]
      ensures State() == old(State()).(requests := old(State()).requests[r.id := r])
    {
      request := new ApprovalRequest(r);
      requests := requests[r.id := request];
      assert State().requests == old(State()).requests[r.id := r];
    }

    method RequestApproval(d: Decision, binding: Binding, identity: Option<string>, created: real, lifetime: Option<real>)
      returns (res: Result<ApprovalRequest, ApprovalError>)
      requires Keyed() && nextId >= 0
      modifies this
      ensures Keyed()
      ensures State() == AskStep(old(State()), d, binding, identity, created, lifetime).0
      ensures Outcome(res, AskStep(old(State()), d, binding, identity, created, lifetime).1)
    {
      hide RequestId, Opened;
      if !d.kind.Escalate? || !Truthy(d.role) { return Err(NotEscalation); }
      if requireIdentity && identity.None? { return Err(RequesterIdentityRequired); }
      var effective := if lifetime.Some? then lifetime.value else ttl;
      if effective <= 0.0 { return Err(TtlNotPositive); }
      var id := RequestId(prefix, nextId);
      nextId := nextId + 1;
      assert State().requests == old(State()).requests;
      var request := File(Opened(id, d, binding, identity, created, effective));
      return Ok(request);
    }

    /** `_get`: reading may expire the request. */
    method Get(id: string, now: Option<real>) returns (res: Result<ApprovalRequest, ApprovalError>)
      requires Keyed()
      modifies requests.Values
      ensures State() == LookStep(old(State()), id, now).0
      ensures Outcome(res, LookStep(old(State()), id, now).1)
      ensures res.Ok? ==> id in requests && res.value == requests[id]
    {
      if id !in requests { return Err(UnknownRequest); }
      ghost var before := State();
      var request := requests[id];
      var current := if now.Some? then now.value else request.createdAt;
      if !request.consumed && (request.state == Pending || request.state == ApprovalState.Approved) && current >= request.expiresAt {
        request.state := ApprovalState.Expired;
      }
      PutIs(before, State(), request.View());
      return Ok(request);
    }

    method Approve(id: string, role: string, binding: Binding, now: Option<real>, who: Option<Identity>)
      returns (res: Result<ApprovalRequest, ApprovalError>)
      requires Keyed()
      modifies requests.Values
      ensures State() == ApproveStep(old(State()), id, role, binding, now, who).0
      ensures Outcome(res, ApproveStep(old(State()), id, role, binding, now, who).1)
    {
      res := Get(id, now);
      if res.Err? { return; }
      var request := res.value;
      var refusal := ApproveRefusal(requireIdentity, request.View(), role, binding, now, who);
      if refusal.Some? { return Err(refusal.value); }
      ghost var read := State();
      request.Vote(role, Reference(who));
      PutIs(read, State(), request.View());
    }

    method Deny(id: string, role: string, now: Option<real>, who: Option<Identity>)
      returns (res: Result<ApprovalRequest, ApprovalError>)
      requires Keyed()
      modifies requests.Values
      ensures State() == DenyStep(old(State()), id, role, now, who).0
      ensures Outcome(res, DenyStep(old(State()), id, role, now, who).1)
    {
      res := Get(id, now);
      if res.Err? { return; }
      var request := res.value;
      var refusal := DenyRefusal(requireIdentity, request.View(), role, now, who);
      if refusal.Some? { return Err(refusal.value); }
      ghost var read := State();
      request.Refuse(Reference(who));
      PutIs(read, State(), request.View());
    }

    method PrepareResume(id: string, binding: Binding, now: Option<real>)
      returns (res: Result<ApprovalRequest, ApprovalError>)
      requires Keyed()
      modifies requests.Values
      ensures State() == ResumeStep(old(State()), id, binding, now).0
      ensures Outcome(res, ResumeStep(old(State()), id, binding, now).1)
    {
      res := Get(id, now);
      if res.Err? { return; }
      var request := res.value;
      if request.state != ApprovalState.Approved { return Err(InState(request.state)); }
      if request.consumed { return Err(AlreadyConsumed); }
      if request.binding != binding { return Err(BindingChanged); }
      ghost var read := State();
      request.consumed := true;
      PutIs(read, State(), request.View());
    }
  }

  /** A manager that differs from `m` at one request only. */
  lemma PutIs(m: Manager, n: Manager, r: Request)
    requires n == m.(requests := n.requests)
    requires r.id in m.requests && n.requests.Keys == m.requests.Keys
    requires forall id :: id in m.requests ==> n.requests[id] == if id == r.id then r else m.requests[id]
    ensures n == Put(m, r)
  {
    assert n.requests == m.requests[r.id := r];
  }

  /** A method's result shows the request, or the refusal, of the transition. */
  ghost predicate Outcome(res: Result<ApprovalRequest, ApprovalError>, reply: Reply)
    reads if res.Ok? then {res.value} else {}
  {
    match res
    case Ok(request) => reply == Ok(request.View())
    case Err(error) => reply == Err(error)
  }

  /** One listed request: filed unless its id is taken or its values are malformed. */
  method Load(manager: ApprovalManager, listed: Request) returns (ok: bool)
    requires manager.Keyed()
    modifies manager`requests
    ensures ok <==> listed.id !in old(manager.State()).requests && RequestAccepted(listed)
    ensures ok ==> manager.Keyed() && manager.State() == old(manager.State()).(
              requests := old(manager.State()).requests[listed.id := Defaulted(listed)])
  {
    hide RequestAccepted;
    assert manager.requests.Keys == manager.State().requests.Keys;
    if listed.id in manager.requests || !RequestAccepted(listed) { return false; }
    var request := manager.File(Defaulted(listed));
    return true;
  }

  /** `from_snapshot`: a manager for exactly the snapshots that are accepted. */
  method FromSnapshot(s: Snapshot) returns (r: Result<ApprovalManager, string>)
    ensures r.Ok? <==> Accepts(s)
    ensures r.Ok? ==> fresh(r.value) && r.value.Keyed() && r.value.State() == Restored(s)
  {
    hide RequestAccepted, Defaulted, Loaded;
    if s.version != "1.0" || s.ttl <= 0.0 || s.prefix == "" || s.nextId <= 0 { return Err("metadata"); }
    var manager := new ApprovalManager(s.ttl, s.prefix, s.requireIdentity);
    LoadStarts(s);
    for i := 0 to |s.requests|
      invariant fresh(manager) && manager.Keyed() && Loaded(s, i, manager.State())
    {
      LoadContinues(s, i, manager.State());
      var ok := Load(manager, s.requests[i]);
      if !ok { return Err("request"); }
    }
    LoadEnds(s, manager.State());
    ghost var loaded := manager.State();
    manager.nextId := s.nextId;
    assert manager.State().requests == loaded.requests;
    return Ok(manager);
  }
}
