/** The service object (governance/service.py): its endpoints run the transitions
    of module DurableWorker in sequence over the store and manager objects. */
module Service {
  import opened Text
  import opened DurableStore
  import opened DurableWorker
  import opened SqliteStore
  import opened ApprovalManagers
  import A = Approval

  /** What the database does to each transaction of one call. */
  datatype Faults = Faults(begin: Fault, claim: Fault, settle: Fault, save: Fault, complete: Fault)

  /** What the handler and the encoder of its result do, if it is called. */
  datatype Handling = Handling(returned: Option<Json>, serializable: bool)

  // ------------------------------------------------------- calls in sequence

  function Committed(s: Store, w: Worker, f: Faults): (Store, Worker) {
    if w.pc.Committing? then Commit(s, w, f.complete) else (s, w)
  }

  function Saved(s: Store, w: Worker, f: Faults): (Store, Worker) {
    if w.pc.Persisting? || w.pc.PersistingExpiry? then
      var (t, n) := Persist(s, w, f.save);
      Committed(t, n, f)
    else Committed(s, w, f)
  }

  function Operated(s: Store, w: Worker, h: Handling, f: Faults): (Store, Worker) {
    if w.pc.Claiming? then
      var (t, n) := ClaimRun(s, w, f.claim);
      if n.pc.Running? then Finish(t, RunHandler(n, h.returned), f.settle, h.serializable) else (t, n)
    else (s, w)
  }

  /** `_decision`, `_vote` and `_resume` once their request is reserved and governed. */
  function Concluded(s: Store, w: Worker, h: Handling, f: Faults): (Store, Worker) {
    var (t, n) := Operated(s, w, h, f);
    Saved(t, n, f)
  }

  // --------------------------------------------------- what the client is given

  /** The response for an answer or an approval state that was not committed. */
  function StoreFailure(error: StoreError): Response {
    if error.Conflict? then Failure(409, "durable_state_conflict") else Failure(503, "durable_state_unavailable")
  }

  /** The answer to a request that is not reserved for this call. */
  function Declined(o: Outcome): Response
    requires !o.Acquired?
  {
    match o
    case Replayed(response) => response
    case KeyConflict => Failure(409, "idempotency_key_conflict")
    case NotCommitted(error) => StoreFailure(error)
    case StoreDown => Failure(503, "durable_state_unavailable")
    case InFlight => Failure(409, "request_in_progress")
    case OutcomeUnknown => Uncertain()
  }

  /** The answer of a worker that is about to commit or to persist: its response once
      that is committed, and otherwise the failure. */
  function CommitReply(s: Store, ticket: Ticket, response: Response, f: Faults): Response {
    var done := Transact(s, f.complete, CompleteStep(s, ticket.scope, ticket.request, response)).1;
    if done.Err? then StoreFailure(done.error) else response
  }

  function SaveReply(s: Store, w: Worker, f: Faults): Response
    requires w.pc.Persisting?
  {
    var (t, saved) := Transact(s, f.save, SaveStep(s, PayloadOf(w), w.revision));
    if saved.Err? then StoreFailure(saved.error) else CommitReply(t, w.pc.ticket, w.pc.response, f)
  }

  /** The answer of a call that governs to `w`; `early` is for one that ends there. */
  function Given(s: Store, w: Worker, early: Response, h: Handling, f: Faults): Response {
    var (t, n) := Operated(s, w, h, f);
    if n.pc.Committing? then CommitReply(t, n.pc.ticket, n.pc.response, f)
    else if n.pc.Persisting? then SaveReply(t, n, f)
    else early
  }

  /** The answer to a vote or a resumption that is given up with its reservation held. */
  function Abandon(w: Worker, id: string, identity: Identity): Response {
    if id !in w.pending then Failure(404, "approval_not_found") else IdentityFailure(identity)
  }

  // ------------------------------------------------------------- the calls

  lemma Received(s: Store, w: Worker, request: Request, fault: Fault)
    requires w.pc.Idle?
    ensures var (_, n, o) := Receive(s, w, request, fault);
            && n.pc == (if o.Acquired? then Reserved(Ticket(request.endpoint, request)) else Idle)
            && n == w.(pc := n.pc, cache := n.cache, uncommitted := n.uncommitted)
  {
    hide BeginStep, CompleteStep, Transact;
  }

  lemma LookingIsValid(m: A.Manager, id: string, now: real)
    requires A.Valid(m)
    ensures A.Valid(A.LookStep(m, id, Some(now)).0)
  {
    A.StepAdvances(m, A.Look(id, Some(now)));
  }

  lemma ResumingIsValid(m: A.Manager, seen: real, op: A.Op)
    requires A.Valid(m) && op.Resume?
    ensures var read := A.LookStep(m, op.id, Some(seen)).0;
            && A.Valid(read) && A.Valid(A.LookStep(read, op.id, op.now).0)
            && A.Valid(A.ResumeStep(read, op.id, op.binding, op.now).0)
  {
    A.StepAdvances(m, A.Look(op.id, Some(seen)));
    var read := A.LookStep(m, op.id, Some(seen)).0;
    assert A.Valid(read);
    A.StepAdvances(read, A.Look(op.id, op.now));
    A.StepAdvances(read, op);
    hide A.LookStep, A.ResumeStep, A.Valid, A.Advances;
  }

  /** An approval that is unknown, or an identity that is, ends the call. */
  lemma Refusing(w: Worker, seen: real, op: A.Op, identity: Identity, approver: bool, recheck: Recheck)
    requires w.pc.Reserved? && w.pc.ticket.scope == Resumes && A.Valid(w.manager) && op.Resume? && Suits(w.shadow, recheck)
    ensures var n := ResumeApproval(w, seen, op, identity, approver, recheck);
            && (n.pc.Idle? || n.pc.Committing? || n.pc.Persisting? || (n.pc.Claiming? && n.pc.kind.ApprovalRun?))
            && (op.id !in w.pending || !identity.Verified? ==> n == w.(pc := Idle))
  {
    hide A.LookStep, A.ResumeStep, A.Valid;
  }

  lemma Concludes(s: Store, w: Worker, h: Handling, f: Faults)
    ensures w.pc.Idle? ==> Concluded(s, w, h, f) == (s, w)
    ensures w.pc.Persisting? ==> Concluded(s, w, h, f) == Saved(s, w, f)
    ensures w.pc.Committing? ==> Concluded(s, w, h, f) == Commit(s, w, f.complete)
    ensures !w.pc.Claiming? ==> Operated(s, w, h, f) == (s, w)
    ensures w.pc.Committing? ==> Saved(s, w, f) == Commit(s, w, f.complete)
    ensures w.pc.Idle? ==> Saved(s, w, f) == (s, w)
  {
    hide Persist, Commit, ClaimRun, Finish;
  }

  lemma Gives(s: Store, w: Worker, early: Response, h: Handling, f: Faults)
    ensures w.pc.Idle? ==> Given(s, w, early, h, f) == early
    ensures w.pc.Persisting? ==> Given(s, w, early, h, f) == SaveReply(s, w, f)
    ensures w.pc.Committing? ==> Given(s, w, early, h, f) == CommitReply(s, w.pc.ticket, w.pc.response, f)
  {
    hide SaveReply, CommitReply, ClaimRun, Finish;
  }

  class GovernanceService {
    /** Whether the runtime's interceptor is in shadow mode. */
    const shadow: bool
    const repository: SQLiteGovernanceStore
    const approvalManager: ApprovalManager
    var idempotency: map<string, (Request, Response)>
    var durableUncommitted: map<(Endpoint, string), (Request, Response)>
    var durableStateRevision: Option<int>
    var pending: map<string, string>
    var completedRequestIds: set<string>
    var expiredApprovals: set<string>

    function View(pc: Pc): Worker
      reads this, approvalManager, approvalManager.requests.Values
    {
      Worker(shadow, pc, idempotency, durableUncommitted, durableStateRevision, approvalManager.State(), pending,
             completedRequestIds, expiredApprovals)
    }

    ghost predicate Valid()
      reads this, approvalManager, approvalManager.requests.Values
    {
      approvalManager.Keyed() && A.Valid(approvalManager.State())
    }

    /** A service over an empty store. */
    constructor (shadow: bool, repository: SQLiteGovernanceStore, approvalManager: ApprovalManager)
      requires approvalManager.Keyed() && A.Valid(approvalManager.State())
      ensures Valid() && this.repository == repository && this.approvalManager == approvalManager
      ensures View(Idle) == Worker(shadow, Idle, map[], map[], None, approvalManager.State(), map[], {}, {})
    {
      this.shadow, this.repository, this.approvalManager := shadow, repository, approvalManager;
      idempotency, durableUncommitted, durableStateRevision, pending := map[], map[], None, map[];
      completedRequestIds, expiredApprovals := {}, {};
    }

    /** `_idempotent`: what the local cache says, if it knows the key. */
    method Idempotent(request: Request) returns (known: Option<Outcome>)
      ensures known.None? <==> request.key !in idempotency
      ensures known.Some? && idempotency[request.key].0 == request ==> known.value == Replayed(idempotency[request.key].1)
      ensures known.Some? && idempotency[request.key].0 != request ==> known.value == KeyConflict
    {
      if request.key !in idempotency { return None; }
      var (recorded, response) := idempotency[request.key];
      if recorded != request { return Some(KeyConflict); }
      return Some(Replayed(response));
    }

    /** `_reserve_durable`: an answer kept from a failed commit, then the store. */
    method ReserveDurable(request: Request, fault: Fault) returns (outcome: Outcome)
      requires request.key !in idempotency
      modifies `durableUncommitted, repository
      ensures var (t, w, o) := Receive(old(repository.State()), old(View(Idle)), request, fault);
              && repository.State() == t && outcome == o && durableUncommitted == w.uncommitted
              && w.cache == (if o.Replayed? then idempotency[request.key := (request, o.response)] else idempotency)
    {
      var at := (request.endpoint, request.key);
      if at in durableUncommitted {
        var (recorded, response) := durableUncommitted[at];
        if recorded != request { return KeyConflict; }
        var done := repository.CompleteIdempotency(request.endpoint, request, response, fault);
        if done.Err? { return NotCommitted(done.error); }
        durableUncommitted := durableUncommitted - {at};
        return Replayed(response);
      }
      var begun := repository.BeginIdempotency(request, fault);
      match begun {
        case Err(Conflict) => outcome := KeyConflict;
        case Err(Unavailable) => outcome := StoreDown;
        case Ok(reservation) =>
          if reservation.row.Complete? {
            outcome := Replayed(reservation.row.response);
          } else if reservation.acquired {
            outcome := Acquired;
          } else {
            outcome := InFlight;
            if request.endpoint.Decisions? {
              var settled := repository.DecisionIsSettled(request.key);
              if settled { outcome := OutcomeUnknown; }
            }
          }
      }
    }

    /** How every endpoint begins. */
    method Enter(request: Request, fault: Fault) returns (outcome: Outcome)
      modifies `idempotency, `durableUncommitted, repository
      ensures var (t, w, o) := Receive(old(repository.State()), old(View(Idle)), request, fault);
              repository.State() == t && outcome == o && View(w.pc) == w
    {
      hide ApprovalManager.State, BeginStep, CompleteStep;
      var known := Idempotent(request);
      if known.Some? { return known.value; }
      outcome := ReserveDurable(request, fault);
      if outcome.Replayed? {
        idempotency := idempotency[request.key := (request, outcome.response)];
      }
    }

    /** `_store_idempotent`. */
    method StoreIdempotent(ticket: Ticket, response: Response, f: Faults) returns (given: Response)
      modifies `idempotency, `durableUncommitted, repository
      ensures (repository.State(), View(Idle)) == Commit(old(repository.State()), old(View(Committing(ticket, response))), f.complete)
      ensures given == CommitReply(old(repository.State()), ticket, response, f)
    {
      hide ApprovalManager.State, CompleteStep;
      var at := (ticket.scope, ticket.request.key);
      var done := repository.CompleteIdempotency(ticket.scope, ticket.request, response, f.complete);
      if done.Err? {
        durableUncommitted := durableUncommitted[at := (ticket.request, response)];
        return StoreFailure(done.error);
      }
      idempotency := idempotency[ticket.request.key := (ticket.request, response)];
      durableUncommitted := durableUncommitted - {at};
      return response;
    }

    /** `_persist_durable_state`. */
    method PersistDurableState(ghost pc: Pc, fault: Fault) returns (failed: Option<Response>)
      requires pc.Persisting? || pc.PersistingExpiry?
      modifies `durableStateRevision, repository
      ensures var (t, w) := Persist(old(repository.State()), old(View(pc)), fault);
              repository.State() == t && View(w.pc) == w && (pc.Persisting? ==> (failed.None? <==> w.pc.Committing?))
      ensures var saved := Transact(old(repository.State()), fault, SaveStep(old(repository.State()), PayloadOf(old(View(pc))), old(durableStateRevision))).1;
              failed == if saved.Err? then Some(StoreFailure(saved.error)) else None
    {
      hide ApprovalManager.State, SaveStep;
      var saved := repository.SaveState(Payload(approvalManager.State(), pending), durableStateRevision, fault);
      if saved.Err? { return Some(StoreFailure(saved.error)); }
      durableStateRevision := Some(saved.value);
      return None;
    }

    /** `_durable_operation`: the handler is called only under a claim that was
        acquired, and its value counts only once its success is recorded. */
    method DurableOperation(kind: Kind, key: string, claimId: ClaimId, returned: Option<Json>, f: Faults)
      returns (value: Option<Json>, ghost started: bool)
      modifies repository
      ensures var s := old(repository.State());
              var (t, claim) := Transact(s, f.claim, ClaimStep(s, kind, key, claimId));
              && started == (claim.Ok? && claim.value.acquired)
              && (!started ==> repository.State() == t && value == None)
              && (started && returned.None? ==>
                    && repository.State() == Transact(t, f.settle, SettleStep(t, kind, key, claimId, Unknown, RaisedOutcome())).0
                    && value == None)
              && (started && returned.Some? ==>
                    var (u, settled) := Transact(t, f.settle, SettleStep(t, kind, key, claimId, Succeeded, SucceededOutcome()));
                    repository.State() == u && value == if settled.Ok? then returned else None)
    {
      hide ClaimStep, SettleStep;
      value, started := None, false;
      var claim := repository.ClaimExecution(kind, key, claimId, f.claim);
      if claim.Err? || !claim.value.acquired { return; }
      started := true;
      if returned.None? {
        var _ := repository.CompleteExecution(kind, key, claimId, Unknown, RaisedOutcome(), f.settle);
      } else {
        var settled := repository.CompleteExecution(kind, key, claimId, Succeeded, SucceededOutcome(), f.settle);
        if settled.Ok? { value := returned; }
      }
    }

    /** The operation of a decision or of a resumed approval, and where the call goes on. */
    method Operate(ticket: Ticket, kind: Kind, key: string, claimId: ClaimId, shown: Shown, h: Handling, f: Faults)
      returns (next: Pc)
      modifies `completedRequestIds, `pending, repository
      ensures var (t, w) := Operated(old(repository.State()), old(View(Claiming(ticket, kind, key, claimId, shown))), h, f);
              repository.State() == t && View(w.pc) == w && next == w.pc
      ensures next.Committing? || next.Persisting?
    {
      hide ApprovalManager.State, ClaimStep, SettleStep;
      var value, started := DurableOperation(kind, key, claimId, h.returned, f);
      var response := Uncertain();
      if value.Some? {
        if kind.DecisionRun? && !shadow { completedRequestIds := completedRequestIds + {key}; }
        response := if h.serializable then Executed(value.value, shown) else Failure(500, "non_serializable_result");
      }
      if kind.ApprovalRun? { return Persisting(ticket, response); }
      if response.status == 200 && response.approvalId.Some? {
        pending := pending[response.approvalId.value := claimId.decisionId];
        return Persisting(ticket, response);
      }
      return Committing(ticket, response);
    }

    /** The end of a call that changed approval state. */
    method Save(ticket: Ticket, response: Response, f: Faults) returns (given: Response)
      modifies `idempotency, `durableUncommitted, `durableStateRevision, repository
      ensures (repository.State(), View(Idle)) == Saved(old(repository.State()), old(View(Persisting(ticket, response))), f)
      ensures given == SaveReply(old(repository.State()), old(View(Persisting(ticket, response))), f)
    {
      hide ApprovalManager.State, SaveStep, CompleteStep, Transact;
      var failed := PersistDurableState(Persisting(ticket, response), f.save);
      if failed.Some? { return failed.value; }
      given := StoreIdempotent(ticket, response, f);
    }

    /** The rest of a call, from the point `next` on. */
    method Continue(next: Pc, early: Response, h: Handling, f: Faults) returns (given: Response)
      requires next.Idle? || next.Committing? || next.Persisting? || next.Claiming?
      modifies `idempotency, `durableUncommitted, `durableStateRevision, `completedRequestIds, `pending, repository
      ensures (repository.State(), View(Idle)) == Concluded(old(repository.State()), old(View(next)), h, f)
      ensures given == Given(old(repository.State()), old(View(next)), early, h, f)
    {
      hide ApprovalManager.State, Operated, Saved, Commit, SaveReply, CommitReply;
      given := early;
      Concludes(repository.State(), View(next), h, f);
      var point := next;
      if next.Claiming? {
        point := Operate(next.ticket, next.kind, next.key, next.claimId, next.shown, h, f);
      }
      Concludes(repository.State(), View(point), h, f);
      if point.Committing? {
        given := StoreIdempotent(point.ticket, point.response, f);
      } else if point.Persisting? {
        given := Save(point.ticket, point.response, f);
      }
    }

    /** The vote itself. */
    method CastVote(request: Request, op: A.Op) returns (response: Response)
      requires Valid() && request.endpoint == Votes && (op.Approve? || op.Deny?) && op.id in pending
      modifies approvalManager.requests.Values
      ensures Valid()
      ensures View(Persisting(Ticket(Votes, request), response))
           == DurableWorker.Vote(old(View(Reserved(Ticket(Votes, request)))), op, Verified)
    {
      A.StepAdvances(approvalManager.State(), op);
      hide A.ApproveStep, A.DenyStep, A.Valid, ApprovalManager.State;
      var res: Result<ApprovalRequest, A.ApprovalError>;
      if op.Approve? {
        res := approvalManager.Approve(op.id, op.role, op.binding, op.now, op.who);
      } else {
        res := approvalManager.Deny(op.id, op.role, op.now, op.who);
      }
      return if res.Ok? then Response(200, None, None, "voted", Null) else Failure(409, "approval_conflict");
    }

    /** `_vote`. */
    method Vote(request: Request, op: A.Op, identity: Identity, f: Faults) returns (given: Response)
      requires Valid() && request.endpoint == Votes && (op.Approve? || op.Deny?) && op.id == request.target
      modifies `idempotency, `durableUncommitted, `durableStateRevision, approvalManager.requests.Values, repository
      ensures Valid()
      ensures var (t, w, o) := Receive(old(repository.State()), old(View(Idle)), request, f.begin);
              && (!o.Acquired? ==> repository.State() == t && View(Idle) == w && given == Declined(o))
              && (o.Acquired? ==>
                    var v, h := DurableWorker.Vote(w, op, identity), Handling(None, true);
                    && (repository.State(), View(Idle)) == Concluded(t, v, h, f)
                    && given == Given(t, v, Abandon(w, op.id, identity), h, f))
    {
      hide ApprovalManager.State, A.Step, A.Valid, Receive, Saved, SaveReply;
      Received(repository.State(), View(Idle), request, f.begin);
      var outcome := Enter(request, f.begin);
      if !outcome.Acquired? { return Declined(outcome); }
      Concludes(repository.State(), View(Idle), Handling(None, true), f);
      Gives(repository.State(), View(Idle), Abandon(View(Idle), op.id, identity), Handling(None, true), f);
      if op.id !in pending { return Failure(404, "approval_not_found"); }
      if !identity.Verified? { return IdentityFailure(identity); }
      var response := CastVote(request, op);
      given := Save(Ticket(Votes, request), response, f);
    }

    /** The approval an escalation asks for, if the manager files one. */
    method FileApproval(ask: A.Op) returns (id: Option<string>)
      requires Valid() && ask.Ask?
      modifies approvalManager
      ensures Valid()
      ensures var (manager, reply) := A.Step(old(approvalManager.State()), ask);
              && approvalManager.State() == manager
              && id == if reply.Ok? then Some(reply.value.id) else None
    {
      ghost var reply := A.Step(approvalManager.State(), ask);
      A.StepAdvances(approvalManager.State(), ask);
      var res := approvalManager.RequestApproval(ask.decision, ask.binding, ask.identity, ask.created, ask.ttl);
      assert approvalManager.State() == reply.0 && ApprovalManagers.Outcome(res, reply.1);
      hide A.AskStep, A.Step, A.Valid, ApprovalManager.State, ApprovalRequest.View;
      return if res.Ok? then Some(res.value.id) else None;
    }

    /** An escalation: its approval is filed, and pending once it is recorded. */
    method Escalate(request: Request, ask: A.Op, recording: Recording, decisionId: string) returns (next: Pc)
      requires Valid() && request.endpoint == Decisions && ask.Ask? && !shadow && request.key !in completedRequestIds
      modifies `pending, approvalManager
      ensures Valid() && (next.Committing? || next.Persisting?)
      ensures View(next) == Decide(old(View(Reserved(Ticket(Decisions, request)))), Escalated(ask, recording, decisionId))
    {
      ghost var reply := A.Step(approvalManager.State(), ask).1;
      hide A.AskStep, A.Step, A.Valid, ApprovalManager.State;
      var ticket := Ticket(Decisions, request);
      var id := FileApproval(ask);
      assert id.None? <==> reply.Err?;
      if recording.Unrecorded? { return Committing(ticket, Failure(500, "operation_failed")); }
      if id.None? || recording.AsError? { return Committing(ticket, NotExecuted("Block", None)); }
      pending := pending[id.value := decisionId];
      return Persisting(ticket, NotExecuted("Escalate", id));
    }

    /** A reserved decision: `verdict` is what evaluation comes to. */
    method Govern(request: Request, verdict: Verdict) returns (next: Pc)
      requires Valid() && request.endpoint == Decisions && Fits(shadow, verdict)
      modifies `pending, approvalManager
      ensures Valid() && (next.Committing? || next.Persisting? || next.Claiming?)
      ensures View(next) == Decide(old(View(Reserved(Ticket(Decisions, request)))), verdict)
    {
      hide ApprovalManager.State, A.Step, A.Valid;
      var ticket, key := Ticket(Decisions, request), request.key;
      if verdict.NoHandler? { return Committing(ticket, Failure(404, "handler_not_found")); }
      if !shadow && key in completedRequestIds { return Committing(ticket, NotExecuted("Block", None)); }
      match verdict {
        case Escalated(ask, recording, decisionId) =>
          next := Escalate(request, ask, recording, decisionId);
        case Allowed(decisionId) =>
          next := Claiming(ticket, DecisionRun, key, ClaimId(DecisionRun, decisionId), Shown("Allow", None));
        case Observed(decisionId, code, failed) =>
          next := Claiming(ticket, DecisionRun, key, ClaimId(DecisionRun, decisionId), Shown(code, if failed then Some(key) else None));
        case Unauthenticated => next := Committing(ticket, Failure(401, "authentication_failed"));
        case Refused(code) => next := Committing(ticket, NotExecuted(code, None));
        case _ => next := Committing(ticket, Failure(500, "operation_failed"));
      }
    }

    /** `_decision`. */
    method Decision(request: Request, verdict: Verdict, h: Handling, f: Faults) returns (given: Response)
      requires Valid() && request.endpoint == Decisions && Fits(shadow, verdict)
      modifies this, approvalManager, repository
      ensures Valid()
      ensures var (t, w, o) := Receive(old(repository.State()), old(View(Idle)), request, f.begin);
              && (!o.Acquired? ==> repository.State() == t && View(Idle) == w && given == Declined(o))
              && (o.Acquired? ==>
                    && (repository.State(), View(Idle)) == Concluded(t, Decide(w, verdict), h, f)
                    && given == Given(t, Decide(w, verdict), Uncertain(), h, f))
    {
      hide ApprovalManager.State, A.Valid, Receive, Concluded, Decide, Given;
      Received(repository.State(), View(Idle), request, f.begin);
      var outcome := Enter(request, f.begin);
      if !outcome.Acquired? { return Declined(outcome); }
      var next := Govern(request, verdict);
      given := Continue(next, Uncertain(), h, f);
    }

    /** The part of `_resume` that rechecks and consumes the approval: where the call goes on. */
    method Reconsider(request: Request, seen: real, op: A.Op, approver: bool, recheck: Recheck) returns (next: Pc)
      requires Valid() && request.endpoint == Resumes && op.Resume? && op.id in pending && Suits(shadow, recheck)
      modifies approvalManager.requests.Values
      ensures Valid()
      ensures View(next) == ResumeApproval(old(View(Reserved(Ticket(Resumes, request)))), seen, op, Verified, approver, recheck)
    {
      hide A.LookStep, A.ResumeStep, A.Valid, ApprovalManager.State, ApprovalRequest.View;
      ResumingIsValid(approvalManager.State(), seen, op);
      var ticket, claimId := Ticket(Resumes, request), ClaimId(ApprovalRun, pending[op.id]);
      var found := approvalManager.Get(op.id, Some(seen));
      if found.Err? { return Idle; }
      if !approver { return Committing(Ticket(Decisions, request), Failure(403, "authentication_failed")); }
      if recheck.Raises? { return Persisting(ticket, Failure(500, "operation_failed")); }
      if recheck.Watched? { return Claiming(ticket, ApprovalRun, op.id, claimId, Shown(recheck.code, None)); }
      if recheck.Changed? {
        var _ := approvalManager.Get(op.id, op.now);
        return Persisting(ticket, if recheck.recorded then NotExecuted("Block", Some(op.id)) else Failure(500, "operation_failed"));
      }
      var consumed := approvalManager.PrepareResume(op.id, op.binding, op.now);
      if !recheck.recorded { return Persisting(ticket, Failure(500, "operation_failed")); }
      if consumed.Err? { return Persisting(ticket, NotExecuted("Block", Some(op.id))); }
      return Claiming(ticket, ApprovalRun, op.id, claimId, Shown("Allow", Some(op.id)));
    }

    /** `_resume`. */
    method Resume(request: Request, seen: real, op: A.Op, identity: Identity, approver: bool, recheck: Recheck, h: Handling, f: Faults)
      returns (given: Response)
      requires Valid() && request.endpoint == Resumes && op.Resume? && op.id == request.target && Suits(shadow, recheck)
      modifies `idempotency, `durableUncommitted, `durableStateRevision, `completedRequestIds, `pending
      modifies approvalManager.requests.Values, repository
      ensures Valid()
      ensures var (t, w, o) := Receive(old(repository.State()), old(View(Idle)), request, f.begin);
              && (!o.Acquired? ==> repository.State() == t && View(Idle) == w && given == Declined(o))
              && (o.Acquired? ==>
                    var v := ResumeApproval(w, seen, op, identity, approver, recheck);
                    && (repository.State(), View(Idle)) == Concluded(t, v, h, f)
                    && given == Given(t, v, Abandon(w, op.id, identity), h, f))
    {
      hide ApprovalManager.State, A.Valid, Receive, Concluded, ResumeApproval, Given;
      Received(repository.State(), View(Idle), request, f.begin);
      var outcome := Enter(request, f.begin);
      if !outcome.Acquired? { return Declined(outcome); }
      ghost var w := View(Reserved(Ticket(Resumes, request)));
      Refusing(w, seen, op, identity, approver, recheck);
      var next, early := Idle, Failure(404, "approval_not_found");
      if op.id in pending {
        early := IdentityFailure(identity);
        if identity.Verified? { next := Reconsider(request, seen, op, approver, recheck); }
      }
      given := Continue(next, early, h, f);
    }

    /** The manager's part of `_approval`, and whether an expiry is to be persisted. */
    method ReadRequest(id: string, now: real) returns (res: Result<ApprovalRequest, A.ApprovalError>, expiry: bool)
      requires Valid()
      modifies `expiredApprovals, approvalManager.requests.Values
      ensures Valid()
      ensures ApprovalManagers.Outcome(res, A.LookStep(old(approvalManager.State()), id, Some(now)).1)
      ensures View(if expiry then PersistingExpiry else Idle) == ReadApproval(old(View(Idle)), id, now)
    {
      LookingIsValid(approvalManager.State(), id, now);
      hide A.LookStep, A.Valid, ApprovalManager.State;
      res := approvalManager.Get(id, Some(now));
      assert res.Ok? ==> res.value.state == res.value.View().state;
      hide ApprovalRequest.View;
      expiry := res.Ok? && res.value.state.Expired? && id !in expiredApprovals;
      if expiry { expiredApprovals := expiredApprovals + {id}; }
    }

    /** `_approval`: the first reading that finds an expired request persists it. */
    method Approval(id: string, now: real, f: Faults)
      returns (res: Result<ApprovalRequest, A.ApprovalError>, failed: Option<Response>)
      requires Valid()
      modifies `expiredApprovals, `durableStateRevision, approvalManager.requests.Values, repository
      ensures Valid()
      ensures ApprovalManagers.Outcome(res, A.LookStep(old(approvalManager.State()), id, Some(now)).1)
      ensures var w := ReadApproval(old(View(Idle)), id, now);
              if w.pc.PersistingExpiry? then (repository.State(), View(Idle)) == Persist(old(repository.State()), w, f.save)
              else repository.State() == old(repository.State()) && View(Idle) == w
      ensures var w, s := ReadApproval(old(View(Idle)), id, now), old(repository.State());
              var saved := Transact(s, f.save, SaveStep(s, PayloadOf(w), w.revision)).1;
              failed == if w.pc.PersistingExpiry? && saved.Err? then Some(StoreFailure(saved.error)) else None
    {
      hide A.LookStep, A.Valid, ApprovalManager.State, ReadApproval;
      var expiry;
      res, expiry := ReadRequest(id, now);
      failed := None;
      if expiry { failed := PersistDurableState(PersistingExpiry, f.save); }
    }
  }
}
