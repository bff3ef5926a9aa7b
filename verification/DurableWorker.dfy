/** One service worker over the durable store (governance/service.py), cut at its
    store transactions: between two steps any other worker may act. */
module DurableWorker {
  import opened Text
  import opened DurableStore
  import A = Approval

  /** Where a response is to be stored: a request, under a namespace. */
  datatype Ticket = Ticket(scope: Endpoint, request: Request)

  /** What the response of an execution shows: the decision, and an approval id. */
  datatype Shown = Shown(code: string, approvalId: Option<string>)

  /** What the request in hand is about to do next. */
  datatype Pc =
    | Idle
    | Reserved(ticket: Ticket)
    | Claiming(ticket: Ticket, kind: Kind, key: string, claimId: ClaimId, shown: Shown)
    | Running(ticket: Ticket, kind: Kind, key: string, claimId: ClaimId, shown: Shown)
    | Finishing(ticket: Ticket, kind: Kind, key: string, claimId: ClaimId, shown: Shown, returned: Option<Json>)
    | Persisting(ticket: Ticket, response: Response)
    | Committing(ticket: Ticket, response: Response)
    | PersistingExpiry

  /** `shadow` is the mode of the process's interceptor: it observes and enforces nothing. */
  datatype Worker = Worker(
    shadow: bool,
    pc: Pc,
    cache: map<string, (Request, Response)>,
    uncommitted: map<(Endpoint, string), (Request, Response)>,
    revision: Option<int>,
    manager: A.Manager,
    pending: map<string, string>,
    completed: set<string>,
    announced: set<string>)

  // ------------------------------------------------------------- responses

  function Failure(status: int, code: string): Response { Response(status, None, None, code, Null) }

  function NotExecuted(code: string, approval: Option<string>): Response {
    Response(200, Some(false), approval, code, Null)
  }

  function Executed(value: Json, shown: Shown): Response {
    Response(200, Some(true), shown.approvalId, shown.code, value)
  }

  function Uncertain(): Response { Failure(500, "operation_uncertain") }

  // --------------------------------------------------- receiving a request

  datatype Outcome =
    | Replayed(response: Response)  // the recorded answer
    | KeyConflict                   // the key was used for a different request
    | NotCommitted(error: StoreError)  // a kept answer could still not be committed
    | StoreDown                     // no reservation could be made
    | InFlight                      // the reservation is held elsewhere, or was lost
    | OutcomeUnknown                // the same, of a decision whose handler's claim is settled
    | Acquired                      // this worker now owns the request

  /** `_idempotent` and `_reserve_durable`: the local cache, then an answer kept
      from a failed commit, then the store. */
  function Receive(s: Store, w: Worker, request: Request, fault: Fault): (Store, Worker, Outcome) {
    var at := (request.endpoint, request.key);
    if request.key in w.cache then
      if w.cache[request.key].0 != request then (s, w, KeyConflict)
      else (s, w, Replayed(w.cache[request.key].1))
    else if at in w.uncommitted then
      if w.uncommitted[at].0 != request then (s, w, KeyConflict)
      else
        var kept := w.uncommitted[at].1;
        var (t, done) := Transact(s, fault, CompleteStep(s, request.endpoint, request, kept));
        if done.Err? then (t, w, NotCommitted(done.error))
        else (t, w.(uncommitted := w.uncommitted - {at}, cache := w.cache[request.key := (request, kept)]), Replayed(kept))
    else
      var (t, begun) := Transact(s, fault, BeginStep(s, request));
      match begun
      case Err(Conflict) => (t, w, KeyConflict)
      case Err(Unavailable) => (t, w, StoreDown)
      case Ok(reservation) =>
        if reservation.row.Complete? then
          (t, w.(cache := w.cache[request.key := (request, reservation.row.response)]), Replayed(reservation.row.response))
        else if reservation.acquired then
          (t, w.(pc := Reserved(Ticket(request.endpoint, request))), Acquired)
        else (t, w, if request.endpoint.Decisions? && IsSettled(t, request.key) then OutcomeUnknown else InFlight)
  }

  // ---------------------------------------------------- governing a request

  /** How the audit log takes an escalation: as one, as a governance error instead, or not at all. */
  datatype Recording = AsEscalation | AsError | Unrecorded

  /** What evaluation of a reserved decision comes to. */
  datatype Verdict =
    | NoHandler
    | Unauthenticated
    | Refused(code: string)                          // not allowed, or governance failed
    | Raised                                         // evaluation or its audit record failed twice
    | Escalated(ask: A.Op, recording: Recording, decisionId: string)
    | Allowed(decisionId: string)
    | Observed(decisionId: string, code: string, failed: bool)  // shadow mode runs the operation all the same

  /** An interceptor in shadow mode refuses, escalates and permits nothing. */
  predicate Fits(shadow: bool, verdict: Verdict) {
    match verdict
    case Refused(_) => !shadow
    case Escalated(ask, _, _) => !shadow && ask.Ask?
    case Allowed(_) => !shadow
    case Observed(_, _, _) => shadow
    case _ => true
  }

  /** The part of `_decision` from evaluation to the next store access. */
  function Decide(w: Worker, verdict: Verdict): Worker
    requires w.pc.Reserved? && w.pc.ticket.scope == Decisions
    requires A.Valid(w.manager) && Fits(w.shadow, verdict)
  {
    var ticket := w.pc.ticket;
    var key := ticket.request.key;
    if verdict.NoHandler? then w.(pc := Committing(ticket, Failure(404, "handler_not_found")))
    else if !w.shadow && key in w.completed then w.(pc := Committing(ticket, NotExecuted("Block", None)))
    else
      match verdict
      case Unauthenticated => w.(pc := Committing(ticket, Failure(401, "authentication_failed")))
      case Refused(code) => w.(pc := Committing(ticket, NotExecuted(code, None)))
      case Raised => w.(pc := Committing(ticket, Failure(500, "operation_failed")))
      case Escalated(ask, recording, decisionId) =>
        var (manager, reply) := A.Step(w.manager, ask);
        if recording.Unrecorded? then w.(manager := manager, pc := Committing(ticket, Failure(500, "operation_failed")))
        else if reply.Err? || recording.AsError? then w.(manager := manager, pc := Committing(ticket, NotExecuted("Block", None)))
        else
          w.(manager := manager, pending := w.pending[reply.value.id := decisionId],
             pc := Persisting(ticket, NotExecuted("Escalate", Some(reply.value.id))))
      case Allowed(decisionId) =>
        w.(pc := Claiming(ticket, DecisionRun, key, ClaimId(DecisionRun, decisionId), Shown("Allow", None)))
      case Observed(decisionId, code, failed) =>
        w.(pc := Claiming(ticket, DecisionRun, key, ClaimId(DecisionRun, decisionId), Shown(code, if failed then Some(key) else None)))
      case NoHandler => w
  }

  // -------------------------------------------------------- running a handler

  /** Where an execution returns to: a decision commits, a resumption persists first,
      and so does a decision whose response shows an approval, which is then pending. */
  function AfterRun(w: Worker, response: Response): Worker
    requires w.pc.Claiming? || w.pc.Finishing?
  {
    var ticket, claimId := w.pc.ticket, w.pc.claimId;
    if w.pc.kind.ApprovalRun? then w.(pc := Persisting(ticket, response))
    else if response.status == 200 && response.approvalId.Some? then
      w.(pending := w.pending[response.approvalId.value := claimId.decisionId], pc := Persisting(ticket, response))
    else w.(pc := Committing(ticket, response))
  }

  /** The claim of `_durable_operation`: the handler may start only when it is acquired. */
  function ClaimRun(s: Store, w: Worker, fault: Fault): (Store, Worker)
    requires w.pc.Claiming?
  {
    var (t, claim) := Transact(s, fault, ClaimStep(s, w.pc.kind, w.pc.key, w.pc.claimId));
    if claim.Ok? && claim.value.acquired then (t, w.(pc := Running(w.pc.ticket, w.pc.kind, w.pc.key, w.pc.claimId, w.pc.shown)))
    else (t, AfterRun(w, Uncertain()))
  }

  /** The handler returns a value, or raises. */
  function RunHandler(w: Worker, returned: Option<Json>): Worker
    requires w.pc.Running?
  {
    w.(pc := Finishing(w.pc.ticket, w.pc.kind, w.pc.key, w.pc.claimId, w.pc.shown, returned))
  }

  function RaisedOutcome(): Json { Object(map["reason" := Str("handler raised after execution claim")]) }

  function SucceededOutcome(): Json { Object(map["status" := Str("succeeded")]) }

  /** The settlement of `_durable_operation` and the response built from it. */
  function Finish(s: Store, w: Worker, fault: Fault, serializable: bool): (Store, Worker)
    requires w.pc.Finishing?
  {
    match w.pc.returned
    case None =>
      var t := Transact(s, fault, SettleStep(s, w.pc.kind, w.pc.key, w.pc.claimId, Unknown, RaisedOutcome())).0;
      (t, AfterRun(w, Uncertain()))
    case Some(value) =>
      var (t, settled) := Transact(s, fault, SettleStep(s, w.pc.kind, w.pc.key, w.pc.claimId, Succeeded, SucceededOutcome()));
      if settled.Err? then (t, AfterRun(w, Uncertain()))
      else
        var done := if w.pc.kind.DecisionRun? && !w.shadow then w.(completed := w.completed + {w.pc.key}) else w;
        (t, AfterRun(done, if serializable then Executed(value, w.pc.shown) else Failure(500, "non_serializable_result")))
  }

  /** Every answer after an execution is persisted or committed under its own ticket. */
  lemma Afterwards(w: Worker)
    requires w.pc.Claiming? || w.pc.Finishing?
    ensures forall r: Response {:trigger AfterRun(w, r)} ::
              var n := AfterRun(w, r);
              && n == w.(pc := n.pc, pending := n.pending)
              && (n.pc.Persisting? || (n.pc.Committing? && w.pc.kind.DecisionRun?))
              && n.pc.ticket == w.pc.ticket && n.pc.response == r
  {}

  lemma ClaimsLeave(s: Store, fault: Fault, kind: Kind, key: string, claimId: ClaimId, status: ClaimStatus, outcome: Json)
    ensures var t := Transact(s, fault, ClaimStep(s, kind, key, claimId)).0; t.rows == s.rows && t.state == s.state
    ensures var t := Transact(s, fault, SettleStep(s, kind, key, claimId, status, outcome)).0; t.rows == s.rows && t.state == s.state
  {}

  /** Finishing an execution leaves the records and the state, and goes on to its answer. */
  lemma FinishLeaves(s: Store, w: Worker, fault: Fault, serializable: bool)
    requires w.pc.Finishing?
    ensures var (t, n) := Finish(s, w, fault, serializable);
            && t.rows == s.rows && t.state == s.state
            && n == w.(pc := n.pc, pending := n.pending, completed := n.completed)
            && (n.pc.Persisting? || (n.pc.Committing? && w.pc.kind.DecisionRun?)) && n.pc.ticket == w.pc.ticket
  {
    ClaimsLeave(s, fault, w.pc.kind, w.pc.key, w.pc.claimId, Unknown, RaisedOutcome());
    ClaimsLeave(s, fault, w.pc.kind, w.pc.key, w.pc.claimId, Succeeded, SucceededOutcome());
    Afterwards(w);
    Afterwards(w.(completed := w.completed + {w.pc.key}));
    hide SettleStep, ClaimStep, Transact, RaisedOutcome, SucceededOutcome, AfterRun;
  }

  // ------------------------------------------------- persisting and committing

  function PayloadOf(w: Worker): Payload { Payload(w.manager, w.pending) }

  /** `_persist_durable_state`; a failure ends the request with its row unfinished. */
  function Persist(s: Store, w: Worker, fault: Fault): (Store, Worker)
    requires w.pc.Persisting? || w.pc.PersistingExpiry?
  {
    var (t, saved) := Transact(s, fault, SaveStep(s, PayloadOf(w), w.revision));
    if saved.Err? then (t, w.(pc := Idle))
    else
      (t, w.(revision := Some(saved.value),
             pc := if w.pc.Persisting? then Committing(w.pc.ticket, w.pc.response) else Idle))
  }

  /** `_store_idempotent`: cached only once committed, otherwise kept for a retry. */
  function Commit(s: Store, w: Worker, fault: Fault): (Store, Worker)
    requires w.pc.Committing?
  {
    var ticket, response := w.pc.ticket, w.pc.response;
    var at := (ticket.scope, ticket.request.key);
    var (t, done) := Transact(s, fault, CompleteStep(s, ticket.scope, ticket.request, response));
    if done.Err? then (t, w.(pc := Idle, uncommitted := w.uncommitted[at := (ticket.request, response)]))
    else
      (t, w.(pc := Idle, cache := w.cache[ticket.request.key := (ticket.request, response)],
             uncommitted := w.uncommitted - {at}))
  }

  // ----------------------------------------------------- votes and resumption

  /** What the identity verifier makes of the caller of a vote or of a resumption. */
  datatype Identity = Verified | NoVerifier | NoActor | NotProven | VerifierFailed

  function IdentityFailure(identity: Identity): Response {
    match identity
    case NoVerifier => Failure(500, "authentication_unavailable")
    case NoActor => Failure(401, "authentication_required")
    case NotProven => Failure(401, "authentication_failed")
    case _ => Failure(500, "internal_error")
  }

  /** The part of `_vote` between reservation and persistence. */
  function Vote(w: Worker, op: A.Op, identity: Identity): Worker
    requires w.pc.Reserved? && w.pc.ticket.scope == Votes
    requires A.Valid(w.manager) && (op.Approve? || op.Deny?)
  {
    if op.id !in w.pending || !identity.Verified? then w.(pc := Idle)
    else
      var (manager, reply) := A.Step(w.manager, op);
      w.(manager := manager,
         pc := Persisting(w.pc.ticket, if reply.Ok? then Response(200, None, None, "voted", Null) else Failure(409, "approval_conflict")))
  }

  /** What the policy says when an approved request is resumed, and whether the
      resumption could be recorded; in shadow mode only what it says is shown. */
  datatype Recheck = Raises | Changed(recorded: bool) | StillEscalates(recorded: bool) | Watched(code: string)

  predicate Suits(shadow: bool, recheck: Recheck) {
    if shadow then recheck.Raises? || recheck.Watched? else !recheck.Watched?
  }

  /** The part of `_resume` between reservation and the next store access: the
      approver is checked at `seen`, the approval is consumed at the time of `op`
      unless in shadow mode. An identity that is no approver is answered under the
      decisions namespace. */
  function ResumeApproval(w: Worker, seen: real, op: A.Op, identity: Identity, approver: bool, recheck: Recheck): Worker
    requires w.pc.Reserved? && w.pc.ticket.scope == Resumes
    requires A.Valid(w.manager) && op.Resume? && Suits(w.shadow, recheck)
  {
    var ticket := w.pc.ticket;
    if op.id !in w.pending || !identity.Verified? then w.(pc := Idle)
    else
      var (read, found) := A.LookStep(w.manager, op.id, Some(seen));
      var claimId := ClaimId(ApprovalRun, w.pending[op.id]);
      if found.Err? then w.(manager := read, pc := Idle)
      else if !approver then
        w.(manager := read, pc := Committing(Ticket(Decisions, ticket.request), Failure(403, "authentication_failed")))
      else
        match recheck
        case Raises => w.(manager := read, pc := Persisting(ticket, Failure(500, "operation_failed")))
        case Changed(recorded) =>
          w.(manager := A.LookStep(read, op.id, op.now).0,
             pc := Persisting(ticket, if recorded then NotExecuted("Block", Some(op.id)) else Failure(500, "operation_failed")))
        case StillEscalates(recorded) =>
          var (manager, reply) := A.ResumeStep(read, op.id, op.binding, op.now);
          if !recorded then w.(manager := manager, pc := Persisting(ticket, Failure(500, "operation_failed")))
          else if reply.Err? then w.(manager := manager, pc := Persisting(ticket, NotExecuted("Block", Some(op.id))))
          else w.(manager := manager, pc := Claiming(ticket, ApprovalRun, op.id, claimId, Shown("Allow", Some(op.id))))
        case Watched(code) =>
          w.(manager := read, pc := Claiming(ticket, ApprovalRun, op.id, claimId, Shown(code, None)))
  }

  /** `_approval`: reading a request persists its expiry the first time it is seen. */
  function ReadApproval(w: Worker, id: string, now: real): Worker
    requires w.pc.Idle?
  {
    var (manager, reply) := A.LookStep(w.manager, id, Some(now));
    if reply.Ok? && reply.value.state.Expired? && id !in w.announced then
      w.(manager := manager, announced := w.announced + {id}, pc := PersistingExpiry)
    else w.(manager := manager)
  }
}
