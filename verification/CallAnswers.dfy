/** The answer to every decision, vote and resumption under a new key, over every run, by
    what governance makes of it (governance/service.py). */
module CallAnswers {
  import opened Text
  import opened DurableStore
  import opened DurableWorker
  import opened Protocol
  import opened Service
  import opened ServiceRuns
  import opened Calls
  import opened CallOutcomes
  import PlainApprovals
  import S = ProtocolSafety
  import A = Approval

  function Turned(status: int, code: string): Response { Response(status, None, None, code, Null) }

  // --------------------------------------------------------------- decisions

  /** The key of an enforcing worker's decision was used for an operation that completed. */
  predicate IsRepeated(w: Worker, request: Request) { !w.shadow && request.key in w.completed }

  /** A decision without a handler or by a caller that is not authenticated, a repeated one,
      one that is refused and one whose evaluation fails are answered without an execution. */
  lemma DecisionIsTurnedAway(before: seq<Step>, i: nat, request: Request, verdict: Verdict, h: Handling, f: Faults)
    requires MayCall(Run(before), i, request, Deciding(verdict), f)
    requires IsRepeated(Run(before).workers[i], request) || verdict.NoHandler? || verdict.Unauthenticated? || verdict.Refused? || verdict.Raised?
    ensures var s, t := Run(before), Run(before + CallSteps(i, request, Deciding(verdict), h, f));
            var w := s.workers[i];
            var r := if verdict == NoHandler then Turned(404, "handler_not_found")
                     else if IsRepeated(w, request) then Response(200, Some(false), None, "Block", Null)
                     else match verdict
                          case Unauthenticated => Turned(401, "authentication_failed")
                          case Refused(code) => Response(200, Some(false), None, code, Null)
                          case _ => Turned(500, "operation_failed");
            && A.Valid(w.manager)
            && Comes(s, t, i, request, r, Answer(s.store, w, request, Deciding(verdict), h, f), f, false)
            && NothingRan(s, t) && Left(t.workers[i], w, w.manager, w.pending, w.completed)
  {
    var w := Run(before).workers[i];
    ReachableGrounds(before, i, request, Deciding(verdict), f);
    var v := Decide(Holder(w, request), verdict);
    hide Run, A.Valid, A.Step, CallSteps, Answer, Comes, NothingRan;
    StraightComes(before, i, request, Deciding(verdict), h, f, v.pc.response);
  }

  /** An escalation opens the approval that it asks for: the answer shows its id, under which
      the decision is pending, and the approval state is written. It is a block where the
      manager refuses or only an error could be recorded, and a failure where nothing could. */
  lemma DecisionEscalates(before: seq<Step>, i: nat, request: Request, verdict: Verdict, h: Handling, f: Faults)
    requires MayCall(Run(before), i, request, Deciding(verdict), f) && verdict.Escalated? && !IsRepeated(Run(before).workers[i], request)
    ensures var s, t := Run(before), Run(before + CallSteps(i, request, Deciding(verdict), h, f));
            var w := s.workers[i];
            && A.Valid(w.manager)
            && var (manager, reply) := A.Step(w.manager, verdict.ask);
            var given := Answer(s.store, w, request, Deciding(verdict), h, f);
            && NothingRan(s, t)
            && if verdict.recording == Unrecorded then
                 Comes(s, t, i, request, Turned(500, "operation_failed"), given, f, false) && Left(t.workers[i], w, manager, w.pending, w.completed)
               else if reply.Err? || verdict.recording == AsError then
                 && Comes(s, t, i, request, Response(200, Some(false), None, "Block", Null), given, f, false)
                 && Left(t.workers[i], w, manager, w.pending, w.completed)
               else
                 && reply.value.id == w.manager.prefix + "-" + Pad4(w.manager.nextId)
                 && Comes(s, t, i, request, Response(200, Some(false), Some(reply.value.id), "Escalate", Null), given, f, true)
                 && Left(t.workers[i], w, manager, w.pending[reply.value.id := verdict.decisionId], w.completed)
  {
    var w := Run(before).workers[i];
    ReachableGrounds(before, i, request, Deciding(verdict), f);
    EscalationGoes(w, request, verdict);
    var v := Decide(Holder(w, request), verdict);
    hide Run, A.Valid, A.Step, Decide, CallSteps, Answer, Comes, NothingRan, Pad4;
    StraightComes(before, i, request, Deciding(verdict), h, f, v.pc.response);
  }

  lemma EscalationGoes(w: Worker, request: Request, verdict: Verdict)
    requires var n := Holder(w, request); Holding(n, request) && Sound(w.shadow, request, Deciding(verdict))
    requires verdict.Escalated? && !IsRepeated(w, request)
    ensures var n := Holder(w, request);
            var v := Decide(n, verdict);
            var (manager, reply) := A.Step(w.manager, verdict.ask);
            && (reply.Ok? ==> reply.value.id == w.manager.prefix + "-" + Pad4(w.manager.nextId))
            && v.manager == manager
            && if verdict.recording == Unrecorded then Straight(n, v, request, Turned(500, "operation_failed")) && v.pc.Committing? && v.pending == w.pending
               else if reply.Err? || verdict.recording == AsError then
                 Straight(n, v, request, Response(200, Some(false), None, "Block", Null)) && v.pc.Committing? && v.pending == w.pending
               else
                 && Straight(n, v, request, Response(200, Some(false), Some(reply.value.id), "Escalate", Null)) && v.pc.Persisting?
                 && v.pending == w.pending[reply.value.id := verdict.decisionId]
  {
    var ask := verdict.ask;
    PlainApprovals.AskingInPlainTerms(w.manager, ask.decision, ask.binding, ask.identity, ask.created, ask.ttl);
    hide A.Valid, A.AskStep, Pad4;
  }

  /** A decision that enforcement allows, and any that is only observed, executes under the
      decision's claim; an observed one shows what enforcement would have done. */
  lemma DecisionExecutes(before: seq<Step>, i: nat, request: Request, verdict: Verdict, h: Handling, f: Faults)
    requires MayCall(Run(before), i, request, Deciding(verdict), f) && !IsRepeated(Run(before).workers[i], request)
    requires verdict.Allowed? || verdict.Observed?
    ensures var s, t := Run(before), Run(before + CallSteps(i, request, Deciding(verdict), h, f));
            var w := s.workers[i];
            var shown := if verdict.Allowed? then "Allow" else verdict.code;
            && A.Valid(w.manager) && i in t.workers
            && Executes(s, t, i, request, w.manager, Answer(s.store, w, request, Deciding(verdict), h, f), h, f,
                        DecisionRun, request.key, ClaimId(DecisionRun, verdict.decisionId), shown,
                        if verdict.Observed? && verdict.failed then Some(request.key) else None)
  {
    var w := Run(before).workers[i];
    ReachableGrounds(before, i, request, Deciding(verdict), f);
    hide Run, A.Valid, A.Step, CallSteps, Answer, Executes;
    ExecutionComes(before, i, request, Deciding(verdict), h, f, DecisionRun, request.key, ClaimId(DecisionRun, verdict.decisionId),
                   if verdict.Allowed? then "Allow" else verdict.code, if verdict.Observed? && verdict.failed then Some(request.key) else None);
  }

  /** An idle worker, and a key that is new. */
  ghost predicate IsReady(s: System, i: nat, request: Request, f: Faults) {
    i in s.workers && s.workers[i].pc == Idle && IsNew(s.store, s.workers[i], request, f)
  }

  /** No fault, and a handler that returns a value that can be encoded. */
  predicate GoesWell(h: Handling, f: Faults) {
    && h.returned.Some? && h.serializable
    && f.claim == NoFault && f.settle == NoFault && f.save == NoFault && f.complete == NoFault
  }

  predicate IsUnused(s: Store, claimId: ClaimId) { forall at :: at in s.claims ==> s.claims[at].claimId != claimId }

  /** An execution that goes well. */
  lemma ExecutedWell(s: System, t: System, i: nat, request: Request, manager: A.Manager, given: Response, h: Handling, f: Faults,
                     kind: Kind, key: string, claimId: ClaimId, code: string, approvalId: Option<string>)
    requires i in s.workers && i in t.workers && Executes(s, t, i, request, manager, given, h, f, kind, key, claimId, code, approvalId)
    requires GoesWell(h, f) && CanClaim(s.store, kind, key, claimId, f)
    requires kind == ApprovalRun || approvalId.Some? ==> UpToDate(s.store, s.workers[i])
    ensures var at, record := (kind, key), (request.endpoint, request.key);
            && given == Response(200, Some(true), approvalId, code, h.returned.value)
            && record in t.store.rows && t.store.rows[record] == Complete(request, NormalResponse(given))
            && at in t.store.claims && t.store.claims[at].claimId == claimId && t.store.claims[at].status == Succeeded
            && RunsOf(s, at) == 0 && RunsOf(t, at) == 1
            && t.workers[i].manager == manager
            && (kind == ApprovalRun ==> t.store.state.Some? && t.store.state.value.payload.manager == manager)
  {
    hide CanClaim, NormalResponse, UpToDate;
  }

  /** An allowed decision runs its handler: under a new key and a fresh claim id, and without
      a fault, it is answered as executed with the handler's value, the answer is on record,
      its claim succeeded and its handler was started exactly once. */
  lemma AllowedMeansExecuted(before: seq<Step>, i: nat, request: Request, decisionId: string, h: Handling, f: Faults)
    requires IsReady(Run(before), i, request, f) && !Run(before).workers[i].shadow && request.endpoint == Decisions
    requires request.key !in Run(before).workers[i].completed
    requires GoesWell(h, f) && IsUnused(Run(before).store, ClaimId(DecisionRun, decisionId))
    ensures var s, t := Run(before), Run(before + CallSteps(i, request, Deciding(Allowed(decisionId)), h, f));
            var w, at := s.workers[i], (DecisionRun, request.key);
            && A.Valid(w.manager)
            && var given := Answer(s.store, w, request, Deciding(Allowed(decisionId)), h, f);
            && given == Response(200, Some(true), None, "Allow", h.returned.value)
            && (Decisions, request.key) in t.store.rows && t.store.rows[(Decisions, request.key)] == Complete(request, NormalResponse(given))
            && at in t.store.claims && t.store.claims[at].claimId == ClaimId(DecisionRun, decisionId) && t.store.claims[at].status == Succeeded
            && RunsOf(s, at) == 0 && RunsOf(t, at) == 1
  {
    var s := Run(before);
    ReachableGrounds(before, i, request, Deciding(Allowed(decisionId)), f);
    hide Run, A.Valid, CallSteps, Answer, Sound, NormalResponse;
    var t, claimId := Run(before + CallSteps(i, request, Deciding(Allowed(decisionId)), h, f)), ClaimId(DecisionRun, decisionId);
    assert CanClaim(s.store, DecisionRun, request.key, claimId, f);
    DecisionExecutes(before, i, request, Allowed(decisionId), h, f);
    hide Executes, GoesWell, Grounds, IsNew;
    ExecutedWell(s, t, i, request, s.workers[i].manager, Answer(s.store, s.workers[i], request, Deciding(Allowed(decisionId)), h, f), h, f,
                 DecisionRun, request.key, claimId, "Allow", None);
  }

  // -------------------------------------------------------- votes and resumptions

  /** The caller of a vote or a resumption that goes no further. */
  function Denied(w: Worker, id: string, identity: Identity): Response {
    if id !in w.pending then Turned(404, "approval_not_found")
    else match identity
         case NoVerifier => Turned(500, "authentication_unavailable")
         case NoActor => Turned(401, "authentication_required")
         case NotProven => Turned(401, "authentication_failed")
         case VerifierFailed => Turned(500, "internal_error")
         case Verified => Turned(500, "internal_error")
  }

  /** The reservation is left open, and nothing else happened. */
  ghost predicate LeftOpen(s: System, t: System, i: nat, request: Request, manager: A.Manager)
    requires i in s.workers
  {
    && t.store == s.store.(rows := s.store.rows[(request.endpoint, request.key) := InProgress(request)])
    && i in t.workers && t.workers[i] == s.workers[i].(manager := manager)
  }

  lemma StoppingComes(before: seq<Step>, i: nat, request: Request, call: Call, h: Handling, f: Faults, manager: A.Manager)
    requires MayCall(Run(before), i, request, call, f)
    requires var n := Holder(Run(before).workers[i], request);
             Holding(n, request) && Governs(n, request, call) == n.(pc := Idle, manager := manager)
    ensures var s, t := Run(before), Run(before + CallSteps(i, request, call, h, f));
            && A.Valid(s.workers[i].manager) && LeftOpen(s, t, i, request, manager) && NothingRan(s, t)
            && Answer(s.store, s.workers[i], request, call, h, f) == Early(Holder(s.workers[i], request), request, call)
  {
    var s := Run(before);
    var n := Holder(s.workers[i], request);
    CallGoesOn(before, i, request, call, h, f);
    var u, v := Opened(s.store, request), Governs(n, request, call);
    hide Run, Governs, A.Valid, CallSteps, Sound, Answer, Early;
    Concludes(u, v, h, f);
    Gives(u, v, Early(n, request, call), h, f);
    NothingIsClaimed(before, i, request, call, h, f, v);
    hide Concluded, Given;
  }

  /** Nothing is claimed by a call that goes on to no execution. */
  lemma NothingIsClaimed(before: seq<Step>, i: nat, request: Request, call: Call, h: Handling, f: Faults, v: Worker)
    requires MayCall(Run(before), i, request, call, f) && v.pc.Idle?
    requires var s, t := Run(before), Run(before + CallSteps(i, request, call, h, f));
             Shows(t, i, Concluded(Opened(s.store, request), v, h, f))
    ensures Run(before + CallSteps(i, request, call, h, f)).store.claims == Run(before).store.claims
  {
    hide Run, CallSteps, Sound;
  }

  /** A vote on a pending approval by a verified identity is put to the manager, whose
      state is written; any other leaves its reservation open. */
  lemma VoteComesTo(before: seq<Step>, i: nat, request: Request, op: A.Op, identity: Identity, h: Handling, f: Faults)
    requires MayCall(Run(before), i, request, Voting(op, identity), f)
    ensures var s, t := Run(before), Run(before + CallSteps(i, request, Voting(op, identity), h, f));
            var w := s.workers[i];
            && A.Valid(w.manager)
            && var given := Answer(s.store, w, request, Voting(op, identity), h, f);
            var (manager, reply) := A.Step(w.manager, op);
            && NothingRan(s, t)
            && if request.target in w.pending && identity == Verified then
                 && Comes(s, t, i, request, if reply.Ok? then Turned(200, "voted") else Turned(409, "approval_conflict"), given, f, true)
                 && Left(t.workers[i], w, manager, w.pending, w.completed)
               else LeftOpen(s, t, i, request, w.manager) && given == Denied(w, request.target, identity)
  {
    var w := Run(before).workers[i];
    ReachableGrounds(before, i, request, Voting(op, identity), f);
    var v := Vote(Holder(w, request), op, identity);
    hide Run, A.Valid, A.Step, CallSteps, Answer, Comes, NothingRan, LeftOpen;
    if request.target in w.pending && identity == Verified {
      StraightComes(before, i, request, Voting(op, identity), h, f, v.pc.response);
    } else {
      StoppingComes(before, i, request, Voting(op, identity), h, f, w.manager);
    }
  }

  /** A resumption that names no pending approval that the manager holds, or whose caller is
      not verified, leaves its reservation open. */
  lemma ResumptionStops(before: seq<Step>, i: nat, request: Request, seen: real, op: A.Op, identity: Identity, approver: bool, recheck: Recheck,
                        h: Handling, f: Faults)
    requires MayCall(Run(before), i, request, Resuming(seen, op, identity, approver, recheck), f)
    requires var w := Run(before).workers[i];
             request.target !in w.pending || identity != Verified || request.target !in w.manager.requests
    ensures var call := Resuming(seen, op, identity, approver, recheck);
            var s, t := Run(before), Run(before + CallSteps(i, request, call, h, f));
            var w := s.workers[i];
            && A.Valid(w.manager) && NothingRan(s, t) && LeftOpen(s, t, i, request, w.manager)
            && Answer(s.store, w, request, call, h, f) == Denied(w, request.target, identity)
  {
    var call := Resuming(seen, op, identity, approver, recheck);
    var w := Run(before).workers[i];
    ReachableGrounds(before, i, request, call, f);
    hide Run, A.Valid, CallSteps, Answer, NothingRan, LeftOpen;
    StoppingComes(before, i, request, call, h, f, w.manager);
  }

  /** A resumption of a known approval is heard. */
  predicate IsHeard(w: Worker, request: Request, identity: Identity) {
    request.target in w.pending && identity == Verified && request.target in w.manager.requests
  }

  /** The refusal of a caller whose role the approval does not require is put under the
      decisions' records, in which the request has none: it is told as a store failure. */
  lemma RefusalIsMisfiled(before: seq<Step>, i: nat, request: Request, seen: real, op: A.Op, identity: Identity, recheck: Recheck, h: Handling, f: Faults)
    requires MayCall(Run(before), i, request, Resuming(seen, op, identity, false, recheck), f)
    requires IsHeard(Run(before).workers[i], request, identity)
    ensures var call := Resuming(seen, op, identity, false, recheck);
            var s, t := Run(before), Run(before + CallSteps(i, request, call, h, f));
            var w, at := s.workers[i], (Decisions, request.key);
            && A.Valid(w.manager) && NothingRan(s, t)
            && LeftOpen(Opening(s, i, at, request), t, i, request, A.LookStep(w.manager, request.target, Some(seen)).0)
            && Answer(s.store, w, request, call, h, f)
               == if f.complete != AtBegin && at in s.store.rows then Turned(409, "durable_state_conflict") else Turned(503, "durable_state_unavailable")
  {
    var call := Resuming(seen, op, identity, false, recheck);
    var s := Run(before);
    var n := Holder(s.workers[i], request);
    CallGoesOn(before, i, request, call, h, f);
    var u, v := Opened(s.store, request), Governs(n, request, call);
    hide Run, A.Valid, A.LookStep, CallSteps, Answer, Early;
    assert v == n.(pc := Committing(Ticket(Decisions, request), Turned(403, "authentication_failed")), manager := v.manager);
    Concludes(u, v, h, f);
    Gives(u, v, Early(n, request, call), h, f);
    hide Concluded, Given, ResumeApproval;
    MisfiledEnds(u, v, request, f);
  }

  /** The worker keeps the misfiled refusal. */
  function Opening(s: System, i: nat, at: (Endpoint, string), request: Request): System
    requires i in s.workers
  {
    var w := s.workers[i];
    s.(workers := s.workers[i := w.(uncommitted := w.uncommitted[at := (request, Turned(403, "authentication_failed"))])])
  }

  lemma MisfiledEnds(u: Store, v: Worker, request: Request, f: Faults)
    requires request.endpoint == Resumes && v.pc == Committing(Ticket(Decisions, request), Turned(403, "authentication_failed"))
    requires (Decisions, request.key) in u.rows ==> u.rows[(Decisions, request.key)].request.endpoint == Decisions
    ensures var (t, n) := Commit(u, v, f.complete);
            var at := (Decisions, request.key);
            && t == u && n == v.(pc := Idle, uncommitted := v.uncommitted[at := (request, Turned(403, "authentication_failed"))])
            && CommitReply(u, v.pc.ticket, v.pc.response, f)
               == if f.complete != AtBegin && at in u.rows then Turned(409, "durable_state_conflict") else Turned(503, "durable_state_unavailable")
  {}

  /** The manager once an approver's resumption was looked at and put to it. */
  function Consuming(m: A.Manager, seen: real, op: A.Op): (A.Manager, Result<A.Request, A.ApprovalError>)
    requires op.Resume?
  {
    A.ResumeStep(A.LookStep(m, op.id, Some(seen)).0, op.id, op.binding, op.now)
  }

  /** An approver's resumption that executes nothing: the policy cannot be evaluated, no longer
      escalates, the resumption cannot be recorded, or the manager refuses it. */
  lemma ResumptionIsTurnedAway(before: seq<Step>, i: nat, request: Request, seen: real, op: A.Op, identity: Identity, recheck: Recheck, h: Handling, f: Faults)
    requires MayCall(Run(before), i, request, Resuming(seen, op, identity, true, recheck), f)
    requires var w := Run(before).workers[i];
             && IsHeard(w, request, identity)
             && (recheck.Raises? || recheck.Changed? || (recheck.StillEscalates? && (!recheck.recorded || Consuming(w.manager, seen, op).1.Err?)))
    ensures var call := Resuming(seen, op, identity, true, recheck);
            var s, t := Run(before), Run(before + CallSteps(i, request, call, h, f));
            var w := s.workers[i];
            var read := A.LookStep(w.manager, op.id, Some(seen)).0;
            var r := if recheck != Raises && recheck.recorded then Response(200, Some(false), Some(request.target), "Block", Null)
                     else Turned(500, "operation_failed");
            && A.Valid(w.manager)
            && Comes(s, t, i, request, r, Answer(s.store, w, request, call, h, f), f, true) && NothingRan(s, t)
            && Left(t.workers[i], w, if recheck.Raises? then read else if recheck.Changed? then A.LookStep(read, op.id, op.now).0
                                     else Consuming(w.manager, seen, op).0, w.pending, w.completed)
  {
    var call := Resuming(seen, op, identity, true, recheck);
    var w := Run(before).workers[i];
    ReachableGrounds(before, i, request, call, f);
    LookingFinds(w.manager, op.id, seen);
    var v := ResumeApproval(Holder(w, request), seen, op, identity, true, recheck);
    hide Run, A.Valid, A.LookStep, A.ResumeStep, CallSteps, Answer, Comes, NothingRan;
    StraightComes(before, i, request, call, h, f, v.pc.response);
  }

  lemma LookingFinds(m: A.Manager, id: string, seen: real)
    requires id in m.requests
    ensures A.LookStep(m, id, Some(seen)).1.Ok?
  {}

  /** A resumption that the policy still escalates to, that is recorded and that the manager
      accepts executes under the approval's claim; so does one that is only observed. */
  lemma ResumptionExecutes(before: seq<Step>, i: nat, request: Request, seen: real, op: A.Op, identity: Identity, recheck: Recheck, h: Handling, f: Faults)
    requires MayCall(Run(before), i, request, Resuming(seen, op, identity, true, recheck), f)
    requires var w := Run(before).workers[i];
             && IsHeard(w, request, identity)
             && (recheck.Watched? || (recheck == StillEscalates(true) && Consuming(w.manager, seen, op).1.Ok?))
    ensures var call := Resuming(seen, op, identity, true, recheck);
            var s, t := Run(before), Run(before + CallSteps(i, request, call, h, f));
            var w := s.workers[i];
            && A.Valid(w.manager) && i in t.workers
            && Executes(s, t, i, request, if recheck.Watched? then A.LookStep(w.manager, op.id, Some(seen)).0 else Consuming(w.manager, seen, op).0,
                        Answer(s.store, w, request, call, h, f), h, f, ApprovalRun, request.target, ClaimId(ApprovalRun, w.pending[request.target]),
                        if recheck.Watched? then recheck.code else "Allow", if recheck.Watched? then None else Some(request.target))
  {
    var call := Resuming(seen, op, identity, true, recheck);
    var w := Run(before).workers[i];
    ReachableGrounds(before, i, request, call, f);
    LookingFinds(w.manager, op.id, seen);
    hide Run, A.Valid, A.LookStep, A.ResumeStep, CallSteps, Answer, Executes;
    ExecutionComes(before, i, request, call, h, f, ApprovalRun, request.target, ClaimId(ApprovalRun, w.pending[request.target]),
                   if recheck.Watched? then recheck.code else "Allow", if recheck.Watched? then None else Some(request.target));
  }

  /** Approved, unused, before its deadline at both times, and under the bindings that it
      was opened with. */
  predicate IsUsable(r: A.Request, seen: real, op: A.Op)
    requires op.Resume?
  {
    && r.state == A.Approved && !r.consumed && seen < r.expiresAt && PlainApprovals.TimeOf(r, op.now) < r.expiresAt
    && r.binding.action == op.binding.action && r.binding.context == op.binding.context && r.binding.policy == op.binding.policy
    && r.binding.state == op.binding.state
  }

  lemma UsableIsConsumed(m: A.Manager, seen: real, op: A.Op)
    requires A.Valid(m) && op.Resume? && op.id in m.requests && IsUsable(m.requests[op.id], seen, op)
    ensures var (n, reply) := Consuming(m, seen, op);
            reply.Ok? && op.id in n.requests && n.requests[op.id] == m.requests[op.id].(consumed := true)
  {
    var read := A.LookStep(m, op.id, Some(seen)).0;
    PlainApprovals.ReadingInPlainTerms(m, op.id, Some(seen));
    LookingIsValid(m, op.id, seen);
    PlainApprovals.ResumptionInPlainTerms(read, op.id, op.binding, op.now);
    hide A.Valid, A.LookStep, A.ResumeStep;
    assert read.requests[op.id] == m.requests[op.id];
  }

  /** An approved request runs its handler once it is resumed: by a verified approver, under a
      new key, while the policy still escalates and the resumption is recorded, on an unclaimed
      approval and without a fault it is answered as executed with the handler's value, its
      claim succeeded, its handler was started once and the approval is used up, also on record. */
  lemma ApprovedMeansExecuted(before: seq<Step>, i: nat, request: Request, seen: real, op: A.Op, h: Handling, f: Faults)
    requires IsReady(Run(before), i, request, f) && !Run(before).workers[i].shadow
    requires request.endpoint == Resumes && op.Resume? && op.id == request.target
    requires var s := Run(before);
             var w := s.workers[i];
             && IsHeard(w, request, Verified) && IsUsable(w.manager.requests[request.target], seen, op) && UpToDate(s.store, w)
             && GoesWell(h, f) && (ApprovalRun, request.target) !in s.store.claims && IsUnused(s.store, ClaimId(ApprovalRun, w.pending[request.target]))
    ensures var call := Resuming(seen, op, Verified, true, StillEscalates(true));
            var s, t := Run(before), Run(before + CallSteps(i, request, call, h, f));
            var w, at := s.workers[i], (ApprovalRun, request.target);
            && A.Valid(w.manager) && i in t.workers
            && var given := Answer(s.store, w, request, call, h, f);
            && given == Response(200, Some(true), Some(request.target), "Allow", h.returned.value)
            && (Resumes, request.key) in t.store.rows && t.store.rows[(Resumes, request.key)] == Complete(request, NormalResponse(given))
            && at in t.store.claims && t.store.claims[at].status == Succeeded
            && RunsOf(s, at) == 0 && RunsOf(t, at) == 1
            && IsUsedUp(t, i, request.target, w.manager.requests[request.target])
  {
    var call := Resuming(seen, op, Verified, true, StillEscalates(true));
    var s := Run(before);
    var w := s.workers[i];
    ReachableGrounds(before, i, request, call, f);
    UsableIsConsumed(w.manager, seen, op);
    hide Run, A.Valid, CallSteps, Answer, Sound, NormalResponse, Consuming;
    var t, claimId := Run(before + CallSteps(i, request, call, h, f)), ClaimId(ApprovalRun, w.pending[request.target]);
    assert CanClaim(s.store, ApprovalRun, request.target, claimId, f);
    ResumptionExecutes(before, i, request, seen, op, Verified, StillEscalates(true), h, f);
    hide Executes, GoesWell, Grounds, IsNew, IsUsable, UpToDate;
    ExecutedWell(s, t, i, request, Consuming(w.manager, seen, op).0, Answer(s.store, w, request, call, h, f), h, f,
                 ApprovalRun, request.target, claimId, "Allow", Some(request.target));
  }

  /** The approval is used up for the worker and on record. */
  predicate IsUsedUp(t: System, i: nat, id: string, was: A.Request) {
    && i in t.workers && id in t.workers[i].manager.requests && t.workers[i].manager.requests[id] == was.(consumed := true)
    && t.store.state.Some? && t.store.state.value.payload.manager == t.workers[i].manager
  }

  // ------------------------------------------------- readings, restarts, operators

  /** Reading an approval: its first reading after it expired writes the approval state, and
      no reading changes anything else. */
  lemma ReadingComesTo(before: seq<Step>, i: nat, id: string, now: real, fault: Fault)
    requires i in Run(before).workers && Run(before).workers[i].pc == Idle
    ensures var s, t := Run(before), Run(before + [ReadStep(i, id, now), PersistStep(i, fault)]);
            var w := s.workers[i];
            var (manager, reply) := A.LookStep(w.manager, id, Some(now));
            var expiry := reply.Ok? && reply.value.state == A.Expired && id !in w.announced;
            var saved := expiry && fault == NoFault && UpToDate(s.store, w);
            && t.store == s.store.(state := if saved then Some(StateRow(NextRevision(s.store), Payload(manager, w.pending))) else s.store.state)
            && i in t.workers
            && t.workers[i] == w.(manager := manager, announced := if expiry then w.announced + {id} else w.announced,
                                  revision := if saved then Some(NextRevision(s.store)) else w.revision)
  {
    var s := Run(before);
    S.ReachableIsSafe(before);
    StoreIsSound(s, id);
    RevisionIsPositive(s, i);
    var first, second := ReadStep(i, id, now), PersistStep(i, fault);
    ReadingIsPlayed(before, first, second);
    hide Run, Inv, A.LookStep, Next, Persist;
    ReadingIsNext(s, i, id, now);
    var r := Next(s, first);
    WritingIsNext(r, i, fault);
    if r.workers[i].pc.PersistingExpiry? { ExpiryPersists(r.store, r.workers[i], fault); }
  }

  lemma ReadingIsNext(s: System, i: nat, id: string, now: real)
    requires i in s.workers && s.workers[i].pc == Idle
    ensures Next(s, ReadStep(i, id, now)) == s.(workers := s.workers[i := ReadApproval(s.workers[i], id, now)])
  {
    hide ReadApproval;
  }

  lemma WritingIsNext(s: System, i: nat, fault: Fault)
    requires i in s.workers && !s.workers[i].pc.Persisting?
    ensures var t := Next(s, PersistStep(i, fault));
            if s.workers[i].pc.PersistingExpiry? then Shows(t, i, Persist(s.store, s.workers[i], fault)) else t == s
  {
    hide Persist;
  }

  lemma ReadingIsPlayed(before: seq<Step>, first: Step, second: Step)
    ensures Run(before + [first, second]) == Next(Next(Run(before), first), second)
  {
    hide Next;
    assert (before + [first, second])[..|before| + 1] == before + [first] && (before + [first])[..|before|] == before;
  }

  lemma ExpiryPersists(s: Store, w: Worker, fault: Fault)
    requires w.pc.PersistingExpiry?
    requires (s.state.Some? ==> s.state.value.revision >= 1) && (w.revision.Some? ==> w.revision.value >= 1)
    ensures var saved := fault == NoFault && UpToDate(s, w);
            Persist(s, w, fault) == (s.(state := if saved then Some(StateRow(NextRevision(s), Payload(w.manager, w.pending))) else s.state),
                                     w.(pc := Idle, revision := if saved then Some(NextRevision(s)) else w.revision))
  {}

  /** A worker that starts is idle, remembers no key, is up to date with the record, and holds
      what is on it: its requests, and the approvals whose handlers it still has. */
  lemma RestartComesTo(before: seq<Step>, i: nat, shadow: bool, manager: A.Manager, kept: set<string>)
    requires CanStart(Run(before), i, manager)
    ensures var s, t := Run(before), Run(before + [StartStep(i, shadow, manager, kept)]);
            && t == s.(workers := t.workers) && t.workers.Keys == s.workers.Keys + {i} && (forall j :: j in s.workers ==> t.workers[j] == s.workers[j])
            && var w := t.workers[i];
            && w.pc == Idle && w.shadow == shadow && w.cache == map[] && w.uncommitted == map[] && w.completed == {} && w.announced == {}
            && UpToDate(s.store, w)
            && match s.store.state
               case None => w.pending == map[] && w.manager.requests == map[]
               case Some(row) =>
                 && (forall id :: id in w.pending <==> id in row.payload.pending && id in kept)
                 && (forall id :: id in w.pending ==> w.pending[id] == row.payload.pending[id])
                 && w.manager.nextId == row.payload.manager.nextId && w.manager.requests.Keys == row.payload.manager.requests.Keys
                 && forall id :: id in w.manager.requests ==> SameButOrder(row.payload.manager.requests[id], w.manager.requests[id])
  {
    var step := StartStep(i, shadow, manager, kept);
    assert (before + [step])[..|before|] == before;
    var s := Run(before);
    hide Run, A.Valid, A.SameUpToReferenceOrder, SameButOrder;
    StartingIsNext(s, i, shadow, manager, kept);
    hide Next;
    if s.store.state.Some? {
      var m := s.store.state.value.payload.manager;
      forall id | id in m.requests ensures SameButOrder(m.requests[id], manager.requests[id]) {
        assert A.SameUpToReferenceOrder(m.requests[id], manager.requests[id]);
        SameOrder(m.requests[id], manager.requests[id]);
      }
    }
  }

  lemma StartingIsNext(s: System, i: nat, shadow: bool, manager: A.Manager, kept: set<string>)
    requires CanStart(s, i, manager)
    ensures Next(s, StartStep(i, shadow, manager, kept)) == DoStart(s, i, shadow, manager, kept)
  {
    hide CanStart, DoStart;
  }

  lemma SameOrder(q: A.Request, r: A.Request)
    requires A.SameUpToReferenceOrder(q, r)
    ensures SameButOrder(q, r)
  {}

  /** The same request, with its voters' references in any order. */
  ghost predicate SameButOrder(q: A.Request, r: A.Request) {
    && r == q.(voteIdentities := r.voteIdentities)
    && forall v :: v in r.voteIdentities <==> v in q.voteIdentities
  }

  /** An operator settles an open claim as unknown, and nothing else. */
  lemma ReconciliationComesTo(before: seq<Step>, kind: Kind, key: string, reason: string, fault: Fault)
    ensures var s, t := Run(before), Run(before + [ReconcileStep(kind, key, reason, fault)]);
            var at := (kind, key);
            if at in s.store.claims && s.store.claims[at].status == Claimed && fault == NoFault then
              t == s.(store := s.store.(claims := s.store.claims[at := ClaimRow(s.store.claims[at].claimId, Unknown, Normal(Object(map["reason" := Str(reason)])))]))
            else t == s
  {
    var step := ReconcileStep(kind, key, reason, fault);
    assert (before + [step])[..|before|] == before;
    var s := Run(before);
    assert Next(s, step) == DoReconcile(s, kind, key, reason, fault);
    hide Run;
  }
}
