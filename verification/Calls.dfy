/** What a whole call comes to: when its request is answered, when its reservation is
    left open for good, and what the client is told. */
module Calls {
  import opened Text
  import opened DurableStore
  import opened DurableWorker
  import opened Protocol
  import opened Service
  import opened ServiceRuns
  import opened OpenRequests
  import S = ProtocolSafety
  import L = ProtocolLaws
  import Approvals = ProtocolApprovals
  import A = Approval

  /** A request at one of the endpoints, with what the world contributes to its call. */
  datatype Call =
    | Deciding(verdict: Verdict)
    | Voting(op: A.Op, identity: Identity)
    | Resuming(seen: real, op: A.Op, identity: Identity, approver: bool, recheck: Recheck)

  predicate Sound(shadow: bool, request: Request, call: Call) {
    match call
    case Deciding(verdict) => request.endpoint == Decisions && Fits(shadow, verdict)
    case Voting(op, _) => request.endpoint == Votes && (op.Approve? || op.Deny?) && op.id == request.target
    case Resuming(_, op, _, _, recheck) =>
      request.endpoint == Resumes && op.Resume? && op.id == request.target && Suits(shadow, recheck)
  }

  function Record(request: Request): (Endpoint, string) { (request.endpoint, request.key) }

  /** The worker has reserved the request. */
  predicate Holding(w: Worker, request: Request) {
    w.pc == Reserved(Ticket(request.endpoint, request)) && A.Valid(w.manager)
  }

  function Governs(w: Worker, request: Request, call: Call): Worker
    requires Holding(w, request) && Sound(w.shadow, request, call)
  {
    match call
    case Deciding(verdict) => Decide(w, verdict)
    case Voting(op, identity) => Vote(w, op, identity)
    case Resuming(seen, op, identity, approver, recheck) => ResumeApproval(w, seen, op, identity, approver, recheck)
  }

  function StepOf(i: nat, call: Call): Step {
    match call
    case Deciding(verdict) => DecideStep(i, verdict)
    case Voting(op, identity) => VoteStep(i, op, identity)
    case Resuming(seen, op, identity, approver, recheck) => Step.ResumeStep(i, seen, op, identity, approver, recheck)
  }

  function CallSteps(i: nat, request: Request, call: Call, h: Handling, f: Faults): seq<Step> {
    [ReceiveStep(i, request, f.begin), StepOf(i, call)] + Conclusion(i, h, f)
  }

  /** Every call is a run of its worker's steps. */
  lemma CallIsARun(before: seq<Step>, i: nat, request: Request, call: Call, h: Handling, f: Faults)
    requires var s := Run(before); i in s.workers && s.workers[i].pc.Idle? && Sound(s.workers[i].shadow, request, call)
    ensures var s := Run(before);
            var t := Run(before + CallSteps(i, request, call, h, f));
            var (u, w, outcome) := Receive(s.store, s.workers[i], request, f.begin);
            && w == s.workers[i].(pc := w.pc, cache := w.cache, uncommitted := w.uncommitted)
            && (!outcome.Acquired? ==> Shows(t, i, (u, w)))
            && (outcome.Acquired? ==> Holding(w, request) && Shows(t, i, Concluded(u, Governs(w, request, call), h, f)))
  {
    hide Run, Receive, Concluded, Decide, Vote, ResumeApproval, A.Valid, Conclusion;
    Received(Run(before).store, Run(before).workers[i], request, f.begin);
    match call
    case Deciding(verdict) => DecisionIsARun(before, i, request, verdict, h, f);
    case Voting(op, identity) => VoteIsARun(before, i, request, op, identity, h, f);
    case Resuming(seen, op, identity, approver, recheck) => ResumeIsARun(before, i, request, seen, op, identity, approver, recheck, h, f);
  }

  // ------------------------------------------------- how the end of a call goes

  /** The worker saw the latest approval state, and the database lets it write the next. */
  predicate Saves(s: Store, w: Worker, f: Faults) {
    f.save.NoFault? && w.revision == (if s.state.Some? then Some(s.state.value.revision) else None)
  }

  /** The record is open, and this worker keeps no other answer for it. */
  predicate Open(s: Store, w: Worker, request: Request) {
    && Record(request) in s.rows && s.rows[Record(request)] == InProgress(request)
    && (Record(request) in w.uncommitted ==> w.uncommitted[Record(request)].0.endpoint != request.endpoint)
    && (s.state.Some? ==> s.state.value.revision >= 1)
  }

  /** The end of a call: its worker is idle, and the record is answered, kept for an
      answer by this worker, or neither. */
  predicate Ends(t: Store, n: Worker, request: Request, answered: bool, kept: bool) {
    && n.pc.Idle? && Record(request) in t.rows && t.rows[Record(request)].request == request
    && (t.rows[Record(request)].Complete? <==> answered)
    && (Answers(n, Record(request)) <==> kept)
  }

  lemma CommitEnds(s: Store, w: Worker, request: Request, f: Faults)
    requires w.pc.Committing? && w.pc.ticket == Ticket(request.endpoint, request) && Open(s, w, request)
    ensures var (t, n) := Commit(s, w, f.complete); Ends(t, n, request, f.complete.NoFault?, !f.complete.NoFault?)
  {}

  lemma SaveEnds(s: Store, w: Worker, request: Request, f: Faults)
    requires w.pc.Persisting? && w.pc.ticket == Ticket(request.endpoint, request) && Open(s, w, request)
    ensures var (t, n) := Saved(s, w, f);
            Ends(t, n, request, Saves(s, w, f) && f.complete.NoFault?, Saves(s, w, f) && !f.complete.NoFault?)
  {
    var (t, n) := Persist(s, w, f.save);
    if n.pc.Committing? {
      assert Open(t, n, request);
      CommitEnds(t, n, request, f);
      hide Commit;
    }
  }

  /** A call that ends without an answer, or that answers under a namespace in which
      its request has no record. */
  lemma NothingEnds(s: Store, w: Worker, request: Request, h: Handling, f: Faults)
    requires Open(s, w, request)
    requires w.pc.Idle? || (w.pc.Committing? && w.pc.ticket == Ticket(Decisions, request) && !request.endpoint.Decisions?)
    requires (Decisions, request.key) in s.rows ==> s.rows[(Decisions, request.key)].request.endpoint.Decisions?
    ensures var (t, n) := Concluded(s, w, h, f); Ends(t, n, request, false, false)
  {}

  /** A point of an execution: its request is open, and `n` is where it goes on. */
  predicate Onward(s: Store, w: Worker, t: Store, n: Worker, request: Request, f: Faults) {
    && n.pc != Idle && HasTicket(n.pc) && n.pc.ticket == Ticket(request.endpoint, request)
    && Open(t, n, request) && (Saves(t, n, f) <==> Saves(s, w, f))
  }

  lemma ClaimingGoesOn(s: Store, w: Worker, request: Request, f: Faults)
    requires w.pc.Claiming? && w.pc.ticket == Ticket(request.endpoint, request) && Open(s, w, request)
    ensures var (t, n) := ClaimRun(s, w, f.claim);
            && Onward(s, w, t, n, request, f)
            && (n.pc.Running? ==> n.pc.kind == w.pc.kind)
            && (!n.pc.Running? ==> if w.pc.kind.ApprovalRun? then n.pc.Persisting? else n.pc.Committing?)
  {}

  lemma FinishingGoesOn(s: Store, w: Worker, request: Request, h: Handling, f: Faults)
    requires w.pc.Finishing? && w.pc.ticket == Ticket(request.endpoint, request) && Open(s, w, request)
    ensures var (t, n) := Finish(s, w, f.settle, h.serializable);
            && Onward(s, w, t, n, request, f)
            && (n.pc.Persisting? || (n.pc.Committing? && w.pc.kind.DecisionRun?))
  {
    FinishLeaves(s, w, f.settle, h.serializable);
    hide Finish;
  }

  /** An execution neither answers its request nor moves approval state. */
  lemma OperatingKeepsOpen(s: Store, w: Worker, request: Request, h: Handling, f: Faults)
    requires w.pc.Claiming? && w.pc.ticket == Ticket(request.endpoint, request) && Open(s, w, request)
    ensures var (t, n) := Operated(s, w, h, f);
            && Onward(s, w, t, n, request, f)
            && (n.pc.Persisting? || (n.pc.Committing? && w.pc.kind.DecisionRun?))
  {
    ClaimingGoesOn(s, w, request, f);
    var (t, n) := ClaimRun(s, w, f.claim);
    hide ClaimRun, Open, Saves, Finish;
    if n.pc.Running? {
      var r := RunHandler(n, h.returned);
      SameRecords(t, n, r, request, f);
      FinishingGoesOn(t, r, request, h, f);
    }
  }

  lemma SameRecords(s: Store, w: Worker, n: Worker, request: Request, f: Faults)
    requires n.uncommitted == w.uncommitted && n.revision == w.revision && Open(s, w, request)
    ensures Open(s, n, request) && (Saves(s, n, f) <==> Saves(s, w, f))
  {}

  lemma ConcludingEnds(s: Store, w: Worker, request: Request, h: Handling, f: Faults)
    requires w.pc.Claiming? || w.pc.Persisting? || w.pc.Committing?
    requires w.pc.ticket == Ticket(request.endpoint, request) && Open(s, w, request)
    ensures var (t, n) := Concluded(s, w, h, f);
            var saved := Operated(s, w, h, f).1.pc.Persisting? ==> Saves(s, w, f);
            Ends(t, n, request, saved && f.complete.NoFault?, saved && !f.complete.NoFault?)
  {
    hide Open, Ends, Saves, ClaimRun, Finish, Persist, Commit;
    if w.pc.Claiming? { OperatingKeepsOpen(s, w, request, h, f); }
    var (t, n) := Operated(s, w, h, f);
    if n.pc.Persisting? { SaveEnds(t, n, request, f); } else { CommitEnds(t, n, request, f); }
  }

  /** What lets a call be answered at all: a vote or a resumption needs a pending
      approval and a verified identity, a resumption also an approval that the manager
      holds and a role that it requires. */
  predicate Heard(w: Worker, request: Request, call: Call) {
    match call
    case Deciding(_) => true
    case Voting(_, identity) => request.target in w.pending && identity.Verified?
    case Resuming(_, _, identity, approver, _) =>
      request.target in w.pending && identity.Verified? && request.target in w.manager.requests && approver
  }

  /** A call that is not heard stops, or misfiles its refusal; any other one goes on. */
  predicate GoesOnIff(w: Worker, n: Worker, request: Request, call: Call) {
    && n == w.(pc := n.pc, manager := n.manager, pending := n.pending)
    && (!Heard(w, request, call) ==>
          n.pc.Idle? || (n.pc.Committing? && n.pc.ticket == Ticket(Decisions, request) && !request.endpoint.Decisions?))
    && (Heard(w, request, call) ==>
          && (n.pc.Claiming? || n.pc.Persisting? || n.pc.Committing?) && n.pc.ticket == Ticket(request.endpoint, request)
          && (n.pc.Claiming? ==> (n.pc.kind.ApprovalRun? <==> call.Resuming?))
          && (n.pc.Committing? ==> call.Deciding?))
  }

  lemma DecidingShape(w: Worker, request: Request, verdict: Verdict)
    requires Holding(w, request) && Sound(w.shadow, request, Deciding(verdict))
    ensures GoesOnIff(w, Decide(w, verdict), request, Deciding(verdict))
  {
    hide A.Valid, A.Step;
  }

  lemma VotingShape(w: Worker, request: Request, op: A.Op, identity: Identity)
    requires Holding(w, request) && Sound(w.shadow, request, Voting(op, identity))
    ensures GoesOnIff(w, Vote(w, op, identity), request, Voting(op, identity))
  {
    hide A.Valid, A.Step;
  }

  lemma ResumingShape(w: Worker, request: Request, seen: real, op: A.Op, identity: Identity, approver: bool, recheck: Recheck)
    requires var call := Resuming(seen, op, identity, approver, recheck); Holding(w, request) && Sound(w.shadow, request, call)
    ensures var call := Resuming(seen, op, identity, approver, recheck);
            GoesOnIff(w, ResumeApproval(w, seen, op, identity, approver, recheck), request, call)
  {
    hide A.Valid, A.ResumeStep;
  }

  lemma GoverningShape(w: Worker, request: Request, call: Call)
    requires Holding(w, request) && Sound(w.shadow, request, call)
    ensures GoesOnIff(w, Governs(w, request, call), request, call)
  {
    hide GoesOnIff, Decide, Vote, ResumeApproval, A.Valid;
    match call
    case Deciding(verdict) => DecidingShape(w, request, verdict);
    case Voting(op, identity) => VotingShape(w, request, op, identity);
    case Resuming(seen, op, identity, approver, recheck) => ResumingShape(w, request, seen, op, identity, approver, recheck);
  }

  /** Exactly when a call is answered: it must be heard, the approval state that it
      changed must be saved, and its answer be committed; when only the last fails the
      answer is kept for a retry, and otherwise the reservation is left behind. */
  lemma CallEnds(s: Store, w: Worker, request: Request, call: Call, h: Handling, f: Faults)
    requires Holding(w, request) && Sound(w.shadow, request, call) && Open(s, w, request)
    requires (Decisions, request.key) in s.rows ==> s.rows[(Decisions, request.key)].request.endpoint.Decisions?
    ensures var v := Governs(w, request, call);
            var (t, n) := Concluded(s, v, h, f);
            var done := Heard(w, request, call) && (!call.Deciding? || Operated(s, v, h, f).1.pc.Persisting? ==> Saves(s, w, f));
            Ends(t, n, request, done && f.complete.NoFault?, done && !f.complete.NoFault?)
  {
    var v := Governs(w, request, call);
    GoverningShape(w, request, call);
    hide Governs, Heard, A.Valid, Ends, ClaimRun, Finish, Persist, Commit;
    assert Open(s, v, request) && (Saves(s, v, f) <==> Saves(s, w, f));
    if Heard(w, request, call) {
      ConcludingEnds(s, v, request, h, f);
      if call.Resuming? && v.pc.Claiming? { OperatingKeepsOpen(s, v, request, h, f); }
      hide Open;
    } else {
      NothingEnds(s, v, request, h, f);
    }
  }

  // --------------------------------------------------- what the client is told

  predicate IsError(r: Response) { r.executed.None? && r.status >= 400 }

  /** The answer to a call that ends without one of its own. */
  function Early(w: Worker, request: Request, call: Call): Response {
    match call
    case Deciding(_) => Uncertain()
    case Voting(_, identity) => Abandon(w, request.target, identity)
    case Resuming(_, _, identity, _, _) => Abandon(w, request.target, identity)
  }

  /** What the client of a call is given. */
  function Answer(s: Store, w: Worker, request: Request, call: Call, h: Handling, f: Faults): Response
    requires w.pc.Idle? && A.Valid(w.manager) && Sound(w.shadow, request, call)
  {
    Received(s, w, request, f.begin);
    var (t, n, outcome) := Receive(s, w, request, f.begin);
    if outcome.Acquired? then Given(t, Governs(n, request, call), Early(n, request, call), h, f) else Declined(outcome)
  }

  /** Either the record holds this response, or the client is told of an error. */
  predicate Told(t: Store, request: Request, given: Response) {
    if Record(request) in t.rows && t.rows[Record(request)].Complete?
    then t.rows[Record(request)] == Complete(request, NormalResponse(given))
    else IsError(given)
  }

  lemma CommitTells(s: Store, w: Worker, request: Request, f: Faults)
    requires w.pc.Committing? && w.pc.ticket == Ticket(request.endpoint, request) && Open(s, w, request)
    ensures Told(Commit(s, w, f.complete).0, request, CommitReply(s, w.pc.ticket, w.pc.response, f))
  {}

  lemma SaveTells(s: Store, w: Worker, request: Request, f: Faults)
    requires w.pc.Persisting? && w.pc.ticket == Ticket(request.endpoint, request) && Open(s, w, request)
    ensures Told(Saved(s, w, f).0, request, SaveReply(s, w, f))
  {
    var (t, n) := Persist(s, w, f.save);
    if n.pc.Committing? {
      assert Open(t, n, request);
      CommitTells(t, n, request, f);
      hide Commit, CommitReply;
    }
  }

  lemma NothingTells(s: Store, w: Worker, request: Request, early: Response, h: Handling, f: Faults)
    requires Open(s, w, request) && IsError(early)
    requires w.pc.Idle? || (w.pc.Committing? && w.pc.ticket == Ticket(Decisions, request) && !request.endpoint.Decisions?)
    requires (Decisions, request.key) in s.rows ==> s.rows[(Decisions, request.key)].request.endpoint.Decisions?
    ensures Told(Concluded(s, w, h, f).0, request, Given(s, w, early, h, f))
  {}

  lemma ConcludingTells(s: Store, w: Worker, request: Request, early: Response, h: Handling, f: Faults)
    requires w.pc.Claiming? || w.pc.Persisting? || w.pc.Committing?
    requires w.pc.ticket == Ticket(request.endpoint, request) && Open(s, w, request)
    ensures Told(Concluded(s, w, h, f).0, request, Given(s, w, early, h, f))
  {
    hide Open, Told, Saves, ClaimRun, Finish, Persist, Commit, CommitReply, SaveReply;
    if w.pc.Claiming? { OperatingKeepsOpen(s, w, request, h, f); }
    var (t, n) := Operated(s, w, h, f);
    if n.pc.Persisting? { SaveTells(t, n, request, f); } else { CommitTells(t, n, request, f); }
  }

  lemma CallTells(s: Store, w: Worker, request: Request, call: Call, h: Handling, f: Faults)
    requires Holding(w, request) && Sound(w.shadow, request, call) && Open(s, w, request)
    requires (Decisions, request.key) in s.rows ==> s.rows[(Decisions, request.key)].request.endpoint.Decisions?
    ensures var v := Governs(w, request, call);
            Told(Concluded(s, v, h, f).0, request, Given(s, v, Early(w, request, call), h, f))
  {
    var v := Governs(w, request, call);
    assert IsError(Early(w, request, call));
    GoverningShape(w, request, call);
    hide Governs, Heard, A.Valid, Told, ClaimRun, Finish, Persist, Commit, Early, IsError;
    assert Open(s, v, request);
    if Heard(w, request, call) {
      ConcludingTells(s, v, request, Early(w, request, call), h, f);
    } else {
      NothingTells(s, v, request, Early(w, request, call), h, f);
    }
  }

  // ------------------------------------------------------------- over the runs

  lemma OwnerStays(s: System, step: Step, at: (Endpoint, string))
    requires at in s.store.rows && at in s.owner
    ensures var t := Next(s, step); at in t.store.rows && at in t.owner && t.owner[at] == s.owner[at]
  {
    L.NextSucceeds(s, step);
    hide ClaimRun, Finish, Persist, Commit, Decide, Vote, ResumeApproval, ReadApproval, A.Valid;
  }

  lemma {:induction false} OwnerPersists(steps: seq<Step>, more: seq<Step>, at: (Endpoint, string))
    requires at in Run(steps).store.rows && at in Run(steps).owner
    ensures var t := Run(steps + more); at in t.store.rows && at in t.owner && t.owner[at] == Run(steps).owner[at]
    decreases |more|
  {
    hide Run, Next;
    if more == [] {
      assert steps + more == steps;
    } else {
      var front, last := more[..|more| - 1], more[|more| - 1];
      OwnerPersists(steps, front, at);
      assert steps + more == steps + front + [last];
      L.RunContinues(steps, front, last);
      OwnerStays(Run(steps + front), last, at);
    }
  }

  /** Whoever may answer an open record is the one who reserved it. */
  lemma AnswererOwns(s: System, i: nat, at: (Endpoint, string))
    requires Inv(s) && i in s.workers && Answers(s.workers[i], at)
    requires at in s.store.rows
    ensures at in s.owner && s.owner[at] == i
  {
    S.Unfolded(s, i);
    var w := s.workers[i];
    hide StoreOk, CacheOk, ManagerOk, Truthful, Holds;
    if at in w.uncommitted && w.uncommitted[at].0.endpoint == at.0 { L.AKept(s, i, w, at); }
  }

  lemma ReceivingOpens(s: Store, w: Worker, request: Request, fault: Fault)
    requires w.pc.Idle? && (s.state.Some? ==> s.state.value.revision >= 1)
    ensures var (t, n, outcome) := Receive(s, w, request, fault);
            outcome.Acquired? ==>
              && Open(t, n, request) && t.state == s.state
              && (forall at :: at in t.rows && at != Record(request) ==> at in s.rows && t.rows[at] == s.rows[at])
  {}

  lemma StoreIsSound(s: System, key: string)
    requires Inv(s)
    ensures s.store.state.Some? ==> s.store.state.value.revision >= 1
    ensures (Decisions, key) in s.store.rows ==> s.store.rows[(Decisions, key)].request.endpoint.Decisions?
  {
    hide WorkerOk, ClaimOk, A.Valid, A.Advances;
    if (Decisions, key) in s.store.rows { assert RowOk(s, (Decisions, key)); }
  }

  /** What a reservation leaves a call to start from. */
  lemma CallStarts(before: seq<Step>, i: nat, request: Request, call: Call, f: Faults)
    requires var s := Run(before); i in s.workers && s.workers[i].pc.Idle? && Sound(s.workers[i].shadow, request, call)
    requires Receive(Run(before).store, Run(before).workers[i], request, f.begin).2.Acquired?
    ensures var s := Run(before);
            var (u, w, _) := Receive(s.store, s.workers[i], request, f.begin);
            && Holding(w, request) && Open(u, w, request)
            && w == s.workers[i].(pc := w.pc, cache := w.cache, uncommitted := w.uncommitted)
            && (Saves(u, w, f) <==> Saves(s.store, s.workers[i], f))
            && ((Decisions, request.key) in u.rows ==> u.rows[(Decisions, request.key)].request.endpoint.Decisions?)
            && var r := Run(before + [ReceiveStep(i, request, f.begin)]);
            && Record(request) in r.store.rows && Record(request) in r.owner && r.owner[Record(request)] == i
  {
    var s := Run(before);
    S.ReachableIsSafe(before);
    StoreIsSound(s, request.key);
    L.AValid(s, i);
    assert before + [ReceiveStep(i, request, f.begin)] == before + [] + [ReceiveStep(i, request, f.begin)] && before + [] == before;
    L.RunContinues(before, [], ReceiveStep(i, request, f.begin));
    hide Run, Inv, A.Valid;
    ReceivingOpens(s.store, s.workers[i], request, f.begin);
    Received(s.store, s.workers[i], request, f.begin);
    hide Receive, Open;
  }

  /** The approval state that the call wrote, if it wrote any, was saved. */
  predicate Kept(u: Store, v: Worker, s: Store, w: Worker, call: Call, h: Handling, f: Faults) {
    !call.Deciding? || Operated(u, v, h, f).1.pc.Persisting? ==> Saves(s, w, f)
  }

  /** A reserved call, over every run: its record is complete afterwards exactly when
      the call was heard, its approval state was saved and its answer committed, and
      the reservation is abandoned exactly when it was not heard or not saved. */
  lemma CallIsAnsweredExactly(before: seq<Step>, i: nat, request: Request, call: Call, h: Handling, f: Faults)
    requires var s := Run(before); i in s.workers && s.workers[i].pc.Idle? && Sound(s.workers[i].shadow, request, call)
    requires Receive(Run(before).store, Run(before).workers[i], request, f.begin).2.Acquired?
    ensures var s, t := Run(before), Run(before + CallSteps(i, request, call, h, f));
            var (u, w, _) := Receive(s.store, s.workers[i], request, f.begin);
            && Holding(w, request)
            && var done := Heard(s.workers[i], request, call) && Kept(u, Governs(w, request, call), s.store, s.workers[i], call, h, f);
            && Record(request) in t.store.rows && t.store.rows[Record(request)].request == request
            && (t.store.rows[Record(request)].Complete? <==> done && f.complete.NoFault?)
            && (Abandoned(t, Record(request)) <==> !done)
  {
    hide Run, Receive, Concluded, Governs, A.Valid, Inv, Open, CallSteps, Conclusion, StepOf, Heard, Saves, Operated, Answers;
    var s, t, at := Run(before), Run(before + CallSteps(i, request, call, h, f)), Record(request);
    CallStarts(before, i, request, call, f);
    CallIsARun(before, i, request, call, h, f);
    CallIsOwned(before, i, request, call, h, f);
    S.ReachableIsSafe(before + CallSteps(i, request, call, h, f));
    var (u, w, _) := Receive(s.store, s.workers[i], request, f.begin);
    SameHearing(s.workers[i], w, request, call);
    CallEnds(u, w, request, call, h, f);
    hide Holding, Sound, Unanswered;
    OwnerAloneAnswers(t, i, at);
  }

  lemma CallIsOwned(before: seq<Step>, i: nat, request: Request, call: Call, h: Handling, f: Faults)
    requires var r := Run(before + [ReceiveStep(i, request, f.begin)]);
             Record(request) in r.store.rows && Record(request) in r.owner && r.owner[Record(request)] == i
    ensures var t := Run(before + CallSteps(i, request, call, h, f));
            Record(request) in t.store.rows && Record(request) in t.owner && t.owner[Record(request)] == i
  {
    hide Run, Conclusion, StepOf;
    var first, rest := [ReceiveStep(i, request, f.begin)], [StepOf(i, call)] + Conclusion(i, h, f);
    assert before + CallSteps(i, request, call, h, f) == before + first + rest;
    OwnerPersists(before + first, rest, Record(request));
  }

  lemma SameHearing(w: Worker, n: Worker, request: Request, call: Call)
    requires n.pending == w.pending && n.manager == w.manager
    ensures Heard(n, request, call) == Heard(w, request, call)
  {}

  lemma OwnerAloneAnswers(t: System, i: nat, at: (Endpoint, string))
    requires Inv(t) && i in t.workers && at in t.store.rows && at in t.owner && t.owner[at] == i
    ensures Unanswered(t, at) <==> !Answers(t.workers[i], at)
  {
    hide Inv, Answers;
    forall j | j in t.workers && j != i ensures !Answers(t.workers[j], at) {
      if Answers(t.workers[j], at) { AnswererOwns(t, j, at); }
    }
  }

  /** A reserved call tells its client what is on record. */
  lemma ReservedIsTold(before: seq<Step>, i: nat, request: Request, call: Call, h: Handling, f: Faults)
    requires var s := Run(before); i in s.workers && s.workers[i].pc.Idle? && Sound(s.workers[i].shadow, request, call)
    requires A.Valid(Run(before).workers[i].manager)
    requires Receive(Run(before).store, Run(before).workers[i], request, f.begin).2.Acquired?
    ensures var s, t := Run(before), Run(before + CallSteps(i, request, call, h, f));
            Told(t.store, request, Answer(s.store, s.workers[i], request, call, h, f))
  {
    hide Run, Receive, Concluded, Governs, A.Valid, Open, CallSteps, Conclusion, Given, Early, Told, Inv;
    var s := Run(before);
    CallIsARun(before, i, request, call, h, f);
    CallStarts(before, i, request, call, f);
    var (u, w, _) := Receive(s.store, s.workers[i], request, f.begin);
    hide Holding;
    CallTells(u, w, request, call, h, f);
  }

  /** A replay is on record. */
  lemma ReplayIsOnRecord(before: seq<Step>, i: nat, request: Request, call: Call, h: Handling, f: Faults)
    requires var s := Run(before); i in s.workers && s.workers[i].pc.Idle? && Sound(s.workers[i].shadow, request, call)
    requires Receive(Run(before).store, Run(before).workers[i], request, f.begin).2.Replayed?
    ensures var s, t := Run(before), Run(before + CallSteps(i, request, call, h, f));
            var response := Receive(s.store, s.workers[i], request, f.begin).2.response;
            && Record(request) in t.store.rows
            && t.store.rows[Record(request)] == Complete(request, NormalResponse(response))
  {
    hide Run, Receive, A.Valid, CallSteps, Given, Inv, StoreOk, UncommittedOk, PcOk, ManagerOk, Concluded, Governs, Holding;
    var s, t := Run(before), Run(before + CallSteps(i, request, call, h, f));
    CallIsARun(before, i, request, call, h, f);
    S.ReachableIsSafe(before + CallSteps(i, request, call, h, f));
    ReplayIsCached(s.store, s.workers[i], request, f.begin);
    S.Unfolded(t, i);
    hide CacheOk;
    L.ACached(t, t.workers[i], request.key);
  }

  /** Every client is told what was committed for its request, or of an error. */
  lemma AnswerIsCommitted(before: seq<Step>, i: nat, request: Request, call: Call, h: Handling, f: Faults)
    requires var s := Run(before); i in s.workers && s.workers[i].pc.Idle? && Sound(s.workers[i].shadow, request, call)
    ensures var s, t := Run(before), Run(before + CallSteps(i, request, call, h, f));
            && A.Valid(s.workers[i].manager)
            && var given := Answer(s.store, s.workers[i], request, call, h, f);
            || IsError(given)
            || (&& Record(request) in t.store.rows
                && t.store.rows[Record(request)] == Complete(request, NormalResponse(given)))
  {
    hide Run, Receive, A.Valid, CallSteps, Given, Inv, Concluded, Governs, Holding, Sound, Early;
    var s := Run(before);
    S.ReachableIsSafe(before);
    L.AValid(s, i);
    var outcome := Receive(s.store, s.workers[i], request, f.begin).2;
    if outcome.Acquired? {
      ReservedIsTold(before, i, request, call, h, f);
    } else if outcome.Replayed? {
      ReplayIsOnRecord(before, i, request, call, h, f);
    }
  }

  lemma ReplayIsCached(s: Store, w: Worker, request: Request, fault: Fault)
    requires Receive(s, w, request, fault).2.Replayed?
    ensures var (_, n, outcome) := Receive(s, w, request, fault);
            request.key in n.cache && n.cache[request.key] == (request, outcome.response)
  {}

  /** A client that is told that its operation was executed can rely on it: the handler
      ran exactly once and its success is on record, in every continuation. */
  lemma ToldExecutedMeansRanOnce(before: seq<Step>, more: seq<Step>, i: nat, request: Request, call: Call, h: Handling, f: Faults)
    requires var s := Run(before); i in s.workers && s.workers[i].pc.Idle? && Sound(s.workers[i].shadow, request, call)
    requires !request.endpoint.Votes? && A.Valid(Run(before).workers[i].manager)
    requires Answer(Run(before).store, Run(before).workers[i], request, call, h, f).executed == Some(true)
    ensures var t := Run(before + CallSteps(i, request, call, h, f) + more);
            var at := if request.endpoint.Decisions? then (DecisionRun, request.key) else (ApprovalRun, request.target);
            RunsOf(t, at) == 1 && at in t.store.claims && t.store.claims[at].status.Succeeded?
  {
    hide Run, Answer, CallSteps, A.Valid;
    AnswerIsCommitted(before, i, request, call, h, f);
    L.ExecutedMeansRanOnce(before + CallSteps(i, request, call, h, f), more, request.endpoint, request.key);
  }

  /** A client that is told that a decision was not executed can rely on it as well. */
  lemma ToldNotExecutedMeansNeverRuns(before: seq<Step>, more: seq<Step>, i: nat, request: Request, verdict: Verdict, h: Handling, f: Faults)
    requires var s := Run(before); i in s.workers && s.workers[i].pc.Idle? && Sound(s.workers[i].shadow, request, Deciding(verdict))
    requires A.Valid(Run(before).workers[i].manager)
    requires Answer(Run(before).store, Run(before).workers[i], request, Deciding(verdict), h, f).executed == Some(false)
    ensures RunsOf(Run(before + CallSteps(i, request, Deciding(verdict), h, f) + more), (DecisionRun, request.key)) == 0
  {
    hide Run, Answer, CallSteps, A.Valid;
    AnswerIsCommitted(before, i, request, Deciding(verdict), h, f);
    L.NotExecutedMeansNeverRuns(before + CallSteps(i, request, Deciding(verdict), h, f), more, request.key);
  }

  /** A reserved call that is not heard, or whose approval state is not saved, is never
      answered: every later attempt, at any worker, is declined and changes nothing. */
  lemma UnheardIsNeverAnswered(before: seq<Step>, more: seq<Step>, i: nat, request: Request, call: Call, h: Handling, f: Faults, j: nat, fault: Fault)
    requires var s := Run(before); i in s.workers && s.workers[i].pc.Idle? && Sound(s.workers[i].shadow, request, call)
    requires Receive(Run(before).store, Run(before).workers[i], request, f.begin).2.Acquired?
    requires !call.Deciding? && !(Heard(Run(before).workers[i], request, call) && Saves(Run(before).store, Run(before).workers[i], f))
    requires var t := Run(before + CallSteps(i, request, call, h, f) + more); j in t.workers && t.workers[j].pc.Idle?
    ensures var t := Run(before + CallSteps(i, request, call, h, f) + more);
            var (u, w, outcome) := Receive(t.store, t.workers[j], request, fault);
            && u == t.store && w == t.workers[j] && !outcome.Acquired? && !outcome.Replayed?
            && (fault.NoFault? && !L.Shadowed(t.workers[j], request) ==> outcome == InFlight)
  {
    hide Run, Receive, Heard, Saves, CallSteps, Abandoned, Governs, Holding;
    CallIsAnsweredExactly(before, i, request, call, h, f);
    AbandonedIsDeclined(before + CallSteps(i, request, call, h, f), more, j, request, fault);
    AbandonedForGood(before + CallSteps(i, request, call, h, f), more, Record(request));
  }

  /** While every worker enforces, a pending approval is one that the manager holds:
      a resumption is heard exactly for a verified identity with a role it requires. */
  lemma EnforcingHears(before: seq<Step>, i: nat, request: Request, seen: real, op: A.Op, identity: Identity, approver: bool, recheck: Recheck)
    requires Approvals.Enforcing(before) && i in Run(before).workers
    ensures var w := Run(before).workers[i];
            Heard(w, request, Resuming(seen, op, identity, approver, recheck))
            <==> request.target in w.pending && identity.Verified? && approver
  {
    hide Run;
    Approvals.PendingIsFiled(before);
    Approvals.FiledAt(Run(before), i);
  }

  /** An enforcing decision writes approval state exactly when its escalation opens an
      approval and is recorded as one. */
  lemma EnforcingSaves(s: Store, w: Worker, request: Request, verdict: Verdict, h: Handling, f: Faults)
    requires Holding(w, request) && Sound(w.shadow, request, Deciding(verdict)) && !w.shadow
    ensures Operated(s, Decide(w, verdict), h, f).1.pc.Persisting?
            <==> verdict.Escalated? && verdict.recording.AsEscalation? && request.key !in w.completed && A.Step(w.manager, verdict.ask).1.Ok?
  {
    hide A.Valid, A.Step, ClaimStep, SettleStep, Transact;
  }

  // ------------------------------------------------------- calls that fail so

  function Smooth(): Faults { Faults(NoFault, NoFault, NoFault, NoFault, NoFault) }

  /** An idle worker that knows nothing of a key reserves it. */
  lemma FreshKeyIsReserved(s: Store, w: Worker, request: Request)
    requires w.pc.Idle? && request.key !in w.cache && w.uncommitted == map[] && Record(request) !in s.rows
    ensures Receive(s, w, request, NoFault).2.Acquired?
  {}

  /** A call under a fresh key that is not heard leaves its reservation open. */
  lemma UnheardStaysOpen(before: seq<Step>, request: Request, call: Call)
    requires var s := Run(before);
             && 0 in s.workers && Sound(s.workers[0].shadow, request, call) && !Heard(s.workers[0], request, call)
             && s.workers[0].pc.Idle? && s.workers[0].uncommitted == map[] && request.key !in s.workers[0].cache
             && Record(request) !in s.store.rows
    ensures Abandoned(Run(before + CallSteps(0, request, call, Handling(None, true), Smooth())), Record(request))
  {
    var s := Run(before);
    FreshKeyIsReserved(s.store, s.workers[0], request);
    hide Run, CallSteps, Receive, A.Valid, Governs, Concluded, Holding, Heard, Sound, Abandoned;
    CallIsAnsweredExactly(before, 0, request, call, Handling(None, true), Smooth());
  }

  /** A resumption of a pending approval by an identity that is no approver of it. */
  function Unapproved(op: A.Op): Call { Resuming(0.0, op, Verified, false, Raises) }

  /** Worker 0 holds a pending approval, and knows the key "e" only. */
  lemma PendingIsReached() returns (before: seq<Step>, id: string)
    ensures var s := Run(before);
            && 0 in s.workers && A.Valid(s.workers[0].manager)
            && var w := s.workers[0];
            && w.pc.Idle? && !w.shadow && w.uncommitted == map[] && w.cache.Keys == {"e"}
            && id in w.pending && id in w.manager.requests
            && s.store.rows.Keys == {(Decisions, "e")} && s.store.state.Some? && s.store.state.value.revision == 1
  {
    id := A.RequestId("approval", 1);
    hide A.RequestId, Run, L.Reachable, Inv, A.Valid;
    var s := L.Escalates();
    L.AValid(s, 0);
    before := L.StepsTo(s);
  }

  /** A resumption by an identity that is no approver of the pending approval, without
      any fault: its refusal is told as an unavailable store, and its record stays open. */
  lemma RefusedResumptionStaysOpen() returns (before: seq<Step>, request: Request, call: Call)
    ensures var s := Run(before);
            && 0 in s.workers && s.workers[0].pc.Idle? && Sound(s.workers[0].shadow, request, call) && A.Valid(s.workers[0].manager)
            && request.target in s.workers[0].pending && call.Resuming? && call.identity.Verified? && !call.approver
            && Answer(s.store, s.workers[0], request, call, Handling(None, true), Smooth()) == Failure(503, "durable_state_unavailable")
            && Abandoned(Run(before + CallSteps(0, request, call, Handling(None, true), Smooth())), Record(request))
  {
    hide Run, CallSteps, A.Valid, Abandoned, Answer;
    var id;
    before, id := PendingIsReached();
    var s := Run(before);
    request := Request(Resumes, "r", id, "");
    var op := A.Resume(id, A.Binding("", "", "", ""), None);
    call := Unapproved(op);
    UnheardStaysOpen(before, request, call);
    FreshKeyIsReserved(s.store, s.workers[0], request);
    MisfiledIsToldUnavailable(s.store, s.workers[0], request, op);
  }

  lemma MisfiledIsToldUnavailable(s: Store, w: Worker, request: Request, op: A.Op)
    requires w.pc.Idle? && A.Valid(w.manager) && Sound(w.shadow, request, Unapproved(op)) && Heard(w, request, Unapproved(op).(approver := true))
    requires Receive(s, w, request, NoFault).2.Acquired? && (Decisions, request.key) !in s.rows
    requires s.state.Some? ==> s.state.value.revision >= 1
    ensures Answer(s, w, request, Unapproved(op), Handling(None, true), Smooth()) == Failure(503, "durable_state_unavailable")
  {
    Received(s, w, request, NoFault);
    ReceivingOpens(s, w, request, NoFault);
    var (t, n, _) := Receive(s, w, request, NoFault);
    hide A.Valid, Receive, Open;
    MisfilingGoes(n, request, op);
    MisfilingIsRefused(t, Governs(n, request, Unapproved(op)), request);
    hide ResumeApproval;
  }

  lemma MisfilingGoes(w: Worker, request: Request, op: A.Op)
    requires Holding(w, request) && Sound(w.shadow, request, Unapproved(op)) && Heard(w, request, Unapproved(op).(approver := true))
    ensures var n := Governs(w, request, Unapproved(op));
            n.pc == Committing(Ticket(Decisions, request), Failure(403, "authentication_failed"))
  {
    hide A.Valid;
  }

  lemma MisfilingIsRefused(s: Store, w: Worker, request: Request)
    requires w.pc == Committing(Ticket(Decisions, request), Failure(403, "authentication_failed")) && (Decisions, request.key) !in s.rows
    ensures forall early :: Given(s, w, early, Handling(None, true), Smooth()) == Failure(503, "durable_state_unavailable")
  {}

  /** A vote by an identity that is not verified, for a pending approval and without any
      fault: it is told so, and the key can never be used for the vote again. */
  lemma UnverifiedVoteStaysOpen() returns (before: seq<Step>, request: Request, call: Call)
    ensures var s := Run(before);
            && 0 in s.workers && s.workers[0].pc.Idle? && Sound(s.workers[0].shadow, request, call) && A.Valid(s.workers[0].manager)
            && request.target in s.workers[0].pending && call.Voting? && call.identity.NotProven?
            && Answer(s.store, s.workers[0], request, call, Handling(None, true), Smooth()) == Failure(401, "authentication_failed")
            && Abandoned(Run(before + CallSteps(0, request, call, Handling(None, true), Smooth())), Record(request))
  {
    hide Run, CallSteps, A.Valid, Abandoned, Answer;
    var id;
    before, id := PendingIsReached();
    var s := Run(before);
    request := Request(Votes, "v", id, "");
    call := Voting(A.Deny(id, "approver", None, None), NotProven);
    UnheardStaysOpen(before, request, call);
    FreshKeyIsReserved(s.store, s.workers[0], request);
    UnverifiedIsTold(s.store, s.workers[0], request, call.op);
  }

  lemma UnverifiedIsTold(s: Store, w: Worker, request: Request, op: A.Op)
    requires var call := Voting(op, NotProven);
             w.pc.Idle? && A.Valid(w.manager) && Sound(w.shadow, request, call) && request.target in w.pending
    requires Receive(s, w, request, NoFault).2.Acquired?
    ensures Answer(s, w, request, Voting(op, NotProven), Handling(None, true), Smooth()) == Failure(401, "authentication_failed")
  {
    hide A.Valid, Receive;
    Received(s, w, request, NoFault);
  }
}
