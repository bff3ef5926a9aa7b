/** Approvals and execution together: in every run the operation of an approval
    starts only in a worker that has consumed it, with its quorum of votes, and
    every approval that a worker could resume is one that its manager holds. */
module ProtocolApprovals {
  import opened Text
  import opened Model
  import opened DurableStore
  import opened DurableWorker
  import opened Protocol
  import opened ProtocolSafety
  import opened ProtocolLaws
  import A = Approval

  /** An enforcing worker on the way through an approval's execution has consumed it. */
  predicate Entitled(w: Worker) {
    (w.pc.Claiming? || w.pc.Running? || w.pc.Finishing?) && w.pc.kind.ApprovalRun? && !w.shadow ==>
      w.pc.key in w.manager.requests && w.manager.requests[w.pc.key].consumed
  }

  ghost predicate AllEntitled(s: System) { forall i :: i in s.workers ==> Entitled(s.workers[i]) }

  lemma AcceptedIsConsumed(m: A.Manager, seen: real, op: A.Op)
    requires A.Valid(m) && op.Resume?
    ensures var read := A.LookStep(m, op.id, Some(seen)).0;
            var (n, reply) := A.ResumeStep(read, op.id, op.binding, op.now);
            reply.Ok? ==> op.id in n.requests && n.requests[op.id].consumed
  {
    A.StepAdvances(m, A.Look(op.id, Some(seen)));
    var read := A.LookStep(m, op.id, Some(seen)).0;
    assert A.Valid(read);
    hide A.IssuedBefore, A.ValidRequest, A.Advances;
  }

  lemma ResumingConsumes(w: Worker, seen: real, op: A.Op, identity: Identity, approver: bool, recheck: Recheck)
    requires w.pc.Reserved? && w.pc.ticket.scope == Resumes
    requires A.Valid(w.manager) && op.Resume? && Suits(w.shadow, recheck)
    ensures Entitled(ResumeApproval(w, seen, op, identity, approver, recheck))
  {
    AcceptedIsConsumed(w.manager, seen, op);
    hide A.Valid, A.LookStep, A.ResumeStep;
  }

  lemma DecidingRunsNoApproval(w: Worker, verdict: Verdict)
    requires w.pc.Reserved? && w.pc.ticket.scope == Decisions
    requires A.Valid(w.manager) && Fits(w.shadow, verdict)
    ensures Entitled(Decide(w, verdict))
  {
    hide A.Valid, A.Step;
  }

  lemma ReceivingRunsNothing(s: Store, w: Worker, request: Request, fault: Fault)
    requires w.pc.Idle?
    ensures Entitled(Receive(s, w, request, fault).1)
  {
    hide Transact, BeginStep, CompleteStep;
  }

  lemma ExecutingEntitles(s: Store, w: Worker, fault: Fault, serializable: bool, returned: Option<Json>)
    requires Entitled(w)
    ensures w.pc.Claiming? ==> Entitled(ClaimRun(s, w, fault).1)
    ensures w.pc.Running? ==> Entitled(RunHandler(w, returned))
    ensures w.pc.Finishing? ==> Entitled(Finish(s, w, fault, serializable).1)
  {
    hide Transact, ClaimStep, SettleStep;
  }

  lemma EndingRunsNothing(s: Store, w: Worker, fault: Fault)
    ensures w.pc.Persisting? || w.pc.PersistingExpiry? ==> Entitled(Persist(s, w, fault).1)
    ensures w.pc.Committing? ==> Entitled(Commit(s, w, fault).1)
  {
    hide Transact, SaveStep, CompleteStep;
  }

  lemma EntitledAt(s: System, i: nat)
    requires AllEntitled(s) && i in s.workers
    ensures Entitled(s.workers[i])
  {}

  lemma OneIsEntitled(s: System, t: System, i: nat)
    requires AllEntitled(s) && i in t.workers && Entitled(t.workers[i])
    requires t.workers == s.workers[i := t.workers[i]]
    ensures AllEntitled(t)
  {}

  lemma MovedIsEntitled(s: System, step: Step)
    requires Acts(step) && Enabled(s, step) && Entitled(s.workers[step.i])
    ensures Entitled(Moved(s, step))
  {
    var w := s.workers[step.i];
    hide A.Valid, Decide, ResumeApproval, Vote, ReadApproval, Receive, ClaimRun, RunHandler, Finish, Persist, Commit, Entitled;
    match step
    case ReceiveStep(_, request, fault) => ReceivingRunsNothing(s.store, w, request, fault);
    case DecideStep(_, verdict) => DecidingRunsNoApproval(w, verdict);
    case ClaimRunStep(_, fault) => ExecutingEntitles(s.store, w, fault, true, None);
    case RunStep(_, returned) => ExecutingEntitles(s.store, w, NoFault, true, returned);
    case FinishStep(_, fault, serializable) => ExecutingEntitles(s.store, w, fault, serializable, None);
    case PersistStep(_, fault) => EndingRunsNothing(s.store, w, fault);
    case CommitStep(_, fault) => EndingRunsNothing(s.store, w, fault);
    case VoteStep(_, op, identity) => VotingRunsNothing(w, op, identity);
    case ResumeStep(_, seen, op, identity, approver, recheck) => ResumingConsumes(w, seen, op, identity, approver, recheck);
    case ReadStep(_, id, now) => ReadingRunsNothing(w, id, now);
  }

  lemma VotingRunsNothing(w: Worker, op: A.Op, identity: Identity)
    requires w.pc.Reserved? && w.pc.ticket.scope == Votes && A.Valid(w.manager) && (op.Approve? || op.Deny?)
    ensures Entitled(Vote(w, op, identity))
  {
    hide A.Valid, A.Step;
  }

  lemma ReadingRunsNothing(w: Worker, id: string, now: real)
    requires w.pc.Idle?
    ensures Entitled(ReadApproval(w, id, now))
  {
    hide A.LookStep;
  }

  lemma NextEntitles(s: System, step: Step)
    requires AllEntitled(s)
    ensures AllEntitled(Next(s, step))
  {
    if Enabled(s, step) {
      hide Entitled, Moved;
      if Acts(step) {
        EntitledAt(s, step.i);
        hide AllEntitled, Enabled, Do;
        OnlyTheActorMoves(s, step);
        MovedIsEntitled(s, step);
        OneIsEntitled(s, Do(s, step), step.i);
      } else {
        OthersAreEntitled(s, step);
      }
    }
  }

  lemma OthersAreEntitled(s: System, step: Step)
    requires AllEntitled(s) && Enabled(s, step) && !Acts(step)
    ensures AllEntitled(Do(s, step))
  {
    hide Transact, SettleStep, A.Valid, CanStart;
  }

  lemma {:induction false} RunEntitles(steps: seq<Step>)
    ensures AllEntitled(Run(steps))
  {
    hide AllEntitled, Next;
    if steps == [] {
      NobodyIsEntitled();
    } else {
      RunEntitles(steps[..|steps| - 1]);
      NextEntitles(Run(steps[..|steps| - 1]), steps[|steps| - 1]);
    }
  }

  lemma NobodyIsEntitled()
    ensures AllEntitled(Initial())
  {}

  /** In every run, an enforcing worker calls the handler of an approval only while
      its manager holds that approval as consumed, approved by at least the threshold
      of distinct votes, all from the roles it requires. */
  lemma ApprovalRunHasQuorum(steps: seq<Step>, step: Step, id: string)
    requires Starts(Run(steps), step, (ApprovalRun, id)) && !Run(steps).workers[step.i].shadow
    ensures var m := Run(steps).workers[step.i].manager;
            && id in m.requests && m.requests[id].consumed && m.requests[id].state.Approved?
            && Distinct(m.requests[id].votes) && |m.requests[id].votes| >= m.requests[id].threshold >= 1
            && forall v :: v in m.requests[id].votes ==> v in m.requests[id].requiredRoles
  {
    hide Run;
    RunEntitles(steps);
    ReachableIsSafe(steps);
    var w := Run(steps).workers[step.i];
    Unfolded(Run(steps), step.i);
    assert Entitled(w);
    assert A.ValidRequest(w.manager.requests[id]);
  }

  // ------------------------------------------------------- pending approvals

  /** An enforcing worker's pending approvals are held by its manager, and no decision
      that it executes will show an approval. */
  predicate Filed(w: Worker) {
    && !w.shadow && w.pending.Keys <= w.manager.requests.Keys
    && ((w.pc.Claiming? || w.pc.Running? || w.pc.Finishing?) && w.pc.kind.DecisionRun? ==> w.pc.shown.approvalId.None?)
  }

  ghost predicate AllFiled(s: System) {
    && (forall i :: i in s.workers ==> Filed(s.workers[i]))
    && (s.store.state.Some? ==>
          s.store.state.value.payload.pending.Keys <= s.store.state.value.payload.manager.requests.Keys)
  }

  /** No worker of this run observes only. */
  predicate Enforcing(steps: seq<Step>) { forall k :: 0 <= k < |steps| && steps[k].StartStep? ==> !steps[k].shadow }

  lemma StepKeepsKeys(m: A.Manager, op: A.Op)
    requires A.Valid(m)
    ensures A.Valid(A.Step(m, op).0) && m.requests.Keys <= A.Step(m, op).0.requests.Keys
  {
    A.StepAdvances(m, op);
    hide A.Step, A.Valid, A.Progress;
  }

  lemma FilingIsKept(m: A.Manager, ask: A.Op)
    requires A.Valid(m) && ask.Ask?
    ensures var (n, reply) := A.Step(m, ask); reply.Ok? ==> reply.value.id in n.requests
  {
    hide A.RequestId, A.IssuedBefore, A.ValidRequest;
  }

  lemma EscalatingFiles(w: Worker, verdict: Verdict)
    requires w.pc.Reserved? && w.pc.ticket.scope == Decisions && A.Valid(w.manager) && Fits(w.shadow, verdict) && Filed(w)
    requires verdict.Escalated?
    ensures Filed(Decide(w, verdict))
  {
    assert w.manager.nextId >= 0;
    hide A.Valid, A.Step;
    StepKeepsKeys(w.manager, verdict.ask);
    FilingIsKept(w.manager, verdict.ask);
    var (manager, reply) := A.Step(w.manager, verdict.ask);
    if reply.Ok? { assert w.pending[reply.value.id := verdict.decisionId].Keys == w.pending.Keys + {reply.value.id}; }
  }

  lemma DecidingFiles(w: Worker, verdict: Verdict)
    requires w.pc.Reserved? && w.pc.ticket.scope == Decisions && A.Valid(w.manager) && Fits(w.shadow, verdict) && Filed(w)
    ensures Filed(Decide(w, verdict))
  {
    if verdict.Escalated? {
      EscalatingFiles(w, verdict);
    } else {
      hide A.Valid, A.Step;
    }
  }

  lemma VotingFiles(w: Worker, op: A.Op, identity: Identity)
    requires w.pc.Reserved? && w.pc.ticket.scope == Votes && A.Valid(w.manager) && (op.Approve? || op.Deny?) && Filed(w)
    ensures Filed(Vote(w, op, identity))
  {
    StepKeepsKeys(w.manager, op);
    hide A.Valid, A.Step;
  }

  lemma ResumptionKeepsKeys(m: A.Manager, seen: real, op: A.Op)
    requires A.Valid(m) && op.Resume?
    ensures var read := A.LookStep(m, op.id, Some(seen)).0;
            && m.requests.Keys <= read.requests.Keys
            && m.requests.Keys <= A.LookStep(read, op.id, op.now).0.requests.Keys
            && m.requests.Keys <= A.ResumeStep(read, op.id, op.binding, op.now).0.requests.Keys
  {
    hide A.ValidRequest, A.IssuedBefore, A.LookStep, A.ResumeStep;
    var look := A.Look(op.id, Some(seen));
    StepKeepsKeys(m, look);
    StepKeepsKeys(A.Step(m, look).0, A.Look(op.id, op.now));
    StepKeepsKeys(A.Step(m, look).0, op);
  }

  lemma ResumingFiles(w: Worker, seen: real, op: A.Op, identity: Identity, approver: bool, recheck: Recheck)
    requires w.pc.Reserved? && w.pc.ticket.scope == Resumes && A.Valid(w.manager) && op.Resume? && Suits(w.shadow, recheck)
    requires Filed(w)
    ensures Filed(ResumeApproval(w, seen, op, identity, approver, recheck))
  {
    hide A.Valid, A.LookStep, A.ResumeStep, A.Step;
    ResumptionKeepsKeys(w.manager, seen, op);
  }

  lemma ReadingFiles(w: Worker, id: string, now: real)
    requires w.pc.Idle? && A.Valid(w.manager) && Filed(w)
    ensures Filed(ReadApproval(w, id, now))
  {
    StepKeepsKeys(w.manager, A.Look(id, Some(now)));
    hide A.Valid, A.LookStep;
  }

  lemma ExecutingFiles(s: Store, w: Worker, fault: Fault, serializable: bool, returned: Option<Json>)
    requires Filed(w)
    ensures w.pc.Claiming? ==> Filed(ClaimRun(s, w, fault).1)
    ensures w.pc.Running? ==> Filed(RunHandler(w, returned))
    ensures w.pc.Finishing? ==> Filed(Finish(s, w, fault, serializable).1)
  {
    hide Transact, ClaimStep, SettleStep;
  }

  lemma ReceivingFiles(s: Store, w: Worker, request: Request, fault: Fault)
    requires w.pc.Idle? && Filed(w)
    ensures Filed(Receive(s, w, request, fault).1)
  {
    hide Transact, BeginStep, CompleteStep;
  }

  lemma SavingFiles(s: Store, w: Worker, fault: Fault)
    requires Filed(w)
    ensures w.pc.Persisting? || w.pc.PersistingExpiry? ==> Filed(Persist(s, w, fault).1)
    ensures w.pc.Committing? ==> Filed(Commit(s, w, fault).1)
  {
    hide Transact, SaveStep, CompleteStep;
  }

  lemma MovedIsFiled(s: System, step: Step)
    requires Acts(step) && Enabled(s, step) && A.Valid(s.workers[step.i].manager) && Filed(s.workers[step.i])
    ensures Filed(Moved(s, step))
  {
    var w := s.workers[step.i];
    hide A.Valid, Decide, ResumeApproval, Vote, ReadApproval, Receive, ClaimRun, RunHandler, Finish, Persist, Commit, Filed;
    match step
    case ReceiveStep(_, request, fault) => ReceivingFiles(s.store, w, request, fault);
    case DecideStep(_, verdict) => DecidingFiles(w, verdict);
    case ClaimRunStep(_, fault) => ExecutingFiles(s.store, w, fault, true, None);
    case RunStep(_, returned) => ExecutingFiles(s.store, w, NoFault, true, returned);
    case FinishStep(_, fault, serializable) => ExecutingFiles(s.store, w, fault, serializable, None);
    case PersistStep(_, fault) => SavingFiles(s.store, w, fault);
    case CommitStep(_, fault) => SavingFiles(s.store, w, fault);
    case VoteStep(_, op, identity) => VotingFiles(w, op, identity);
    case ResumeStep(_, seen, op, identity, approver, recheck) => ResumingFiles(w, seen, op, identity, approver, recheck);
    case ReadStep(_, id, now) => ReadingFiles(w, id, now);
  }

  /** Only persisting writes the state record, and it writes the worker's own. */
  lemma StateIsOfTheActor(s: System, step: Step)
    requires Acts(step) && Enabled(s, step)
    ensures var t := Do(s, step).store;
            t.state == s.store.state || (t.state.Some? && t.state.value.payload == PayloadOf(s.workers[step.i]))
  {
    hide A.Valid, Decide, ResumeApproval, Vote, ReadApproval;
  }

  lemma NextFiles(s: System, step: Step)
    requires Inv(s) && AllFiled(s) && (step.StartStep? ==> !step.shadow)
    ensures AllFiled(Next(s, step))
  {
    if Enabled(s, step) {
      hide Inv, Do, Filed, Moved, PayloadOf;
      if Acts(step) {
        AValid(s, step.i);
        FiledAt(s, step.i);
        hide AllFiled, Enabled;
        OnlyTheActorMoves(s, step);
        MovedIsFiled(s, step);
        StateIsOfTheActor(s, step);
        OneIsFiled(s, Do(s, step), step.i);
      } else {
        OthersAreFiled(s, step);
      }
    }
  }

  lemma OthersAreFiled(s: System, step: Step)
    requires AllFiled(s) && !Acts(step) && Enabled(s, step) && (step.StartStep? ==> !step.shadow)
    ensures AllFiled(Do(s, step))
  {
    hide A.Valid, A.SameUpToReferenceOrder, A.DistinctKeys, Transact, SettleStep;
    match step
    case CrashStep(i) =>
    case StartStep(i, shadow, manager, kept) => assert Filed(Do(s, step).workers[i]);
    case ReconcileStep(_, _, _, _) => StateIsNotReconciled(s, step);
  }

  lemma StateIsNotReconciled(s: System, step: Step)
    requires step.ReconcileStep?
    ensures Do(s, step).workers == s.workers && Do(s, step).store.state == s.store.state
  {}

  lemma FiledAt(s: System, i: nat)
    requires AllFiled(s) && i in s.workers
    ensures Filed(s.workers[i])
  {}

  lemma OneIsFiled(s: System, t: System, i: nat)
    requires AllFiled(s) && i in s.workers && i in t.workers && t.workers == s.workers[i := t.workers[i]] && Filed(t.workers[i])
    requires t.store.state == s.store.state || (t.store.state.Some? && t.store.state.value.payload == PayloadOf(s.workers[i]))
    ensures AllFiled(t)
  {}

  /** While every worker enforces, each approval that a worker could resume, or that
      the store would restore, is held by the manager beside it. */
  lemma {:induction false} PendingIsFiled(steps: seq<Step>)
    requires Enforcing(steps)
    ensures AllFiled(Run(steps))
  {
    hide Next;
    if steps != [] {
      var front := steps[..|steps| - 1];
      PendingIsFiled(front);
      ReachableIsSafe(front);
      NextFiles(Run(front), steps[|steps| - 1]);
    }
  }
}
