/** Requests that are never answered: a reservation that no live worker can still
    answer stays open, and every worker declines it in every continuation of the run. */
module OpenRequests {
  import opened Text
  import opened DurableStore
  import opened DurableWorker
  import opened Protocol
  import opened ProtocolSafety
  import opened ProtocolLaws
  import A = Approval

  /** The worker is on its way to answer the record `at`, or keeps an answer for it. */
  predicate Answers(w: Worker, at: (Endpoint, string)) {
    || (HasTicket(w.pc) && Genuine(w.pc.ticket) && (w.pc.ticket.scope, w.pc.ticket.request.key) == at)
    || (at in w.uncommitted && w.uncommitted[at].0.endpoint == at.0)
  }

  ghost predicate Unanswered(s: System, at: (Endpoint, string)) {
    forall i :: i in s.workers ==> !Answers(s.workers[i], at)
  }

  /** Reserved, and nobody is left who could answer. */
  ghost predicate Abandoned(s: System, at: (Endpoint, string)) {
    at in s.store.rows && s.store.rows[at].InProgress? && Unanswered(s, at)
  }

  /** A move that answers no record at `at` and leaves that record as it was. */
  predicate Passes(s: Store, w: Worker, t: Store, n: Worker, at: (Endpoint, string)) {
    && !Answers(n, at)
    && at in s.rows && at in t.rows && t.rows[at] == s.rows[at]
  }

  // ------------------------------------------------------------ single moves

  lemma ReceivingPasses(s: Store, w: Worker, request: Request, fault: Fault, at: (Endpoint, string))
    requires w.pc.Idle? && !Answers(w, at) && at in s.rows && s.rows[at].InProgress?
    ensures var (t, n, _) := Receive(s, w, request, fault); Passes(s, w, t, n, at)
  {}

  lemma GoingPasses(s: System, w: Worker, n: Worker, at: (Endpoint, string))
    requires w.pc.Reserved? && Genuine(w.pc.ticket) && !Answers(w, at) && at in s.store.rows
    requires GoesTo(s, w, n.pc) && n.uncommitted == w.uncommitted
    ensures Passes(s.store, w, s.store, n, at)
  {
    hide Truthful;
  }

  lemma ClaimingPasses(s: Store, w: Worker, fault: Fault, at: (Endpoint, string))
    requires w.pc.Claiming? && !Answers(w, at) && at in s.rows
    ensures var (t, n) := ClaimRun(s, w, fault); Passes(s, w, t, n, at)
  {
    ClaimsLeave(s, fault, w.pc.kind, w.pc.key, w.pc.claimId, Unknown, Null);
    hide Transact, ClaimStep, SettleStep;
  }

  lemma FinishingPasses(s: Store, w: Worker, fault: Fault, serializable: bool, at: (Endpoint, string))
    requires w.pc.Finishing? && !Answers(w, at) && at in s.rows
    ensures var (t, n) := Finish(s, w, fault, serializable); Passes(s, w, t, n, at)
  {
    FinishLeaves(s, w, fault, serializable);
    hide Finish;
  }

  lemma RunningPasses(s: Store, w: Worker, returned: Option<Json>, at: (Endpoint, string))
    requires w.pc.Running? && !Answers(w, at) && at in s.rows
    ensures Passes(s, w, s, RunHandler(w, returned), at)
  {}

  lemma PersistingPasses(s: Store, w: Worker, fault: Fault, at: (Endpoint, string))
    requires (w.pc.Persisting? || w.pc.PersistingExpiry?) && !Answers(w, at) && at in s.rows
    ensures var (t, n) := Persist(s, w, fault); Passes(s, w, t, n, at)
  {}

  lemma CommittingPasses(s: Store, w: Worker, fault: Fault, at: (Endpoint, string))
    requires w.pc.Committing? && !Answers(w, at) && at in s.rows && s.rows[at].request.endpoint == at.0
    ensures var (t, n) := Commit(s, w, fault); Passes(s, w, t, n, at)
  {}

  lemma DecidingPasses(s: System, i: nat, verdict: Verdict, at: (Endpoint, string))
    requires Enabled(s, DecideStep(i, verdict)) && PcOk(s, i, s.workers[i])
    requires !Answers(s.workers[i], at) && at in s.store.rows
    ensures Passes(s.store, s.workers[i], s.store, Decide(s.workers[i], verdict), at)
  {
    var w := s.workers[i];
    DecideShape(s, w, verdict);
    hide Decide, GoesTo, Answers, A.Valid, Passes;
    GoingPasses(s, w, Decide(w, verdict), at);
  }

  lemma VotingPasses(s: System, i: nat, op: A.Op, identity: Identity, at: (Endpoint, string))
    requires Enabled(s, VoteStep(i, op, identity)) && PcOk(s, i, s.workers[i])
    requires !Answers(s.workers[i], at) && at in s.store.rows
    ensures Passes(s.store, s.workers[i], s.store, Vote(s.workers[i], op, identity), at)
  {
    var w := s.workers[i];
    VoteShape(s, w, op, identity);
    hide Vote, GoesTo, Answers, A.Valid, A.Step, Passes;
    GoingPasses(s, w, Vote(w, op, identity), at);
  }

  lemma ResumingPasses(s: System, i: nat, seen: real, op: A.Op, identity: Identity, approver: bool, recheck: Recheck, at: (Endpoint, string))
    requires Enabled(s, Step.ResumeStep(i, seen, op, identity, approver, recheck)) && PcOk(s, i, s.workers[i])
    requires !Answers(s.workers[i], at) && at in s.store.rows
    ensures Passes(s.store, s.workers[i], s.store, ResumeApproval(s.workers[i], seen, op, identity, approver, recheck), at)
  {
    var w := s.workers[i];
    ResumeShape(s, w, seen, op, identity, approver, recheck);
    hide ResumeApproval, GoesTo, Answers, A.Valid, A.LookStep, A.ResumeStep, Passes;
    GoingPasses(s, w, ResumeApproval(w, seen, op, identity, approver, recheck), at);
  }

  /** The store after a worker's step. */
  lemma StoreOfMove(s: System, step: Step)
    requires Acts(step) && Enabled(s, step)
    ensures var w, t := s.workers[step.i], Do(s, step).store;
            match step
            case ReceiveStep(_, request, fault) => t == Receive(s.store, w, request, fault).0
            case ClaimRunStep(_, fault) => t == ClaimRun(s.store, w, fault).0
            case FinishStep(_, fault, serializable) => t == Finish(s.store, w, fault, serializable).0
            case PersistStep(_, fault) => t == Persist(s.store, w, fault).0
            case CommitStep(_, fault) => t == Commit(s.store, w, fault).0
            case _ => t == s.store
  {
    hide Decide, ResumeApproval, Vote, ReadApproval, Receive, ClaimRun, RunHandler, Finish, Persist, Commit, A.Valid;
  }

  lemma MovesFrom(s: System, i: nat, at: (Endpoint, string))
    requires Inv(s) && i in s.workers && at in s.store.rows
    ensures PcOk(s, i, s.workers[i]) && s.store.rows[at].request.endpoint == at.0
  {
    Unfolded(s, i);
    hide WorkerOk, PcOk, LogOk, ClaimOk;
    assert RowOk(s, at);
  }

  predicate UsesStore(step: Step) {
    step.ReceiveStep? || step.ClaimRunStep? || step.FinishStep? || step.PersistStep? || step.CommitStep?
  }

  lemma StoreStepPasses(s: System, step: Step, at: (Endpoint, string))
    requires UsesStore(step) && Enabled(s, step) && !Answers(s.workers[step.i], at)
    requires at in s.store.rows && s.store.rows[at].InProgress? && s.store.rows[at].request.endpoint == at.0
    ensures Passes(s.store, s.workers[step.i], Do(s, step).store, Moved(s, step), at)
  {
    var w := s.workers[step.i];
    StoreOfMove(s, step);
    hide Answers, Passes, Do, Receive, ClaimRun, Finish, Persist, Commit;
    match step
    case ReceiveStep(_, request, fault) => ReceivingPasses(s.store, w, request, fault, at);
    case ClaimRunStep(_, fault) => ClaimingPasses(s.store, w, fault, at);
    case FinishStep(_, fault, serializable) => FinishingPasses(s.store, w, fault, serializable, at);
    case PersistStep(_, fault) => PersistingPasses(s.store, w, fault, at);
    case CommitStep(_, fault) => CommittingPasses(s.store, w, fault, at);
  }

  lemma LocalStepPasses(s: System, step: Step, at: (Endpoint, string))
    requires Acts(step) && !UsesStore(step) && Enabled(s, step) && PcOk(s, step.i, s.workers[step.i])
    requires !Answers(s.workers[step.i], at) && at in s.store.rows
    ensures Passes(s.store, s.workers[step.i], Do(s, step).store, Moved(s, step), at)
  {
    var i := step.i;
    StoreOfMove(s, step);
    hide PcOk, Answers, Passes, A.Valid, Do, Decide, ResumeApproval, Vote, ReadApproval, RunHandler;
    match step
    case DecideStep(_, verdict) => DecidingPasses(s, i, verdict, at);
    case RunStep(_, returned) => RunningPasses(s.store, s.workers[i], returned, at);
    case VoteStep(_, op, identity) => VotingPasses(s, i, op, identity, at);
    case ResumeStep(_, seen, op, identity, approver, recheck) => ResumingPasses(s, i, seen, op, identity, approver, recheck, at);
    case ReadStep(_, id, now) => ReadingPasses(s, i, id, now, at);
  }

  lemma MovingPasses(s: System, step: Step, at: (Endpoint, string))
    requires Inv(s) && Acts(step) && Enabled(s, step) && !Answers(s.workers[step.i], at)
    requires at in s.store.rows && s.store.rows[at].InProgress?
    ensures Passes(s.store, s.workers[step.i], Do(s, step).store, Moved(s, step), at)
  {
    MovesFrom(s, step.i, at);
    hide Inv, PcOk, Answers, Passes, Do, Moved;
    if UsesStore(step) { StoreStepPasses(s, step, at); } else { LocalStepPasses(s, step, at); }
  }

  lemma ReadingPasses(s: System, i: nat, id: string, now: real, at: (Endpoint, string))
    requires Enabled(s, ReadStep(i, id, now)) && !Answers(s.workers[i], at) && at in s.store.rows
    ensures Passes(s.store, s.workers[i], s.store, ReadApproval(s.workers[i], id, now), at)
  {
    hide A.LookStep;
  }

  // -------------------------------------------------------------- whole runs

  lemma UnansweredAt(s: System, i: nat, at: (Endpoint, string))
    requires Unanswered(s, at) && i in s.workers
    ensures !Answers(s.workers[i], at)
  {}

  lemma OneMore(s: System, t: System, i: nat, at: (Endpoint, string))
    requires Unanswered(s, at) && i in t.workers && t.workers == s.workers[i := t.workers[i]] && !Answers(t.workers[i], at)
    ensures Unanswered(t, at)
  {}

  lemma OthersPass(s: System, step: Step, at: (Endpoint, string))
    requires Unanswered(s, at) && Enabled(s, step) && !Acts(step)
    ensures Unanswered(Do(s, step), at) && Do(s, step).store.rows == s.store.rows
  {
    hide CanStart, RestoredFrom;
  }

  lemma NextLeavesOpen(s: System, step: Step, at: (Endpoint, string))
    requires Inv(s) && Abandoned(s, at)
    ensures Abandoned(Next(s, step), at) && Next(s, step).store.rows[at] == s.store.rows[at]
  {
    hide Inv, Answers, Moved, Do, Unanswered;
    if Enabled(s, step) {
      if Acts(step) {
        UnansweredAt(s, step.i, at);
        hide Enabled;
        MovingPasses(s, step, at);
        OnlyTheActorMoves(s, step);
        OneMore(s, Do(s, step), step.i, at);
      } else {
        OthersPass(s, step, at);
      }
    }
  }

  /** Once nobody can answer a reservation, it stays open in every continuation. */
  lemma {:induction false} AbandonedForGood(steps: seq<Step>, more: seq<Step>, at: (Endpoint, string))
    requires Abandoned(Run(steps), at)
    ensures Abandoned(Run(steps + more), at) && Run(steps + more).store.rows[at] == Run(steps).store.rows[at]
    decreases |more|
  {
    hide Run, Next, Unanswered;
    if more == [] {
      assert steps + more == steps;
    } else {
      var front, last := more[..|more| - 1], more[|more| - 1];
      AbandonedForGood(steps, front, at);
      assert steps + more == steps + front + [last];
      RunContinues(steps, front, last);
      ReachableIsSafe(steps + front);
      NextLeavesOpen(Run(steps + front), last, at);
    }
  }

  /** How an idle worker declines a request whose record is abandoned. */
  function Decline(s: Store, w: Worker, asked: Request): Outcome
    requires (asked.endpoint, asked.key) in s.rows
  {
    if asked != s.rows[(asked.endpoint, asked.key)].request || Shadowed(w, asked) then KeyConflict
    else if asked.endpoint.Decisions? && IsSettled(s, asked.key) then OutcomeUnknown
    else InFlight
  }

  lemma DeclinedByStore(s: Store, w: Worker, asked: Request)
    requires var at := (asked.endpoint, asked.key); at in s.rows && s.rows[at].InProgress? && at !in w.uncommitted
    requires asked.key !in w.cache
    ensures Receive(s, w, asked, NoFault) == (s, w, Decline(s, w, asked))
  {}

  lemma DeclinedLocally(s: System, i: nat, w: Worker, asked: Request)
    requires var at := (asked.endpoint, asked.key); at in s.store.rows && s.store.rows[at].InProgress? && !Answers(w, at)
    requires CacheOk(s, w) && (asked.key in w.cache || (asked.endpoint, asked.key) in w.uncommitted)
    ensures Shadowed(w, asked) && forall fault :: Receive(s.store, w, asked, fault) == (s.store, w, KeyConflict)
  {
    if asked.key in w.cache { ACached(s, w, asked.key); }
  }

  /** A request whose reservation was abandoned is never answered: whatever happens
      afterwards, an idle worker declines it and changes nothing, as in progress, as
      uncertain for a decision whose handler is settled, or as a conflict. */
  lemma AbandonedIsDeclined(steps: seq<Step>, more: seq<Step>, i: nat, asked: Request, fault: Fault)
    requires Abandoned(Run(steps), (asked.endpoint, asked.key))
    requires i in Run(steps + more).workers && Run(steps + more).workers[i].pc.Idle?
    ensures var s := Run(steps + more);
            var (t, w, outcome) := Receive(s.store, s.workers[i], asked, fault);
            && t == s.store && w == s.workers[i] && !outcome.Acquired? && !outcome.Replayed?
            && (fault.NoFault? ==> (asked.endpoint, asked.key) in s.store.rows && outcome == Decline(s.store, s.workers[i], asked))
  {
    var s, at := Run(steps + more), (asked.endpoint, asked.key);
    AbandonedForGood(steps, more, at);
    ReachableIsSafe(steps + more);
    hide Run, Inv, StoreOk, PcOk, UncommittedOk, ManagerOk;
    Unfolded(s, i);
    UnansweredAt(s, i, at);
    hide CacheOk, Answers, Unanswered;
    if asked.key in s.workers[i].cache || at in s.workers[i].uncommitted {
      DeclinedLocally(s, i, s.workers[i], asked);
      hide Receive;
    } else {
      DeclinedByStore(s.store, s.workers[i], asked);
      FaultyReceipt(s.store, s.workers[i], asked, fault);
      hide Receive;
    }
  }

  lemma FaultyReceipt(s: Store, w: Worker, asked: Request, fault: Fault)
    requires asked.key !in w.cache && (asked.endpoint, asked.key) !in w.uncommitted
    requires (asked.endpoint, asked.key) in s.rows && s.rows[(asked.endpoint, asked.key)].InProgress?
    ensures var (t, n, outcome) := Receive(s, w, asked, fault);
            t == s && n == w && !outcome.Acquired? && !outcome.Replayed?
  {}
}
