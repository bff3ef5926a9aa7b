/** What the invariant of module Protocol gives over whole runs: handlers start at
    most once, committed responses tell the truth and are final, every worker
    replays them, and the committed approval state only advances. */
module ProtocolLaws {
  import opened Text
  import opened DurableStore
  import opened DurableWorker
  import opened Protocol
  import opened ProtocolSafety
  import opened Model
  import A = Approval

  // ---------------------------------------------------------- steps of workers

  /** The steps that a live worker takes. */
  predicate Acts(step: Step) { !step.CrashStep? && !step.StartStep? && !step.ReconcileStep? }

  /** What an enabled step of worker `i` makes of it. */
  ghost function Moved(s: System, step: Step): Worker
    requires Enabled(s, step) && Acts(step)
  {
    var w := s.workers[step.i];
    match step
    case ReceiveStep(_, request, fault) => Receive(s.store, w, request, fault).1
    case DecideStep(_, verdict) => Decide(w, verdict)
    case ClaimRunStep(_, fault) => ClaimRun(s.store, w, fault).1
    case RunStep(_, returned) => RunHandler(w, returned)
    case FinishStep(_, fault, serializable) => Finish(s.store, w, fault, serializable).1
    case PersistStep(_, fault) => Persist(s.store, w, fault).1
    case CommitStep(_, fault) => Commit(s.store, w, fault).1
    case VoteStep(_, op, identity) => Vote(w, op, identity)
    case ResumeStep(_, seen, op, identity, approver, recheck) => ResumeApproval(w, seen, op, identity, approver, recheck)
    case ReadStep(_, id, now) => ReadApproval(w, id, now)
  }

  lemma OnlyTheActorMoves(s: System, step: Step)
    requires Enabled(s, step) && Acts(step)
    ensures Do(s, step).workers == s.workers[step.i := Moved(s, step)]
  {
    hide A.Valid, Receive, ClaimRun, Finish, Persist, Commit, Decide, Vote, ResumeApproval, ReadApproval, RunHandler;
  }

  // ------------------------------------------------------------ whole runs

  lemma {:induction false} RunContinues(steps: seq<Step>, more: seq<Step>, step: Step)
    ensures Run(steps + more + [step]) == Next(Run(steps + more), step)
  {
    assert (steps + more + [step])[..|steps + more|] == steps + more;
  }

  lemma StepStarts(s: System, step: Step, at: (Kind, string))
    ensures RunsOf(Next(s, step), at) == RunsOf(s, at) + (if Starts(s, step, at) then 1 else 0)
  {
    hide A.Step, A.LookStep, A.ResumeStep, A.Valid, Receive, Decide, Vote, ResumeApproval, ReadApproval, Persist, Commit, Finish, ClaimRun;
  }

  /** This step calls the handler of the execution `at`. */
  ghost predicate Starts(s: System, step: Step, at: (Kind, string)) {
    step.RunStep? && Enabled(s, step) && (s.workers[step.i].pc.kind, s.workers[step.i].pc.key) == at
  }

  lemma {:induction false} RunsOnlyGrow(steps: seq<Step>, more: seq<Step>, at: (Kind, string))
    ensures RunsOf(Run(steps), at) <= RunsOf(Run(steps + more), at)
    decreases |more|
  {
    hide Next;
    if more == [] {
      assert steps + more == steps;
    } else {
      var front, last := more[..|more| - 1], more[|more| - 1];
      RunsOnlyGrow(steps, front, at);
      assert steps + more == steps + front + [last];
      RunContinues(steps, front, last);
      StepStarts(Run(steps + front), last, at);
    }
  }

  /** At most once: whatever the workers, faults, crashes, restarts and operators
      do, no two steps of a run call the handler of the same execution. */
  lemma AtMostOnce(steps: seq<Step>, j: nat, k: nat, at: (Kind, string))
    requires j < k < |steps|
    requires Starts(Run(steps[..j]), steps[j], at)
    ensures !Starts(Run(steps[..k]), steps[k], at)
  {
    hide Run, Next;
    var s := Run(steps[..k]);
    assert RunsOf(s, at) >= 1 by {
      assert steps[..j + 1][..j] == steps[..j];
      assert Run(steps[..j + 1]) == Next(Run(steps[..j]), steps[j]) by {
        RunContinues(steps[..j], [], steps[j]);
        assert steps[..j] + [] + [steps[j]] == steps[..j + 1] && steps[..j] + [] == steps[..j];
      }
      StepStarts(Run(steps[..j]), steps[j], at);
      RunsOnlyGrow(steps[..j + 1], steps[j + 1..k], at);
      assert steps[..j + 1] + steps[j + 1..k] == steps[..k];
    }
    ReachableIsSafe(steps[..k]);
    if Starts(s, steps[k], at) {
      hide Inv, StoreOk;
      Unfolded(s, steps[k].i);
    }
  }

  // ---------------------------------------------- records are never rewritten

  lemma ReceiveSucceeds(s: Store, w: Worker, request: Request, fault: Fault)
    ensures Succeeds(s, Receive(s, w, request, fault).0)
  {
    assert Succeeds(s, s);
    hide Succeeds, BeginStep, CompleteStep, Transact;
    var at := (request.endpoint, request.key);
    RowOperationsSucceed(s, request, request.endpoint, if at in w.uncommitted then w.uncommitted[at].1 else Uncertain(), fault);
  }

  lemma ClaimSucceeds(s: Store, w: Worker, fault: Fault)
    requires w.pc.Claiming?
    ensures Succeeds(s, ClaimRun(s, w, fault).0)
  {
    hide Succeeds, ClaimStep, Transact;
    ClaimOperationsSucceed(s, w.pc.kind, w.pc.key, w.pc.claimId, Unknown, Null, fault);
  }

  lemma FinishSucceeds(s: Store, w: Worker, fault: Fault, serializable: bool)
    requires w.pc.Finishing?
    ensures Succeeds(s, Finish(s, w, fault, serializable).0)
  {
    hide Succeeds, SettleStep, Transact, AfterRun;
    ClaimOperationsSucceed(s, w.pc.kind, w.pc.key, w.pc.claimId, Unknown, RaisedOutcome(), fault);
    ClaimOperationsSucceed(s, w.pc.kind, w.pc.key, w.pc.claimId, Succeeded, SucceededOutcome(), fault);
  }

  lemma CommitSucceeds(s: Store, w: Worker, fault: Fault)
    requires w.pc.Committing?
    ensures Succeeds(s, Commit(s, w, fault).0)
  {
    hide Succeeds, CompleteStep, Transact;
    RowOperationsSucceed(s, w.pc.ticket.request, w.pc.ticket.scope, w.pc.response, fault);
  }

  lemma PersistSucceeds(s: Store, w: Worker, fault: Fault)
    requires w.pc.Persisting? || w.pc.PersistingExpiry?
    ensures Succeeds(s, Persist(s, w, fault).0)
  {
    hide Succeeds, SaveStep, Transact;
    SavesSucceed(s, PayloadOf(w), w.revision, fault);
  }

  /** No step removes or rewrites a complete row or a settled claim, or skips a revision. */
  lemma NextSucceeds(s: System, step: Step)
    ensures Succeeds(s.store, Next(s, step).store)
  {
    assert Succeeds(s.store, s.store);
    hide Succeeds, A.Valid, Receive, ClaimRun, Finish, Persist, Commit, Decide, Vote, ResumeApproval, ReadApproval;
    if Enabled(s, step) {
      match step
      case ReceiveStep(i, request, fault) => ReceiveSucceeds(s.store, s.workers[i], request, fault);
      case ClaimRunStep(i, fault) => ClaimSucceeds(s.store, s.workers[i], fault);
      case FinishStep(i, fault, serializable) => FinishSucceeds(s.store, s.workers[i], fault, serializable);
      case PersistStep(i, fault) => PersistSucceeds(s.store, s.workers[i], fault);
      case CommitStep(i, fault) => CommitSucceeds(s.store, s.workers[i], fault);
      case ReconcileStep(kind, key, reason, fault) =>
        if (kind, key) in s.store.claims {
          ClaimOperationsSucceed(s.store, kind, key, s.store.claims[(kind, key)].claimId, Unknown, Object(map["reason" := Str(reason)]), fault);
        }
      case _ =>
    }
  }

  lemma {:induction false} RowsAndClaimsPersist(steps: seq<Step>, more: seq<Step>)
    ensures RowsSucceed(Run(steps).store, Run(steps + more).store)
    ensures ClaimsSucceed(Run(steps).store, Run(steps + more).store)
    decreases |more|
  {
    hide Next, Run;
    if more == [] {
      assert steps + more == steps;
    } else {
      var front, last := more[..|more| - 1], more[|more| - 1];
      RowsAndClaimsPersist(steps, front);
      assert steps + more == steps + front + [last];
      RunContinues(steps, front, last);
      NextSucceeds(Run(steps + front), last);
    }
  }

  // ------------------------------------------------------ truthful responses

  /** A committed response that says it executed: the handler ran exactly once,
      and its claim is settled as succeeded, from then on. */
  lemma ExecutedMeansRanOnce(steps: seq<Step>, more: seq<Step>, scope: Endpoint, key: string)
    requires (scope, key) in Run(steps).store.rows && Run(steps).store.rows[(scope, key)].Complete?
    requires !scope.Votes? && Run(steps).store.rows[(scope, key)].response.executed == Some(true)
    ensures var r := Run(steps).store.rows[(scope, key)].response;
            scope.Resumes? && r.approvalId.Some? ==> r.approvalId.value == Run(steps).store.rows[(scope, key)].request.target
    ensures var at := if scope.Decisions? then (DecisionRun, key) else (ApprovalRun, Run(steps).store.rows[(scope, key)].request.target);
            var t := Run(steps + more);
            at in t.store.claims && t.store.claims[at].status.Succeeded? && RunsOf(t, at) == 1
  {
    hide Run, A.Valid, A.Advances;
    var s, t := Run(steps), Run(steps + more);
    ReachableIsSafe(steps);
    assert StoreOk(s) && RowOk(s, (scope, key));
    var at := if scope.Decisions? then (DecisionRun, key) else (ApprovalRun, s.store.rows[(scope, key)].request.target);
    assert Done(s, at);
    RowsAndClaimsPersist(steps, more);
    RunsOnlyGrow(steps, more, at);
    ReachableIsSafe(steps + more);
    assert StoreOk(t) && ClaimOk(t, at);
  }

  /** A committed decision that says it did not execute: the handler never
      started under that key, and never will. */
  lemma NotExecutedMeansNeverRuns(steps: seq<Step>, more: seq<Step>, key: string)
    requires (Decisions, key) in Run(steps).store.rows && Run(steps).store.rows[(Decisions, key)].Complete?
    requires Run(steps).store.rows[(Decisions, key)].response.executed == Some(false)
    ensures RunsOf(Run(steps + more), (DecisionRun, key)) == 0
  {
    hide Run;
    var t := Run(steps + more);
    RowsAndClaimsPersist(steps, more);
    ReachableIsSafe(steps + more);
    assert StoreOk(t) && RowOk(t, (Decisions, key)) && ClaimOk(t, (DecisionRun, key));
  }

  // ----------------------------------------------------------- exact replay

  /** Every locally cached answer is, up to JSON encoding, the committed one. */
  lemma CacheAgreesWithStore(steps: seq<Step>, i: nat, key: string)
    requires i in Run(steps).workers && key in Run(steps).workers[i].cache
    ensures var s := Run(steps);
            var (request, response) := s.workers[i].cache[key];
            && request.key == key && (request.endpoint, key) in s.store.rows
            && s.store.rows[(request.endpoint, key)] == Complete(request, NormalResponse(response))
  {
    ReachableIsSafe(steps);
    hide Run, Inv, StoreOk;
    var s := Run(steps);
    Unfolded(s, i);
    assert CachedOk(s, s.workers[i], key);
  }

  /** The worker remembers the key for a different request than the one at hand. */
  predicate Shadowed(w: Worker, request: Request) {
    if request.key in w.cache then w.cache[request.key].0 != request
    else (request.endpoint, request.key) in w.uncommitted && w.uncommitted[(request.endpoint, request.key)].0 != request
  }

  /** Replay, exactly: of a committed record, an idle worker answers its request
      with the committed response if and only if it does not remember the key for
      another request; it answers every other request with a conflict. */
  lemma CommittedIsReplayed(steps: seq<Step>, i: nat, request: Request, asked: Request)
    requires var s := Run(steps); var at := (request.endpoint, request.key);
             && i in s.workers && s.workers[i].pc.Idle?
             && at in s.store.rows && s.store.rows[at].Complete? && s.store.rows[at].request == request
    requires asked.endpoint == request.endpoint && asked.key == request.key
    ensures var s := Run(steps);
            var outcome := Receive(s.store, s.workers[i], asked, NoFault).2;
            && (asked == request && !Shadowed(s.workers[i], request) <==>
                  outcome.Replayed? && NormalResponse(outcome.response) == s.store.rows[(request.endpoint, request.key)].response)
            && (asked != request || Shadowed(s.workers[i], request) ==> outcome == KeyConflict)
  {
    hide Run;
    var s := Run(steps);
    var w, at := s.workers[i], (request.endpoint, request.key);
    ReachableIsSafe(steps);
    hide Inv, PcOk, ManagerOk, CacheOk, UncommittedOk;
    Unfolded(s, i);
    assert RowOk(s, at);
    if request.key in w.cache { assert CachedOk(s, w, request.key) by { assert CacheOk(s, w); ACached(s, w, request.key); } }
    if at in w.uncommitted { AKept(s, i, w, at); }
  }

  lemma ACached(s: System, w: Worker, key: string)
    requires CacheOk(s, w) && key in w.cache
    ensures CachedOk(s, w, key)
  {}

  lemma AKept(s: System, i: nat, w: Worker, at: (Endpoint, string))
    requires UncommittedOk(s, i, w) && at in w.uncommitted
    ensures KeptOk(s, i, w, at)
  {}

  /** Only a key used under two endpoints is ever shadowed: the request that
      shadows a committed one belongs to another endpoint. */
  lemma ShadowsCrossEndpoints(steps: seq<Step>, i: nat, request: Request)
    requires var s := Run(steps); var at := (request.endpoint, request.key);
             && i in s.workers && at in s.store.rows && s.store.rows[at].Complete? && s.store.rows[at].request == request
    requires Shadowed(Run(steps).workers[i], request)
    ensures var w := Run(steps).workers[i];
            if request.key in w.cache then w.cache[request.key].0.endpoint != request.endpoint
            else w.uncommitted[(request.endpoint, request.key)].0.endpoint != request.endpoint
  {
    hide Run;
    var s := Run(steps);
    var w, at := s.workers[i], (request.endpoint, request.key);
    ReachableIsSafe(steps);
    hide Inv, PcOk, ManagerOk, StoreOk, CacheOk, UncommittedOk;
    Unfolded(s, i);
    if request.key in w.cache { ACached(s, w, request.key); } else { AKept(s, i, w, at); }
  }

  /** An answer whose commit failed is committed, and given, on the next try. */
  lemma KeptAnswerIsCommitted(steps: seq<Step>, i: nat, request: Request)
    requires var s := Run(steps); var at := (request.endpoint, request.key);
             && i in s.workers && at in s.workers[i].uncommitted && s.workers[i].uncommitted[at].0 == request
             && request.key !in s.workers[i].cache
    ensures var s := Run(steps); var at := (request.endpoint, request.key);
            var kept := s.workers[i].uncommitted[at].1;
            var (t, n, outcome) := Receive(s.store, s.workers[i], request, NoFault);
            && outcome == Replayed(kept) && n.cache == s.workers[i].cache[request.key := (request, kept)] && at !in n.uncommitted
            && t == s.store.(rows := s.store.rows[at := Complete(request, NormalResponse(kept))])
  {
    hide Run;
    var s := Run(steps);
    ReachableIsSafe(steps);
    hide Inv, PcOk, ManagerOk, StoreOk, CacheOk, UncommittedOk;
    Unfolded(s, i);
    AKept(s, i, s.workers[i], (request.endpoint, request.key));
  }

  // --------------------------------------------------- committed approval state

  lemma {:induction false} LogAdvances(log: seq<Payload>, j: nat, k: nat)
    requires j <= k < |log|
    requires forall n :: 0 < n < |log| ==> A.Advances(log[n - 1].manager, log[n].manager)
    ensures A.Advances(log[j].manager, log[k].manager)
    decreases k - j
  {
    if j == k {
      A.AdvancesIsReflexive(log[j].manager);
    } else {
      hide A.Advances;
      LogAdvances(log, j, k - 1);
      A.AdvancesIsTransitive(log[j].manager, log[k - 1].manager, log[k].manager);
    }
  }

  lemma NextLogs(s: System, step: Step)
    ensures s.log <= Next(s, step).log
  {
    hide A.Step, A.LookStep, A.ResumeStep, A.Valid, Receive, Decide, Vote, ResumeApproval, ReadApproval, Persist, Commit, Finish, ClaimRun;
  }

  lemma {:induction false} LogOnlyGrows(steps: seq<Step>, more: seq<Step>)
    ensures Run(steps).log <= Run(steps + more).log
    decreases |more|
  {
    hide Next, Run;
    if more == [] {
      assert steps + more == steps;
    } else {
      var front, last := more[..|more| - 1], more[|more| - 1];
      LogOnlyGrows(steps, front);
      assert steps + more == steps + front + [last];
      RunContinues(steps, front, last);
      NextLogs(Run(steps + front), last);
    }
  }

  /** Over any run the committed approval states form one history: the revision
      counts it, the store holds its last entry, no entry is lost or replaced, and
      each later one keeps every request's bindings, votes and final state. */
  lemma ApprovalHistoryIsMonotone(steps: seq<Step>, more: seq<Step>, j: nat, k: nat)
    requires j <= k < |Run(steps + more).log|
    ensures Run(steps).log <= Run(steps + more).log
    ensures Revision(Run(steps).store) == |Run(steps).log|
    ensures Run(steps).log != [] ==>
              Run(steps).store.state.Some? && Run(steps).store.state.value.payload == Run(steps).log[|Run(steps).log| - 1]
    ensures A.Advances(Run(steps + more).log[j].manager, Run(steps + more).log[k].manager)
  {
    hide Run, A.Advances, A.Valid;
    LogOnlyGrows(steps, more);
    ReachableIsSafe(steps);
    ReachableIsSafe(steps + more);
    assert StoreOk(Run(steps)) && StoreOk(Run(steps + more));
    LogAdvances(Run(steps + more).log, j, k);
  }

  // ------------------------------------------------ a key used under two endpoints

  ghost predicate Reachable(s: System) { exists steps :: Run(steps) == s }

  lemma NextIsReachable(s: System, step: Step)
    requires Reachable(s)
    ensures Reachable(Next(s, step)) && Inv(Next(s, step))
  {
    var steps :| Run(steps) == s;
    RunContinues(steps, [], step);
    assert steps + [] == steps;
    ReachableIsSafe(steps + [step]);
  }

  function Fresh(): A.Manager { A.Manager(1.0, "approval", false, 1, map[]) }

  /** An escalation that opens an approval. */
  function SampleAsk(): A.Op {
    A.Ask(DecisionRecord(Escalate, Some("approver"), "", [], "", [], [], 0), A.Binding("", "", "", ""), None, 0.0, None)
  }

  function Blank(): Worker { Worker(false, Idle, map[], map[], None, Fresh(), map[], {}, {}) }

  lemma TwoWorkersStart() returns (s: System)
    ensures Reachable(s) && Inv(s) && s.workers == map[0 := Blank(), 1 := Blank()] && s.store == Initial().store
  {
    assert Run([]) == Initial();
    NextIsReachable(Initial(), StartStep(0, false, Fresh(), {}));
    var one := Next(Initial(), StartStep(0, false, Fresh(), {}));
    assert A.Valid(Fresh());
    hide Inv, Reachable;
    assert one.workers == map[0 := Blank()];
    NextIsReachable(one, StartStep(1, false, Fresh(), {}));
    s := Next(one, StartStep(1, false, Fresh(), {}));
    assert s.workers == map[0 := Blank(), 1 := Blank()];
  }

  /** A worker receives a request under a key that is in no use. */
  lemma FirstReceipt(s: System, i: nat, request: Request) returns (t: System)
    requires Reachable(s) && i in s.workers && s.workers[i].pc.Idle?
    requires request.key !in s.workers[i].cache && s.workers[i].uncommitted == map[]
    requires (request.endpoint, request.key) !in s.store.rows
    ensures Reachable(t) && Inv(t) && t == Reserving(s, i, request)
  {
    hide Reachable, Inv;
    t := Next(s, ReceiveStep(i, request, NoFault));
    NextIsReachable(s, ReceiveStep(i, request, NoFault));
  }

  lemma Commits(s: System, i: nat) returns (t: System)
    requires Reachable(s) && Inv(s) && i in s.workers && s.workers[i].pc.Committing? && Genuine(s.workers[i].pc.ticket)
    ensures Reachable(t) && Inv(t)
    ensures t == Answered(s, i, s.workers[i].pc.ticket.request, s.workers[i].pc.response)
  {
    var request := s.workers[i].pc.ticket.request;
    assert Reserves(s, i, request.endpoint, request) by { hide StoreOk; Unfolded(s, i); }
    hide Reachable, Inv;
    t := Next(s, CommitStep(i, NoFault));
    NextIsReachable(s, CommitStep(i, NoFault));
  }

  lemma Persists(s: System, i: nat) returns (t: System)
    requires Reachable(s) && i in s.workers && s.workers[i].pc.Persisting?
    requires s.workers[i].revision == (if s.store.state.Some? then Some(s.store.state.value.revision) else None)
    requires s.store.state.Some? ==> s.store.state.value.revision >= 1
    ensures Reachable(t) && Inv(t)
    ensures var w := s.workers[i];
            var saved := StateRow(Revision(s.store) + 1, PayloadOf(w));
            t == Put(s, i, w.(revision := Some(saved.revision), pc := Committing(w.pc.ticket, w.pc.response)))
                   .(store := s.store.(state := Some(saved)), log := s.log + [PayloadOf(w)])
  {
    hide Reachable, Inv;
    t := Next(s, PersistStep(i, NoFault));
    NextIsReachable(s, PersistStep(i, NoFault));
  }

  lemma Decides(s: System, i: nat, verdict: Verdict) returns (t: System)
    requires Reachable(s) && i in s.workers && s.workers[i].pc.Reserved? && s.workers[i].pc.ticket.scope == Decisions
    requires A.Valid(s.workers[i].manager) && Fits(s.workers[i].shadow, verdict)
    ensures Reachable(t) && Inv(t) && t == Put(s, i, Decide(s.workers[i], verdict))
  {
    hide Reachable, Inv, Decide, A.Valid;
    t := Next(s, DecideStep(i, verdict));
    NextIsReachable(s, DecideStep(i, verdict));
  }

  lemma SampleVerdict(w: Worker)
    requires w.pc.Reserved? && w.pc.ticket.scope == Decisions && w.manager == Fresh()
    requires w.completed == {} && w.pending == map[] && !w.shadow
    ensures A.Valid(Fresh())
    ensures var n := Decide(w, Escalated(SampleAsk(), AsEscalation, "d"));
            && n.pc.Persisting? && n.pc.ticket == w.pc.ticket && n == w.(pc := n.pc, manager := n.manager, pending := n.pending)
            && n.pending.Keys == {A.RequestId("approval", 1)} && A.RequestId("approval", 1) in n.manager.requests
  {
    var asked := A.Step(Fresh(), SampleAsk());
    assert asked.1.Ok? && asked.1.value.id == A.RequestId("approval", 1);
  }

  /** Worker 0 escalates a decision and holds its approval. */
  lemma Escalates() returns (s: System)
    ensures Reachable(s) && Inv(s) && s.workers.Keys == {0, 1} && s.workers[1] == Blank()
    ensures s.workers[0].pc.Idle? && s.workers[0].uncommitted == map[] && s.workers[0].cache.Keys == {"e"}
    ensures s.workers[0].pending.Keys == {A.RequestId("approval", 1)}
    ensures A.RequestId("approval", 1) in s.workers[0].manager.requests && !s.workers[0].shadow
    ensures s.store.rows.Keys == {(Decisions, "e")}
    ensures s.store.state.Some? && s.store.state.value.revision == 1 && s.workers[0].revision == Some(1)
  {
    hide Reachable, Inv, Decide, A.Valid;
    s := TwoWorkersStart();
    s := FirstReceipt(s, 0, Request(Decisions, "e", "", ""));
    SampleVerdict(s.workers[0]);
    hide Fresh;
    s := Decides(s, 0, Escalated(SampleAsk(), AsEscalation, "d"));
    s := Persists(s, 0);
    s := Commits(s, 0);
  }

  lemma DenialPersists(w: Worker, op: A.Op)
    requires w.pc.Reserved? && w.pc.ticket.scope == Votes && A.Valid(w.manager) && op.Deny? && op.id in w.pending
    ensures var n := Vote(w, op, Verified);
            n == w.(pc := n.pc, manager := n.manager) && n.pc.Persisting? && n.pc.ticket == w.pc.ticket
  {
    assert w.manager.nextId >= 0;
    hide A.Step, A.Valid;
  }

  lemma VotingIsNext(s: System, i: nat, op: A.Op, identity: Identity)
    requires Enabled(s, VoteStep(i, op, identity))
    ensures Next(s, VoteStep(i, op, identity)) == Put(s, i, Vote(s.workers[i], op, identity))
  {
    hide A.Valid, Vote;
  }

  lemma Denies(s: System, op: A.Op) returns (t: System)
    requires Reachable(s) && Inv(s) && 0 in s.workers && s.workers[0].pc.Reserved? && s.workers[0].pc.ticket.scope == Votes
    requires op.Deny? && op.id in s.workers[0].pending && op.id == s.workers[0].pc.ticket.request.target
    ensures Reachable(t) && Inv(t)
    ensures 0 in t.workers
    ensures var w := t.workers[0];
            && t == Put(s, 0, w) && w == s.workers[0].(pc := w.pc, manager := w.manager)
            && w.pc.Persisting? && w.pc.ticket == s.workers[0].pc.ticket
  {
    AValid(s, 0);
    DenialPersists(s.workers[0], op);
    VotingIsNext(s, 0, op, Verified);
    hide Reachable, Inv, A.Step, A.Valid, Vote, Next;
    t := Next(s, VoteStep(0, op, Verified));
    NextIsReachable(s, VoteStep(0, op, Verified));
  }

  /** A vote and a decision under the key "k": each worker answers one of them, both
      are committed, and worker 0 then refuses the decision that worker 1 answered. */
  lemma SharedKeyIsNotReplayed() returns (steps: seq<Step>, request: Request)
    ensures var s := Run(steps);
            && 0 in s.workers && s.workers[0].pc.Idle?
            && (Decisions, request.key) in s.store.rows
            && s.store.rows[(Decisions, request.key)] == Complete(request, NormalResponse(Failure(404, "handler_not_found")))
            && Receive(s.store, s.workers[0], request, NoFault).2 == KeyConflict
  {
    hide Inv, Reachable, A.Valid, Receive, Run;
    request := Request(Decisions, "k", "", "");
    var s := Escalates();
    s := FirstReceipt(s, 0, Request(Votes, "k", A.RequestId("approval", 1), ""));
    s := Denies(s, A.Deny(A.RequestId("approval", 1), "approver", None, None));
    s := Persists(s, 0);
    s := Commits(s, 0);
    assert s.workers[0].cache["k"].0 == Request(Votes, "k", A.RequestId("approval", 1), "");
    var w := s.workers[0];
    s := FirstReceipt(s, 1, request);
    AValid(s, 1);
    s := Decides(s, 1, NoHandler);
    s := Commits(s, 1);
    assert s.workers[0] == w;
    SharedKeyConflicts(s.store, w, request);
    steps := StepsTo(s);
  }

  lemma SharedKeyConflicts(s: Store, w: Worker, request: Request)
    requires request.key in w.cache && w.cache[request.key].0 != request
    ensures Receive(s, w, request, NoFault).2 == KeyConflict
  {}

  lemma StepsTo(s: System) returns (steps: seq<Step>)
    requires Reachable(s)
    ensures Run(steps) == s
  {
    steps :| Run(steps) == s;
  }

  lemma AValid(s: System, i: nat)
    requires Inv(s) && i in s.workers
    ensures A.Valid(s.workers[i].manager)
  {
    Unfolded(s, i);
  }
}
