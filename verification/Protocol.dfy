/** Any number of service workers over one durable store: every interleaving of
    their steps, with failed transactions, crashes, restarts and operator
    reconciliation (governance/service.py over governance/storage.py). */
module Protocol {
  import opened Text
  import opened DurableStore
  import opened DurableWorker
  import A = Approval

  /** The store, the live workers, and what happened: how often each handler was
      started, who acquired each reservation and claim, and the committed states. */
  datatype System = System(
    store: Store,
    workers: map<nat, Worker>,
    runs: map<(Kind, string), nat>,
    owner: map<(Endpoint, string), nat>,
    claimant: map<(Kind, string), nat>,
    log: seq<Payload>)

  function Initial(): System { System(Store(map[], map[], None), map[], map[], map[], map[], []) }

  function RunsOf(s: System, at: (Kind, string)): nat {
    if at in s.runs then s.runs[at] else 0
  }

  datatype Step =
    | ReceiveStep(i: nat, request: Request, fault: Fault)
    | DecideStep(i: nat, verdict: Verdict)
    | ClaimRunStep(i: nat, fault: Fault)
    | RunStep(i: nat, returned: Option<Json>)
    | FinishStep(i: nat, fault: Fault, serializable: bool)
    | PersistStep(i: nat, fault: Fault)
    | CommitStep(i: nat, fault: Fault)
    | VoteStep(i: nat, op: A.Op, identity: Identity)
    | ResumeStep(i: nat, seen: real, op: A.Op, identity: Identity, approver: bool, recheck: Recheck)
    | ReadStep(i: nat, id: string, now: real)
    | CrashStep(i: nat)
    | StartStep(i: nat, shadow: bool, manager: A.Manager, kept: set<string>)
    | ReconcileStep(kind: Kind, key: string, reason: string, fault: Fault)

  predicate At(s: System, i: nat, w: Worker) { i in s.workers && s.workers[i] == w }

  function Put(s: System, i: nat, w: Worker): System { s.(workers := s.workers[i := w]) }

  // ----------------------------------------------------------------- steps

  function DoReceive(s: System, i: nat, request: Request, fault: Fault): System
    requires i in s.workers && s.workers[i].pc.Idle?
  {
    var (t, w, outcome) := Receive(s.store, s.workers[i], request, fault);
    var at := (request.endpoint, request.key);
    s.(store := t, workers := s.workers[i := w],
       owner := if outcome.Acquired? then s.owner[at := i] else s.owner)
  }

  function DoClaim(s: System, i: nat, fault: Fault): System
    requires i in s.workers && s.workers[i].pc.Claiming?
  {
    var w := s.workers[i];
    var (t, next) := ClaimRun(s.store, w, fault);
    s.(store := t, workers := s.workers[i := next],
       claimant := if next.pc.Running? then s.claimant[(w.pc.kind, w.pc.key) := i] else s.claimant)
  }

  function DoRun(s: System, i: nat, returned: Option<Json>): System
    requires i in s.workers && s.workers[i].pc.Running?
  {
    var at := (s.workers[i].pc.kind, s.workers[i].pc.key);
    Put(s, i, RunHandler(s.workers[i], returned)).(runs := s.runs[at := RunsOf(s, at) + 1])
  }

  function DoFinish(s: System, i: nat, fault: Fault, serializable: bool): System
    requires i in s.workers && s.workers[i].pc.Finishing?
  {
    var (t, w) := Finish(s.store, s.workers[i], fault, serializable);
    Put(s, i, w).(store := t)
  }

  function DoPersist(s: System, i: nat, fault: Fault): System
    requires i in s.workers && (s.workers[i].pc.Persisting? || s.workers[i].pc.PersistingExpiry?)
  {
    var (t, w) := Persist(s.store, s.workers[i], fault);
    Put(s, i, w).(store := t, log := if t.state != s.store.state then s.log + [PayloadOf(s.workers[i])] else s.log)
  }

  function DoCommit(s: System, i: nat, fault: Fault): System
    requires i in s.workers && s.workers[i].pc.Committing?
  {
    var (t, w) := Commit(s.store, s.workers[i], fault);
    Put(s, i, w).(store := t)
  }

  /** A restored manager: the committed one, up to the order in which JSON lists
      the identity references of the votes. */
  ghost predicate RestoredFrom(m: A.Manager, n: A.Manager) {
    && n == m.(requests := n.requests) && n.requests.Keys == m.requests.Keys
    && forall id :: id in m.requests ==>
         A.SameUpToReferenceOrder(m.requests[id], n.requests[id]) && A.DistinctKeys(n.requests[id].voteIdentities)
  }

  /** What a process may hold after `__init__`: a fresh manager over an empty
      store, otherwise the committed state; approvals without a handler are dropped. */
  ghost predicate CanStart(s: System, i: nat, manager: A.Manager) {
    && i !in s.workers
    && (s.store.state.None? ==> A.Valid(manager) && manager.requests == map[])
    && (s.store.state.Some? ==> RestoredFrom(s.store.state.value.payload.manager, manager))
  }

  function DoStart(s: System, i: nat, shadow: bool, manager: A.Manager, kept: set<string>): System {
    var pending := if s.store.state.Some? then s.store.state.value.payload.pending else map[];
    var revision := if s.store.state.Some? then Some(s.store.state.value.revision) else None;
    Put(s, i, Worker(shadow, Idle, map[], map[], revision, manager, map id | id in pending && id in kept :: pending[id], {}, {}))
  }

  /** `reconcile_execution`: a claim that is still open becomes unknown. */
  function DoReconcile(s: System, kind: Kind, key: string, reason: string, fault: Fault): System {
    if (kind, key) in s.store.claims && s.store.claims[(kind, key)].status.Claimed? then
      s.(store := Transact(s.store, fault,
           SettleStep(s.store, kind, key, s.store.claims[(kind, key)].claimId, Unknown, Object(map["reason" := Str(reason)]))).0)
    else s
  }

  ghost predicate Enabled(s: System, step: Step) {
    match step
    case ReceiveStep(i, _, _) => i in s.workers && s.workers[i].pc.Idle?
    case DecideStep(i, verdict) =>
      && i in s.workers && s.workers[i].pc.Reserved? && s.workers[i].pc.ticket.scope == Decisions
      && A.Valid(s.workers[i].manager) && Fits(s.workers[i].shadow, verdict)
    case ClaimRunStep(i, _) => i in s.workers && s.workers[i].pc.Claiming?
    case RunStep(i, _) => i in s.workers && s.workers[i].pc.Running?
    case FinishStep(i, _, _) => i in s.workers && s.workers[i].pc.Finishing?
    case PersistStep(i, _) => i in s.workers && (s.workers[i].pc.Persisting? || s.workers[i].pc.PersistingExpiry?)
    case CommitStep(i, _) => i in s.workers && s.workers[i].pc.Committing?
    case VoteStep(i, op, _) =>
      && i in s.workers && s.workers[i].pc.Reserved? && s.workers[i].pc.ticket.scope == Votes
      && A.Valid(s.workers[i].manager) && (op.Approve? || op.Deny?) && op.id == s.workers[i].pc.ticket.request.target
    case ResumeStep(i, _, op, _, _, recheck) =>
      && i in s.workers && s.workers[i].pc.Reserved? && s.workers[i].pc.ticket.scope == Resumes
      && A.Valid(s.workers[i].manager) && op.Resume? && op.id == s.workers[i].pc.ticket.request.target
      && Suits(s.workers[i].shadow, recheck)
    case ReadStep(i, _, _) => i in s.workers && s.workers[i].pc.Idle?
    case CrashStep(i) => i in s.workers
    case StartStep(i, _, manager, _) => CanStart(s, i, manager)
    case ReconcileStep(_, _, _, _) => true
  }

  ghost function Do(s: System, step: Step): System
    requires Enabled(s, step)
  {
    match step
    case ReceiveStep(i, request, fault) => DoReceive(s, i, request, fault)
    case DecideStep(i, verdict) => Put(s, i, Decide(s.workers[i], verdict))
    case ClaimRunStep(i, fault) => DoClaim(s, i, fault)
    case RunStep(i, returned) => DoRun(s, i, returned)
    case FinishStep(i, fault, serializable) => DoFinish(s, i, fault, serializable)
    case PersistStep(i, fault) => DoPersist(s, i, fault)
    case CommitStep(i, fault) => DoCommit(s, i, fault)
    case VoteStep(i, op, identity) => Put(s, i, Vote(s.workers[i], op, identity))
    case ResumeStep(i, seen, op, identity, approver, recheck) =>
      Put(s, i, ResumeApproval(s.workers[i], seen, op, identity, approver, recheck))
    case ReadStep(i, id, now) => Put(s, i, ReadApproval(s.workers[i], id, now))
    case CrashStep(i) => s.(workers := s.workers - {i})
    case StartStep(i, shadow, manager, kept) => DoStart(s, i, shadow, manager, kept)
    case ReconcileStep(kind, key, reason, fault) => DoReconcile(s, kind, key, reason, fault)
  }

  /** A step that is not enabled does not happen. */
  ghost function Next(s: System, step: Step): System {
    if Enabled(s, step) then Do(s, step) else s
  }

  ghost function Run(steps: seq<Step>): System {
    if steps == [] then Initial() else Next(Run(steps[..|steps| - 1]), steps[|steps| - 1])
  }

  // ------------------------------------------------------------- invariant

  /** The handler under this claim ran exactly once and the claim says so. */
  predicate Done(s: System, at: (Kind, string)) {
    at in s.store.claims && s.store.claims[at].status.Succeeded? && RunsOf(s, at) == 1
  }

  /** What a response stored for a request promises about the handler. */
  predicate Truthful(s: System, scope: Endpoint, request: Request, r: Response) {
    match scope
    case Decisions =>
      && (r.executed == Some(true) ==> Done(s, (DecisionRun, request.key)))
      && (r.executed == Some(false) ==> (DecisionRun, request.key) !in s.store.claims)
    case Votes => true
    case Resumes =>
      && (r.executed == Some(true) ==> Done(s, (ApprovalRun, request.target)))
      && (r.approvalId.Some? ==> r.approvalId.value == request.target)
  }

  predicate RowOk(s: System, at: (Endpoint, string))
    requires at in s.store.rows
  {
    var row := s.store.rows[at];
    && row.request.endpoint == at.0 && row.request.key == at.1
    && at in s.owner
    && (row.Complete? ==> Truthful(s, at.0, row.request, row.response) && NormalResponse(row.response) == row.response)
  }

  predicate ClaimOk(s: System, at: (Kind, string)) {
    && RunsOf(s, at) <= 1
    && (at !in s.store.claims ==> RunsOf(s, at) == 0)
    && (at in s.store.claims ==> at in s.claimant && (at.0.DecisionRun? ==> (Decisions, at.1) in s.store.rows))
  }

  ghost predicate LogOk(s: System) {
    && (s.store.state.None? <==> s.log == [])
    && (s.store.state.Some? ==>
          s.store.state.value.revision == |s.log| && s.store.state.value.payload == s.log[|s.log| - 1])
    && (forall k :: 0 <= k < |s.log| ==> A.Valid(s.log[k].manager))
    && (forall k :: 0 < k < |s.log| ==> A.Advances(s.log[k - 1].manager, s.log[k].manager))
  }

  ghost predicate StoreOk(s: System) {
    && (forall at {:trigger RowOk(s, at)} :: at in s.store.rows ==> RowOk(s, at))
    && (forall at: (Kind, string) {:trigger ClaimOk(s, at)} :: ClaimOk(s, at))
    && LogOk(s)
  }

  predicate HasTicket(pc: Pc) {
    pc.Reserved? || pc.Claiming? || pc.Running? || pc.Finishing? || pc.Persisting? || pc.Committing?
  }

  /** A ticket under its own namespace; the refusal of a non-approver is not. */
  predicate Genuine(t: Ticket) { t.request.endpoint == t.scope }

  /** Worker `i` alone may still answer this reservation. */
  predicate Reserves(s: System, i: nat, scope: Endpoint, request: Request) {
    var at := (scope, request.key);
    at in s.store.rows && s.store.rows[at] == InProgress(request) && at in s.owner && s.owner[at] == i
  }

  predicate CachedOk(s: System, w: Worker, key: string)
    requires key in w.cache
  {
    var (request, response) := w.cache[key];
    && request.key == key && (request.endpoint, key) in s.store.rows
    && s.store.rows[(request.endpoint, key)] == Complete(request, NormalResponse(response))
  }

  predicate CacheOk(s: System, w: Worker) {
    forall key {:trigger CachedOk(s, w, key)} :: key in w.cache ==> CachedOk(s, w, key)
  }

  predicate KeptOk(s: System, i: nat, w: Worker, at: (Endpoint, string))
    requires at in w.uncommitted
  {
    var (request, response) := w.uncommitted[at];
    && request.key == at.1
    && (request.endpoint == at.0 ==> Reserves(s, i, at.0, request) && Truthful(s, at.0, request, response))
  }

  predicate UncommittedOk(s: System, i: nat, w: Worker) {
    forall at {:trigger KeptOk(s, i, w, at)} :: at in w.uncommitted ==> KeptOk(s, i, w, at)
  }

  predicate Holds(s: System, i: nat, at: (Kind, string), claimId: ClaimId) {
    && at in s.store.claims && s.store.claims[at].claimId == claimId
    && at in s.claimant && s.claimant[at] == i
    && (s.store.claims[at].status.Claimed? || s.store.claims[at].status.Unknown?)
  }

  predicate PcOk(s: System, i: nat, w: Worker) {
    var pc := w.pc;
    && (HasTicket(pc) && Genuine(pc.ticket) ==>
          && Reserves(s, i, pc.ticket.scope, pc.ticket.request)
          && ((pc.ticket.scope, pc.ticket.request.key) in w.uncommitted ==>
                w.uncommitted[(pc.ticket.scope, pc.ticket.request.key)].0.endpoint != pc.ticket.scope))
    && (HasTicket(pc) && !pc.Committing? ==> Genuine(pc.ticket))
    && (pc.Reserved? && pc.ticket.scope == Decisions ==> (DecisionRun, pc.ticket.request.key) !in s.store.claims)
    && (pc.Claiming? || pc.Running? || pc.Finishing? ==>
          && (pc.kind.DecisionRun? ==> pc.ticket.scope == Decisions && pc.key == pc.ticket.request.key)
          && (pc.kind.ApprovalRun? ==>
                pc.ticket.scope == Resumes && pc.key == pc.ticket.request.target
                && (pc.shown.approvalId.Some? ==> pc.shown.approvalId.value == pc.key)))
    && (pc.Claiming? && pc.kind.DecisionRun? ==> (DecisionRun, pc.key) !in s.store.claims)
    && (pc.Running? ==> Holds(s, i, (pc.kind, pc.key), pc.claimId) && RunsOf(s, (pc.kind, pc.key)) == 0)
    && (pc.Finishing? ==> Holds(s, i, (pc.kind, pc.key), pc.claimId) && RunsOf(s, (pc.kind, pc.key)) == 1)
    && (pc.Persisting? || pc.Committing? ==>
          Genuine(pc.ticket) ==> Truthful(s, pc.ticket.scope, pc.ticket.request, pc.response))
  }

  ghost predicate ManagerOk(s: System, w: Worker) {
    && A.Valid(w.manager)
    && (w.revision.Some? ==>
          1 <= w.revision.value <= |s.log| && A.Advances(s.log[w.revision.value - 1].manager, w.manager))
  }

  ghost predicate WorkerOk(s: System, i: nat, w: Worker) {
    CacheOk(s, w) && UncommittedOk(s, i, w) && PcOk(s, i, w) && ManagerOk(s, w)
  }

  ghost predicate Inv(s: System) {
    StoreOk(s) && forall i :: i in s.workers ==> WorkerOk(s, i, s.workers[i])
  }

  // ------------------------------------------------- what the others rely on

  /** A row that worker `i` relies on: answered, or reserved by it. */
  predicate RowStays(s: System, t: System, i: nat, at: (Endpoint, string)) {
    at in s.store.rows ==>
      && at in t.store.rows && at in s.owner && at in t.owner && t.owner[at] == s.owner[at]
      && (s.store.rows[at].Complete? || s.owner[at] == i ==> t.store.rows[at] == s.store.rows[at])
  }

  /** A claim keeps its id and claimant and stays done; one that worker `i` holds
      is only ever reconciled. */
  predicate ClaimStays(s: System, t: System, i: nat, at: (Kind, string)) {
    at in s.store.claims ==>
      && at in t.store.claims && t.store.claims[at].claimId == s.store.claims[at].claimId
      && at in s.claimant && at in t.claimant && t.claimant[at] == s.claimant[at]
      && (Done(s, at) ==> Done(t, at))
      && (s.claimant[at] == i ==>
            && RunsOf(t, at) == RunsOf(s, at)
            && (t.store.claims[at].status == s.store.claims[at].status
                || (s.store.claims[at].status.Claimed? && t.store.claims[at].status.Unknown?)))
  }

  /** A decision is newly claimed only while another worker reserves its key. */
  predicate KeyStays(s: System, t: System, i: nat, key: string) {
    (DecisionRun, key) in t.store.claims && (DecisionRun, key) !in s.store.claims ==>
      && (Decisions, key) in s.store.rows && s.store.rows[(Decisions, key)].InProgress?
      && (Decisions, key) in s.owner && s.owner[(Decisions, key)] != i
  }

  /** What every step of another worker leaves true for worker `i`. */
  ghost predicate Undisturbed(s: System, t: System, i: nat) {
    && (forall at: (Endpoint, string) {:trigger RowStays(s, t, i, at)} :: RowStays(s, t, i, at))
    && (forall at: (Kind, string) {:trigger ClaimStays(s, t, i, at)} :: ClaimStays(s, t, i, at))
    && (forall key: string {:trigger KeyStays(s, t, i, key)} :: KeyStays(s, t, i, key))
    && s.log <= t.log
  }

  lemma TruthfulStays(s: System, t: System, i: nat, scope: Endpoint, request: Request, r: Response)
    requires Undisturbed(s, t, i) && Truthful(s, scope, request, r)
    requires (scope, request.key) in s.store.rows && (scope, request.key) in s.owner
    requires s.store.rows[(scope, request.key)].Complete? || s.owner[(scope, request.key)] == i
    ensures Truthful(t, scope, request, r)
  {
    var key := request.key;
    assert RowStays(s, t, i, (scope, key)) && KeyStays(s, t, i, key);
    assert ClaimStays(s, t, i, (DecisionRun, key));
    assert ClaimStays(s, t, i, (ApprovalRun, request.target));
  }

  lemma CacheStays(s: System, t: System, i: nat, w: Worker)
    requires Undisturbed(s, t, i) && CacheOk(s, w)
    ensures CacheOk(t, w)
  {
    forall key | key in w.cache ensures CachedOk(t, w, key) {
      assert CachedOk(s, w, key) && RowStays(s, t, i, (w.cache[key].0.endpoint, key));
    }
  }

  lemma KeptStays(s: System, t: System, i: nat, w: Worker)
    requires Undisturbed(s, t, i) && UncommittedOk(s, i, w)
    ensures UncommittedOk(t, i, w)
  {
    forall at | at in w.uncommitted ensures KeptOk(t, i, w, at) {
      assert KeptOk(s, i, w, at) && RowStays(s, t, i, at);
      if w.uncommitted[at].0.endpoint == at.0 { TruthfulStays(s, t, i, at.0, w.uncommitted[at].0, w.uncommitted[at].1); }
    }
  }

  lemma PcStays(s: System, t: System, i: nat, w: Worker)
    requires Undisturbed(s, t, i) && PcOk(s, i, w)
    ensures PcOk(t, i, w)
  {
    var pc := w.pc;
    if HasTicket(pc) {
      var key := pc.ticket.request.key;
      assert RowStays(s, t, i, (pc.ticket.scope, key)) && KeyStays(s, t, i, key);
      if pc.Claiming? || pc.Running? || pc.Finishing? {
        assert ClaimStays(s, t, i, (pc.kind, pc.key)) && KeyStays(s, t, i, pc.key);
      }
      if (pc.Persisting? || pc.Committing?) && Genuine(pc.ticket) {
        TruthfulStays(s, t, i, pc.ticket.scope, pc.ticket.request, pc.response);
      }
    }
  }

  lemma OthersStayOk(s: System, t: System, i: nat, w: Worker)
    requires Undisturbed(s, t, i) && WorkerOk(s, i, w)
    ensures WorkerOk(t, i, w)
  {
    CacheStays(s, t, i, w);
    KeptStays(s, t, i, w);
    PcStays(s, t, i, w);
  }
}
