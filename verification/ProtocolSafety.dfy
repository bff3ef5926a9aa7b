/** The invariant of module Protocol holds in every reachable state, and what it
    gives: at-most-once execution, truthful and replayable responses, and a
    monotone approval history. */
module ProtocolSafety {
  import opened Text
  import opened DurableStore
  import opened DurableWorker
  import opened Protocol
  import A = Approval

  lemma ActorKeepsInv(s: System, t: System, i: nat)
    requires Inv(s) && i in s.workers && i in t.workers && t.workers == s.workers[i := t.workers[i]]
    requires StoreOk(t) && WorkerOk(t, i, t.workers[i])
    requires forall j :: j in s.workers && j != i ==> Undisturbed(s, t, j)
    ensures Inv(t)
  {
    hide StoreOk, WorkerOk, Undisturbed;
    forall j | j in t.workers ensures WorkerOk(t, j, t.workers[j]) {
      if j != i { OthersStayOk(s, t, j, s.workers[j]); }
    }
  }

  lemma Unfolded(s: System, i: nat)
    requires Inv(s) && i in s.workers
    ensures var w := s.workers[i];
            && StoreOk(s) && WorkerOk(s, i, w)
            && CacheOk(s, w) && UncommittedOk(s, i, w) && PcOk(s, i, w) && ManagerOk(s, w)
  {
    hide StoreOk, CacheOk, UncommittedOk, PcOk, ManagerOk;
  }

  /** A worker with the same manager, over a log that only grew. */
  lemma ManagerStays(s: System, t: System, w: Worker, n: Worker)
    requires ManagerOk(s, w) && s.log <= t.log && n.manager == w.manager && n.revision == w.revision
    ensures ManagerOk(t, n)
  {
    hide A.Valid, A.Advances;
  }

  predicate SameHistory(s: System, t: System) {
    t.store == s.store && t.runs == s.runs && t.owner == s.owner && t.claimant == s.claimant && t.log == s.log
  }

  /** A step that leaves the rows, the claims and their history, and only extends the log. */
  lemma TablesKeepStore(s: System, t: System)
    requires StoreOk(s) && LogOk(t) && s.log <= t.log
    requires t.store.rows == s.store.rows && t.store.claims == s.store.claims
    requires t.runs == s.runs && t.owner == s.owner && t.claimant == s.claimant
    ensures StoreOk(t)
    ensures forall i :: Undisturbed(s, t, i)
  {
    hide LogOk;
    forall at | at in t.store.rows ensures RowOk(t, at) { assert RowOk(s, at); }
    forall at: (Kind, string) ensures ClaimOk(t, at) { assert ClaimOk(s, at); }
    forall i ensures Undisturbed(s, t, i) {
      forall at: (Endpoint, string) ensures RowStays(s, t, i, at) { if at in s.store.rows { assert RowOk(s, at); } }
      forall at: (Kind, string) ensures ClaimStays(s, t, i, at) { assert ClaimOk(s, at); }
    }
  }

  lemma LocalKeepsStore(s: System, t: System)
    requires StoreOk(s) && SameHistory(s, t)
    ensures StoreOk(t)
    ensures forall i :: Undisturbed(s, t, i)
  {
    hide A.Valid, A.Advances, Undisturbed;
    TablesKeepStore(s, t);
  }

  /** A step that touches only worker `i`. */
  lemma LocalKeepsInv(s: System, i: nat, w: Worker)
    requires Inv(s) && i in s.workers && WorkerOk(s, i, w)
    ensures Inv(Put(s, i, w))
  {
    hide StoreOk, WorkerOk, Undisturbed;
    var t := Put(s, i, w);
    LocalKeepsStore(s, t);
    OthersStayOk(s, t, i, w);
    ActorKeepsInv(s, t, i);
  }

  lemma ManagerMoves(s: System, w: Worker, op: A.Op)
    requires ManagerOk(s, w)
    ensures var n := A.Step(w.manager, op).0; A.Valid(n) && ManagerOk(s, w.(manager := n))
  {
    assert w.manager.nextId >= 0;
    hide A.Valid, A.Advances, A.Step;
    A.StepAdvances(w.manager, op);
    if w.revision.Some? {
      A.AdvancesIsTransitive(s.log[w.revision.value - 1].manager, w.manager, A.Step(w.manager, op).0);
    }
  }

  lemma SameManager(s: System, w: Worker, n: Worker)
    requires ManagerOk(s, w) && n.revision == w.revision
    ensures n.manager == w.manager ==> ManagerOk(s, n)
    ensures ManagerOk(s, w.(manager := n.manager)) ==> ManagerOk(s, n)
  {}

  /** A worker whose cache and kept answers are unchanged. */
  lemma SameTables(s: System, i: nat, w: Worker, n: Worker)
    requires CacheOk(s, w) && UncommittedOk(s, i, w) && n.cache == w.cache && n.uncommitted == w.uncommitted
    ensures CacheOk(s, n) && UncommittedOk(s, i, n)
  {
    forall key | key in n.cache ensures CachedOk(s, n, key) { assert CachedOk(s, w, key); }
    forall at | at in n.uncommitted ensures KeptOk(s, i, n, at) { assert KeptOk(s, i, w, at); }
  }

  /** A step of worker `i` alone that leaves its cache and kept answers. */
  lemma LocalMove(s: System, i: nat, n: Worker)
    requires Inv(s) && i in s.workers
    requires n.cache == s.workers[i].cache && n.uncommitted == s.workers[i].uncommitted
    requires PcOk(s, i, n) && ManagerOk(s, n)
    ensures Inv(Put(s, i, n))
  {
    assert WorkerOk(s, i, s.workers[i]);
    hide Inv, CacheOk, UncommittedOk, PcOk, ManagerOk;
    SameTables(s, i, s.workers[i], n);
    LocalKeepsInv(s, i, n);
  }

  /** The points to which the holder of a reservation may go without a store access. */
  predicate GoesTo(s: System, w: Worker, pc: Pc)
    requires w.pc.Reserved?
  {
    match pc
    case Idle => true
    case Committing(ticket, response) =>
      (ticket == w.pc.ticket && Truthful(s, ticket.scope, ticket.request, response)) || !Genuine(ticket)
    case Persisting(ticket, response) => ticket == w.pc.ticket && Truthful(s, ticket.scope, ticket.request, response)
    case Claiming(ticket, kind, at, _, shown) =>
      && ticket == w.pc.ticket
      && (if kind.DecisionRun? then ticket.scope == Decisions && at == w.pc.ticket.request.key
          else ticket.scope == Resumes && at == w.pc.ticket.request.target && (shown.approvalId.Some? ==> shown.approvalId.value == at))
    case _ => false
  }

  lemma GoingKeepsPc(s: System, i: nat, w: Worker, n: Worker)
    requires PcOk(s, i, w) && w.pc.Reserved? && GoesTo(s, w, n.pc) && n.uncommitted == w.uncommitted
    ensures PcOk(s, i, n)
  {
    hide RunsOf, Holds, Done, Truthful;
  }

  /** What deciding leaves of the worker, and where it goes. */
  predicate Decided(s: System, w: Worker, n: Worker)
    requires w.pc.Reserved?
  {
    GoesTo(s, w, n.pc) && n == w.(pc := n.pc, manager := n.manager, pending := n.pending)
  }

  lemma EscalationShape(s: System, w: Worker, verdict: Verdict)
    requires w.pc.Reserved? && w.pc.ticket.scope == Decisions && (DecisionRun, w.pc.ticket.request.key) !in s.store.claims
    requires A.Valid(w.manager) && Fits(w.shadow, verdict) && verdict.Escalated?
    ensures var n := Decide(w, verdict);
            Decided(s, w, n) && (n.manager == w.manager || (w.manager.nextId >= 0 && n.manager == A.Step(w.manager, verdict.ask).0))
  {
    assert w.manager.nextId >= 0;
    hide A.Valid, A.Step, Done;
  }

  lemma OtherVerdictShape(s: System, w: Worker, verdict: Verdict)
    requires w.pc.Reserved? && w.pc.ticket.scope == Decisions && (DecisionRun, w.pc.ticket.request.key) !in s.store.claims
    requires A.Valid(w.manager) && Fits(w.shadow, verdict) && !verdict.Escalated?
    ensures var n := Decide(w, verdict); Decided(s, w, n) && n.manager == w.manager
  {
    hide A.Valid, A.Step, Done;
  }

  lemma DecideShape(s: System, w: Worker, verdict: Verdict)
    requires w.pc.Reserved? && w.pc.ticket.scope == Decisions && (DecisionRun, w.pc.ticket.request.key) !in s.store.claims
    requires A.Valid(w.manager) && Fits(w.shadow, verdict)
    ensures var n := Decide(w, verdict);
            && Decided(s, w, n) && w.manager.nextId >= 0
            && (n.manager == w.manager || (verdict.Escalated? && n.manager == A.Step(w.manager, verdict.ask).0))
  {
    assert w.manager.nextId >= 0;
    hide A.Valid, A.Step, Decide, Decided;
    if verdict.Escalated? { EscalationShape(s, w, verdict); } else { OtherVerdictShape(s, w, verdict); }
  }

  lemma DecideKeepsInv(s: System, i: nat, verdict: Verdict)
    requires Inv(s) && Enabled(s, DecideStep(i, verdict))
    ensures Inv(Do(s, DecideStep(i, verdict)))
  {
    var w := s.workers[i];
    assert WorkerOk(s, i, w) && PcOk(s, i, w);
    DecideShape(s, w, verdict);
    if verdict.Escalated? { ManagerMoves(s, w, verdict.ask); }
    hide A.Valid, A.Step, Inv, PcOk, Decide, GoesTo, CacheOk, UncommittedOk;
    GoingKeepsPc(s, i, w, Decide(w, verdict));
    SameManager(s, w, Decide(w, verdict));
    LocalMove(s, i, Decide(w, verdict));
  }

  lemma VoteShape(s: System, w: Worker, op: A.Op, identity: Identity)
    requires w.pc.Reserved? && w.pc.ticket.scope == Votes && A.Valid(w.manager) && (op.Approve? || op.Deny?)
    ensures var n := Vote(w, op, identity);
            && GoesTo(s, w, n.pc) && n == w.(pc := n.pc, manager := n.manager)
            && (n.manager == w.manager || n.manager == A.Step(w.manager, op).0)
  {
    hide A.Valid, A.Step, RunsOf, Done;
  }

  lemma VoteKeepsInv(s: System, i: nat, op: A.Op, identity: Identity)
    requires Inv(s) && Enabled(s, VoteStep(i, op, identity))
    ensures Inv(Do(s, VoteStep(i, op, identity)))
  {
    var w := s.workers[i];
    assert WorkerOk(s, i, w);
    VoteShape(s, w, op, identity);
    ManagerMoves(s, w, op);
    hide A.Valid, A.Step, Inv, PcOk, Vote, GoesTo, CacheOk, UncommittedOk;
    GoingKeepsPc(s, i, w, Vote(w, op, identity));
    SameManager(s, w, Vote(w, op, identity));
    LocalMove(s, i, Vote(w, op, identity));
  }

  /** The manager of a resuming worker, at each of the points where it may stop. */
  lemma ResumeMoves(s: System, w: Worker, seen: real, op: A.Op)
    requires ManagerOk(s, w) && op.Resume?
    ensures var read := A.LookStep(w.manager, op.id, Some(seen)).0;
            && ManagerOk(s, w.(manager := read))
            && ManagerOk(s, w.(manager := A.LookStep(read, op.id, op.now).0))
            && ManagerOk(s, w.(manager := A.ResumeStep(read, op.id, op.binding, op.now).0))
  {
    var read := A.LookStep(w.manager, op.id, Some(seen)).0;
    assert A.Step(w.manager, A.Look(op.id, Some(seen))).0 == read;
    ManagerMoves(s, w, A.Look(op.id, Some(seen)));
    assert A.Step(read, A.Look(op.id, op.now)).0 == A.LookStep(read, op.id, op.now).0;
    assert A.Step(read, op).0 == A.ResumeStep(read, op.id, op.binding, op.now).0;
    hide A.Valid, A.Advances, A.LookStep, A.ResumeStep, A.Step;
    ManagerMoves(s, w.(manager := read), A.Look(op.id, op.now));
    ManagerMoves(s, w.(manager := read), op);
  }

  lemma ResumeShape(s: System, w: Worker, seen: real, op: A.Op, identity: Identity, approver: bool, recheck: Recheck)
    requires w.pc.Reserved? && w.pc.ticket.scope == Resumes && op.Resume? && A.Valid(w.manager) && Genuine(w.pc.ticket)
    requires op.id == w.pc.ticket.request.target && Suits(w.shadow, recheck)
    ensures var n := ResumeApproval(w, seen, op, identity, approver, recheck);
            var read := A.LookStep(w.manager, op.id, Some(seen)).0;
            && GoesTo(s, w, n.pc) && n == w.(pc := n.pc, manager := n.manager)
            && (|| n.manager == w.manager || n.manager == read
                || n.manager == A.LookStep(read, op.id, op.now).0
                || n.manager == A.ResumeStep(read, op.id, op.binding, op.now).0)
  {
    hide A.Valid, A.LookStep, A.ResumeStep, RunsOf, Done;
  }

  lemma ResumeKeepsInv(s: System, i: nat, seen: real, op: A.Op, identity: Identity, approver: bool, recheck: Recheck)
    requires Inv(s) && Enabled(s, Step.ResumeStep(i, seen, op, identity, approver, recheck))
    ensures Inv(Do(s, Step.ResumeStep(i, seen, op, identity, approver, recheck)))
  {
    var w := s.workers[i];
    assert WorkerOk(s, i, w) && Genuine(w.pc.ticket);
    ResumeShape(s, w, seen, op, identity, approver, recheck);
    ResumeMoves(s, w, seen, op);
    hide A.Valid, A.LookStep, A.ResumeStep, Inv, PcOk, ResumeApproval, GoesTo, CacheOk, UncommittedOk;
    var n := ResumeApproval(w, seen, op, identity, approver, recheck);
    GoingKeepsPc(s, i, w, n);
    SameManager(s, w.(manager := n.manager), n);
    LocalMove(s, i, n);
  }

  lemma ReadShape(s: System, w: Worker, id: string, now: real)
    requires w.pc.Idle? && A.Valid(w.manager)
    ensures var n := ReadApproval(w, id, now);
            && (n.pc.Idle? || n.pc.PersistingExpiry?) && n == w.(pc := n.pc, manager := n.manager, announced := n.announced)
            && w.manager.nextId >= 0 && n.manager == A.Step(w.manager, A.Look(id, Some(now))).0
  {
    assert w.manager.nextId >= 0;
    assert A.Step(w.manager, A.Look(id, Some(now))).0 == A.LookStep(w.manager, id, Some(now)).0;
    hide A.LookStep;
  }

  lemma ReadKeepsInv(s: System, i: nat, id: string, now: real)
    requires Inv(s) && Enabled(s, ReadStep(i, id, now))
    ensures Inv(Do(s, ReadStep(i, id, now)))
  {
    var w := s.workers[i];
    assert WorkerOk(s, i, w);
    ReadShape(s, w, id, now);
    ManagerMoves(s, w, A.Look(id, Some(now)));
    var n := ReadApproval(w, id, now);
    assert PcOk(s, i, n) by { hide Inv, ReadApproval, A.Step, A.Valid; }
    hide A.Valid, A.Step, Inv, PcOk, ReadApproval, CacheOk, UncommittedOk;
    SameManager(s, w.(manager := n.manager), n);
    LocalMove(s, i, n);
  }

  // ------------------------------------------------------ answering a request

  /** The system after worker `i` answered a request that it reserves. */
  function Answered(s: System, i: nat, request: Request, response: Response): System
    requires i in s.workers
  {
    var w := s.workers[i];
    var at := (request.endpoint, request.key);
    Put(s, i, w.(pc := Idle, cache := w.cache[request.key := (request, response)], uncommitted := w.uncommitted - {at}))
      .(store := s.store.(rows := s.store.rows[at := Complete(request, NormalResponse(response))]))
  }

  lemma AnswerKeepsStore(s: System, i: nat, request: Request, response: Response)
    requires StoreOk(s) && i in s.workers && Reserves(s, i, request.endpoint, request)
    requires Truthful(s, request.endpoint, request, response)
    ensures StoreOk(Answered(s, i, request, response))
    ensures forall j :: j != i ==> Undisturbed(s, Answered(s, i, request, response), j)
  {
    var t := Answered(s, i, request, response);
    var at := (request.endpoint, request.key);
    assert RowOk(s, at);
    NormalIsIdempotent(response.value);
    forall p | p in t.store.rows ensures RowOk(t, p) { assert RowOk(s, p); }
    forall p: (Kind, string) ensures ClaimOk(t, p) { assert ClaimOk(s, p); }
    forall j | j != i ensures Undisturbed(s, t, j) {
      forall p: (Endpoint, string) ensures RowStays(s, t, j, p) { if p in s.store.rows { assert RowOk(s, p); } }
      forall p: (Kind, string) ensures ClaimStays(s, t, j, p) { assert ClaimOk(s, p); }
    }
  }

  /** Its own other answers are under other keys or already given. */
  lemma AnswerKeepsWorker(s: System, i: nat, request: Request, response: Response)
    requires i in s.workers && WorkerOk(s, i, s.workers[i]) && Reserves(s, i, request.endpoint, request)
    ensures WorkerOk(Answered(s, i, request, response), i, Answered(s, i, request, response).workers[i])
  {
    hide A.Valid, A.Advances;
    var w, t := s.workers[i], Answered(s, i, request, response);
    var n := t.workers[i];
    forall key | key in n.cache ensures CachedOk(t, n, key) {
      if key != request.key { assert CachedOk(s, w, key); }
    }
    forall p | p in n.uncommitted ensures KeptOk(t, i, n, p) { assert KeptOk(s, i, w, p); }
  }

  lemma AnswerKeepsInv(s: System, i: nat, request: Request, response: Response)
    requires Inv(s) && i in s.workers && Reserves(s, i, request.endpoint, request)
    requires Truthful(s, request.endpoint, request, response)
    ensures Inv(Answered(s, i, request, response))
  {
    hide StoreOk, WorkerOk, Undisturbed;
    AnswerKeepsStore(s, i, request, response);
    AnswerKeepsWorker(s, i, request, response);
    ActorKeepsInv(s, Answered(s, i, request, response), i);
  }
  /** A failed commit keeps the answer for a retry. */
  lemma KeepAnswer(s: System, i: nat, w: Worker, n: Worker)
    requires WorkerOk(s, i, w) && w.pc.Committing?
    requires n == w.(pc := Idle, uncommitted := w.uncommitted[(w.pc.ticket.scope, w.pc.ticket.request.key) := (w.pc.ticket.request, w.pc.response)])
    ensures WorkerOk(s, i, n)
  {
    hide A.Valid, A.Advances;
    forall key | key in n.cache ensures CachedOk(s, n, key) { assert CachedOk(s, w, key); }
    forall p | p in n.uncommitted ensures KeptOk(s, i, n, p) {
      if p != (w.pc.ticket.scope, w.pc.ticket.request.key) { assert KeptOk(s, i, w, p); }
    }
  }

  lemma CommitKeepsInv(s: System, i: nat, fault: Fault)
    requires Inv(s) && Enabled(s, CommitStep(i, fault))
    ensures Inv(Do(s, CommitStep(i, fault)))
  {
    hide A.Valid, A.Advances;
    var w := s.workers[i];
    var ticket, response := w.pc.ticket, w.pc.response;
    var at := (ticket.scope, ticket.request.key);
    assert WorkerOk(s, i, w);
    var (t, done) := Transact(s.store, fault, CompleteStep(s.store, ticket.scope, ticket.request, response));
    if at in s.store.rows { assert RowOk(s, at); }
    if done.Err? {
      var n := w.(pc := Idle, uncommitted := w.uncommitted[at := (ticket.request, response)]);
      KeepAnswer(s, i, w, n);
      LocalKeepsInv(s, i, n);
    } else {
      assert Genuine(ticket);
      AnswerKeepsInv(s, i, ticket.request, response);
      assert Do(s, CommitStep(i, fault)) == Answered(s, i, ticket.request, response);
    }
  }

  // ------------------------------------------------------ reserving a request

  function Reserving(s: System, i: nat, request: Request): System
    requires i in s.workers
  {
    var at := (request.endpoint, request.key);
    Put(s, i, s.workers[i].(pc := Reserved(Ticket(request.endpoint, request))))
      .(store := s.store.(rows := s.store.rows[at := InProgress(request)]), owner := s.owner[at := i])
  }

  lemma ReservationKeepsStore(s: System, i: nat, request: Request)
    requires StoreOk(s) && i in s.workers && (request.endpoint, request.key) !in s.store.rows
    ensures StoreOk(Reserving(s, i, request))
    ensures forall j :: Undisturbed(s, Reserving(s, i, request), j)
  {
    hide A.Valid, A.Advances;
    var at := (request.endpoint, request.key);
    var t := Reserving(s, i, request);
    forall p | p in t.store.rows ensures RowOk(t, p) { if p != at { assert RowOk(s, p); } }
    forall p: (Kind, string) ensures ClaimOk(t, p) { assert ClaimOk(s, p); }
    forall j ensures Undisturbed(s, t, j) {
      forall p: (Endpoint, string) ensures RowStays(s, t, j, p) { if p in s.store.rows { assert RowOk(s, p); } }
      forall p: (Kind, string) ensures ClaimStays(s, t, j, p) { assert ClaimOk(s, p); }
    }
  }

  lemma ReservationShape(s: System, i: nat, request: Request)
    requires i in s.workers && (request.endpoint, request.key) !in s.store.rows
    requires UncommittedOk(s, i, s.workers[i]) && StoreOk(s)
    ensures var t := Reserving(s, i, request);
            && PcOk(t, i, t.workers[i]) && t.log == s.log
            && t.workers == s.workers[i := t.workers[i]] && t.workers[i] == s.workers[i].(pc := t.workers[i].pc)
  {
    var at := (request.endpoint, request.key);
    assert ClaimOk(s, (DecisionRun, request.key));
    if at in s.workers[i].uncommitted { assert KeptOk(s, i, s.workers[i], at); }
    hide StoreOk, UncommittedOk, Truthful, Holds, RunsOf;
  }

  lemma ReservationKeepsInv(s: System, i: nat, request: Request)
    requires Inv(s) && i in s.workers && (request.endpoint, request.key) !in s.store.rows
    ensures Inv(Reserving(s, i, request))
  {
    var at := (request.endpoint, request.key);
    var w, t := s.workers[i], Reserving(s, i, request);
    hide A.Valid, A.Advances, Inv, StoreOk, CacheOk, UncommittedOk, Undisturbed, PcOk, ManagerOk, Reserving;
    Unfolded(s, i);
    ReservationShape(s, i, request);
    ManagerStays(s, t, w, t.workers[i]);
    ReservationKeepsStore(s, i, request);
    CacheStays(s, t, i, w);
    KeptStays(s, t, i, w);
    SameTables(t, i, w, t.workers[i]);
    ActorKeepsInv(s, t, i);
  }

  lemma ReceiveKeepsInv(s: System, i: nat, request: Request, fault: Fault)
    requires Inv(s) && Enabled(s, ReceiveStep(i, request, fault))
    ensures Inv(Do(s, ReceiveStep(i, request, fault)))
  {
    hide A.Valid, A.Advances;
    var w := s.workers[i];
    var at := (request.endpoint, request.key);
    hide Inv, CacheOk, PcOk, ManagerOk;
    Unfolded(s, i);
    assert Put(s, i, w) == s;
    if request.key !in w.cache {
      if at in w.uncommitted {
        RecommittingKeepsInv(s, i, request, fault);
      } else if at !in s.store.rows {
        ReservationKeepsInv(s, i, request);
      } else if s.store.rows[at].Complete? && s.store.rows[at].request == request {
        var n := w.(cache := w.cache[request.key := (request, s.store.rows[at].response)]);
        RecallKeepsWorker(s, i, w, request);
        LocalKeepsInv(s, i, n);
      }
    }
  }

  /** Committing a kept answer. */
  lemma RecommittingKeepsInv(s: System, i: nat, request: Request, fault: Fault)
    requires Inv(s) && Enabled(s, ReceiveStep(i, request, fault))
    requires request.key !in s.workers[i].cache && (request.endpoint, request.key) in s.workers[i].uncommitted
    ensures Inv(Do(s, ReceiveStep(i, request, fault)))
  {
    hide A.Valid, A.Advances;
    var w := s.workers[i];
    var at := (request.endpoint, request.key);
    hide Inv, CacheOk, PcOk, ManagerOk, StoreOk;
    Unfolded(s, i);
    assert Put(s, i, w) == s;
    assert KeptOk(s, i, w, at);
    if w.uncommitted[at].0 == request && fault.NoFault? {
      AnswerKeepsInv(s, i, request, w.uncommitted[at].1);
      assert Do(s, ReceiveStep(i, request, fault)) == Answered(s, i, request, w.uncommitted[at].1);
    }
  }

  /** Caching an answer that the store holds. */
  lemma RecallKeepsWorker(s: System, i: nat, w: Worker, request: Request)
    requires StoreOk(s) && WorkerOk(s, i, w) && w.pc.Idle?
    requires var at := (request.endpoint, request.key);
             at in s.store.rows && s.store.rows[at].Complete? && s.store.rows[at].request == request
    ensures WorkerOk(s, i, w.(cache := w.cache[request.key := (request, s.store.rows[(request.endpoint, request.key)].response)]))
  {
    hide A.Valid, A.Advances;
    var at := (request.endpoint, request.key);
    var n := w.(cache := w.cache[request.key := (request, s.store.rows[at].response)]);
    assert RowOk(s, at);
    forall key | key in n.cache ensures CachedOk(s, n, key) { if key != request.key { assert CachedOk(s, w, key); } }
    forall p | p in n.uncommitted ensures KeptOk(s, i, n, p) { assert KeptOk(s, i, w, p); }
  }

  // -------------------------------------------------------- running a handler

  /** Claiming changes nothing but the worker, or makes the first claim. */
  lemma ClaimShape(s: System, i: nat, fault: Fault)
    requires i in s.workers && s.workers[i].pc.Claiming? && PcOk(s, i, s.workers[i])
    ensures var t := DoClaim(s, i, fault);
            || NewClaim(s, t, i, (s.workers[i].pc.kind, s.workers[i].pc.key))
            || (&& t == Put(s, i, t.workers[i]) && PcOk(s, i, t.workers[i])
                && t.workers[i] == s.workers[i].(pc := t.workers[i].pc))
  {
    hide RunsOf, Holds, Done;
  }

  lemma HoldsItsReservation(s: System, i: nat, w: Worker)
    requires PcOk(s, i, w) && w.pc.Claiming?
    ensures Reserves(s, i, w.pc.ticket.scope, w.pc.ticket.request)
    ensures w.pc.kind.DecisionRun? ==> w.pc.ticket.scope == Decisions && w.pc.key == w.pc.ticket.request.key
  {}

  lemma ClaimKeepsInv(s: System, i: nat, fault: Fault)
    requires Inv(s) && Enabled(s, ClaimRunStep(i, fault))
    ensures Inv(Do(s, ClaimRunStep(i, fault)))
  {
    hide Inv, PcOk, StoreOk, WorkerOk, Undisturbed, DoClaim, CacheOk, UncommittedOk, ManagerOk;
    Unfolded(s, i);
    ClaimShape(s, i, fault);
    var w, t := s.workers[i], DoClaim(s, i, fault);
    var at := (w.pc.kind, w.pc.key);
    if NewClaim(s, t, i, at) {
      assert at.0.DecisionRun? ==> Reserves(s, i, Decisions, w.pc.ticket.request) && w.pc.ticket.request.key == at.1 by {
        HoldsItsReservation(s, i, w);
      }
      ClaimKeepsStore(s, t, i, at);
      ClaimKeepsWorker(s, t, i, at);
      ActorKeepsInv(s, t, i);
    } else {
      ManagerStays(s, s, w, t.workers[i]);
      LocalMove(s, i, t.workers[i]);
    }
  }

  /** A change to the claim `at` and its count only. */
  ghost predicate OnlyClaim(s: System, t: System, at: (Kind, string)) {
    && t.store.rows == s.store.rows && t.store.state == s.store.state && t.owner == s.owner && t.log == s.log
    && (forall p: (Kind, string) {:trigger RunsOf(t, p)} :: p != at ==> RunsOf(t, p) == RunsOf(s, p))
    && (forall p :: p in s.store.claims ==> p in t.store.claims)
    && (forall p :: p in t.store.claims && p != at ==> p in s.store.claims && t.store.claims[p] == s.store.claims[p])
    && (Done(s, at) ==> Done(t, at))
  }

  /** A worker's own cache and kept answers stay good when it changes a claim that
      none of its kept answers speaks of. */
  lemma OwnTablesStay(s: System, t: System, i: nat, w: Worker, at: (Kind, string))
    requires OnlyClaim(s, t, at) && CacheOk(s, w) && UncommittedOk(s, i, w)
    requires at.0.DecisionRun? && at !in s.store.claims && (Decisions, at.1) in w.uncommitted ==>
               w.uncommitted[(Decisions, at.1)].0.endpoint != Decisions
    ensures CacheOk(t, w) && UncommittedOk(t, i, w)
  {
    forall key | key in w.cache ensures CachedOk(t, w, key) { assert CachedOk(s, w, key); }
    forall p | p in w.uncommitted ensures KeptOk(t, i, w, p) {
      assert KeptOk(s, i, w, p);
    }
  }

  predicate NewClaim(s: System, t: System, i: nat, at: (Kind, string)) {
    && i in s.workers && i in t.workers
    && (s.workers[i].pc.Claiming? && s.workers[i].pc.kind == at.0 && s.workers[i].pc.key == at.1)
    && at !in s.store.claims
    && t == s.(store := s.store.(claims := s.store.claims[at := ClaimRow(s.workers[i].pc.claimId, Claimed, Null)]),
               workers := s.workers[i := t.workers[i]], claimant := s.claimant[at := i])
    && t.workers[i] == s.workers[i].(pc := Running(s.workers[i].pc.ticket, at.0, at.1, s.workers[i].pc.claimId, s.workers[i].pc.shown))
  }

  /** Nothing but the claim `at`, its claimant and its count changes. */
  ghost predicate ClaimChange(s: System, t: System, at: (Kind, string)) {
    && t.store.rows == s.store.rows && t.store.state == s.store.state && t.owner == s.owner && t.log == s.log
    && (forall p: (Kind, string) {:trigger RunsOf(t, p)} :: p != at ==> RunsOf(t, p) == RunsOf(s, p))
    && (forall p :: p != at ==> (p in s.store.claims <==> p in t.store.claims))
    && (forall p :: p != at && p in s.store.claims ==> t.store.claims[p] == s.store.claims[p])
    && (forall p :: p != at ==> (p in s.claimant <==> p in t.claimant))
    && (forall p :: p != at && p in s.claimant ==> t.claimant[p] == s.claimant[p])
    && (at in s.store.claims ==> at in t.store.claims)
  }

  lemma ClaimChangeKeepsStore(s: System, t: System, at: (Kind, string))
    requires StoreOk(s) && ClaimChange(s, t, at) && ClaimOk(t, at) && (Done(s, at) ==> Done(t, at))
    requires at.0.DecisionRun? && at !in s.store.claims ==> (Decisions, at.1) in s.store.rows && s.store.rows[(Decisions, at.1)].InProgress?
    ensures StoreOk(t)
    ensures forall j {:trigger ClaimStays(s, t, j, at)} :: ClaimStays(s, t, j, at) && KeyStays(s, t, j, at.1) ==> Undisturbed(s, t, j)
  {
    assert LogOk(t) by { hide A.Valid, A.Advances; }
    hide LogOk;
    forall p | p in t.store.rows ensures RowOk(t, p) { assert RowOk(s, p); }
    forall p: (Kind, string) ensures ClaimOk(t, p) { if p != at { assert ClaimOk(s, p); } }
    forall j | ClaimStays(s, t, j, at) && KeyStays(s, t, j, at.1) ensures Undisturbed(s, t, j) {
      forall p: (Endpoint, string) ensures RowStays(s, t, j, p) { if p in s.store.rows { assert RowOk(s, p); } }
      forall p: (Kind, string) ensures ClaimStays(s, t, j, p) { if p != at { assert ClaimOk(s, p); } }
    }
  }

  lemma ClaimKeepsStore(s: System, t: System, i: nat, at: (Kind, string))
    requires StoreOk(s) && NewClaim(s, t, i, at)
    requires at.0.DecisionRun? ==> Reserves(s, i, Decisions, s.workers[i].pc.ticket.request) && s.workers[i].pc.ticket.request.key == at.1
    ensures StoreOk(t) && forall j :: j != i ==> Undisturbed(s, t, j)
  {
    hide LogOk, Undisturbed;
    assert ClaimOk(s, at);
    ClaimChangeKeepsStore(s, t, at);
    forall j | j != i ensures Undisturbed(s, t, j) { assert ClaimStays(s, t, j, at) && KeyStays(s, t, j, at.1); }
  }

  lemma ClaimKeepsPc(s: System, t: System, i: nat, at: (Kind, string))
    requires NewClaim(s, t, i, at) && PcOk(s, i, s.workers[i]) && ClaimOk(s, at)
    ensures PcOk(t, i, t.workers[i])
  {}

  lemma ClaimKeepsWorker(s: System, t: System, i: nat, at: (Kind, string))
    requires Inv(s) && NewClaim(s, t, i, at)
    ensures WorkerOk(t, i, t.workers[i])
  {
    var w, n := s.workers[i], t.workers[i];
    assert ClaimOk(s, at);
    hide A.Valid, A.Advances, Inv, StoreOk, CacheOk, UncommittedOk, ManagerOk;
    Unfolded(s, i);
    ManagerStays(s, t, w, n);
    ClaimKeepsPc(s, t, i, at);
    OwnTablesStay(s, t, i, w, at);
    hide PcOk;
    SameTables(t, i, w, n);
  }

  lemma RunKeepsStore(s: System, i: nat, returned: Option<Json>)
    requires StoreOk(s) && Enabled(s, RunStep(i, returned))
    requires var pc := s.workers[i].pc; Holds(s, i, (pc.kind, pc.key), pc.claimId) && RunsOf(s, (pc.kind, pc.key)) == 0
    ensures var t := DoRun(s, i, returned); StoreOk(t) && forall j :: j != i ==> Undisturbed(s, t, j)
  {
    var t, at := DoRun(s, i, returned), (s.workers[i].pc.kind, s.workers[i].pc.key);
    hide LogOk, Undisturbed;
    assert ClaimOk(s, at);
    ClaimChangeKeepsStore(s, t, at);
    forall j | j != i ensures Undisturbed(s, t, j) { assert ClaimStays(s, t, j, at) && KeyStays(s, t, j, at.1); }
  }

  lemma RunShape(s: System, i: nat, returned: Option<Json>)
    requires i in s.workers && s.workers[i].pc.Running? && PcOk(s, i, s.workers[i])
    ensures var w, t := s.workers[i], DoRun(s, i, returned);
            && t.workers == s.workers[i := t.workers[i]] && t.workers[i] == w.(pc := t.workers[i].pc)
            && PcOk(t, i, t.workers[i]) && OnlyClaim(s, t, (w.pc.kind, w.pc.key))
            && (w.pc.kind, w.pc.key) in s.store.claims
            && Holds(s, i, (w.pc.kind, w.pc.key), w.pc.claimId) && RunsOf(s, (w.pc.kind, w.pc.key)) == 0
  {}

  lemma RunKeepsInv(s: System, i: nat, returned: Option<Json>)
    requires Inv(s) && Enabled(s, RunStep(i, returned))
    ensures Inv(Do(s, RunStep(i, returned)))
  {
    var w, t := s.workers[i], DoRun(s, i, returned);
    hide Inv, StoreOk, CacheOk, UncommittedOk, Undisturbed, PcOk, DoRun, ManagerOk;
    Unfolded(s, i);
    RunShape(s, i, returned);
    RunKeepsStore(s, i, returned);
    ManagerStays(s, t, w, t.workers[i]);
    hide OnlyClaim;
    OwnTablesStay(s, t, i, w, (w.pc.kind, w.pc.key));
    SameTables(t, i, w, t.workers[i]);
    ActorKeepsInv(s, t, i);
  }

  /** The store after the open claim `at` was settled. */
  function Settled(s: System, at: (Kind, string), row: ClaimRow): System {
    s.(store := s.store.(claims := s.store.claims[at := row]))
  }

  /** Settling an open claim, as its holder or, to unknown, as the operator. */
  lemma SettlingKeepsStore(s: System, at: (Kind, string), row: ClaimRow, holder: Option<nat>)
    requires StoreOk(s) && at in s.store.claims && s.store.claims[at].status.Claimed?
    requires row.claimId == s.store.claims[at].claimId && !row.status.Claimed?
    requires holder.Some? ==> at in s.claimant && s.claimant[at] == holder.value
    requires holder.None? ==> row.status.Unknown?
    ensures StoreOk(Settled(s, at, row))
    ensures forall j: nat :: Some(j) != holder ==> Undisturbed(s, Settled(s, at, row), j)
  {
    var t := Settled(s, at, row);
    hide LogOk, Undisturbed;
    assert ClaimOk(s, at);
    ClaimChangeKeepsStore(s, t, at);
    forall j: nat | Some(j) != holder ensures Undisturbed(s, t, j) {
      assert ClaimStays(s, t, j, at) && KeyStays(s, t, j, at.1);
    }
  }

  /** Finishing changes nothing but the worker, or settles the open claim it holds. */
  lemma FinishShape(s: System, i: nat, fault: Fault, serializable: bool)
    requires i in s.workers && s.workers[i].pc.Finishing? && PcOk(s, i, s.workers[i])
    ensures var w, t := s.workers[i], DoFinish(s, i, fault, serializable);
            var n, at := t.workers[i], (w.pc.kind, w.pc.key);
            && n == w.(pc := n.pc, completed := n.completed, pending := n.pending)
            && at in s.store.claims && at in s.claimant && s.claimant[at] == i
            && (t == Put(s, i, n)
                || (&& at in t.store.claims
                    && t == Put(Settled(s, at, t.store.claims[at]), i, n)
                    && s.store.claims[at].status.Claimed?
                    && t.store.claims[at].claimId == s.store.claims[at].claimId
                    && !t.store.claims[at].status.Claimed?))
  {}

  lemma SettledIsOnlyClaim(s: System, i: nat, n: Worker, at: (Kind, string), row: ClaimRow)
    requires at in s.store.claims && s.store.claims[at].status.Claimed?
    ensures OnlyClaim(s, Put(Settled(s, at, row), i, n), at)
  {}

  lemma SettlingKeepsInv(s: System, i: nat, n: Worker, at: (Kind, string), row: ClaimRow)
    requires Inv(s) && i in s.workers && at in s.store.claims && s.store.claims[at].status.Claimed?
    requires row.claimId == s.store.claims[at].claimId && !row.status.Claimed?
    requires at in s.claimant && s.claimant[at] == i
    requires n == s.workers[i].(pc := n.pc, completed := n.completed, pending := n.pending)
    requires PcOk(Put(Settled(s, at, row), i, n), i, n)
    ensures Inv(Put(Settled(s, at, row), i, n))
  {
    var w, t := s.workers[i], Put(Settled(s, at, row), i, n);
    hide A.Valid, A.Advances, Inv, StoreOk, CacheOk, UncommittedOk, Undisturbed, PcOk, ManagerOk, OnlyClaim;
    Unfolded(s, i);
    ManagerStays(s, t, w, n);
    SettlingKeepsStore(s, at, row, Some(i));
    LocalKeepsStore(Settled(s, at, row), t);
    SettledIsOnlyClaim(s, i, n, at, row);
    OwnTablesStay(s, t, i, w, at);
    SameTables(t, i, w, n);
    forall j | j in s.workers && j != i ensures Undisturbed(s, t, j) { SameMaps(s, Settled(s, at, row), t, j); }
    ActorKeepsInv(s, t, i);
  }

  lemma FinishKeepsInv(s: System, i: nat, fault: Fault, serializable: bool)
    requires Inv(s) && Enabled(s, FinishStep(i, fault, serializable))
    ensures Inv(Do(s, FinishStep(i, fault, serializable)))
  {
    var w, t := s.workers[i], DoFinish(s, i, fault, serializable);
    var at := (w.pc.kind, w.pc.key);
    hide Inv, StoreOk, CacheOk, UncommittedOk, PcOk, DoFinish, ManagerOk, WorkerOk;
    Unfolded(s, i);
    FinishKeepsPc(s, i, fault, serializable);
    FinishShape(s, i, fault, serializable);
    ManagerStays(s, s, w, t.workers[i]);
    if t == Put(s, i, t.workers[i]) {
      SamePc(s, t, i, t.workers[i]);
      LocalMove(s, i, t.workers[i]);
    } else {
      SettlingKeepsInv(s, i, t.workers[i], at, t.store.claims[at]);
    }
  }

  lemma SamePc(s: System, t: System, i: nat, n: Worker)
    requires PcOk(t, i, n) && SameHistory(s, t)
    ensures PcOk(s, i, n)
  {}

  /** Whatever a finished handler is answered with is true of it. */
  lemma FinishKeepsPc(s: System, i: nat, fault: Fault, serializable: bool)
    requires i in s.workers && s.workers[i].pc.Finishing? && PcOk(s, i, s.workers[i])
    ensures var t := DoFinish(s, i, fault, serializable); PcOk(t, i, t.workers[i])
  {
    var w := s.workers[i];
    Afterwards(w);
    Afterwards(w.(completed := w.completed + {w.pc.key}));
    hide Normal, AfterRun;
  }

  lemma SameMaps(s: System, m: System, t: System, j: nat)
    requires Undisturbed(s, m, j) && SameHistory(m, t)
    ensures Undisturbed(s, t, j)
  {
    forall p: (Endpoint, string) ensures RowStays(s, t, j, p) { assert RowStays(s, m, j, p); }
    forall p: (Kind, string) ensures ClaimStays(s, t, j, p) { assert ClaimStays(s, m, j, p); }
    forall key: string ensures KeyStays(s, t, j, key) { assert KeyStays(s, m, j, key); }
  }

  lemma ReconcileKeepsInv(s: System, kind: Kind, key: string, reason: string, fault: Fault)
    requires Inv(s)
    ensures Inv(Do(s, ReconcileStep(kind, key, reason, fault)))
  {
    hide A.Valid, A.Advances;
    var t := DoReconcile(s, kind, key, reason, fault);
    if t != s {
      SettlingKeepsStore(s, (kind, key), t.store.claims[(kind, key)], None);
      assert t == Settled(s, (kind, key), t.store.claims[(kind, key)]);
      hide WorkerOk, Undisturbed;
      forall j | j in t.workers ensures WorkerOk(t, j, t.workers[j]) {
        OthersStayOk(s, t, j, s.workers[j]);
      }
    }
  }

  // -------------------------------------------------- committing approval state

  lemma PersistExtendsLog(s: System, t: System, i: nat, fault: Fault)
    requires LogOk(s) && Enabled(s, PersistStep(i, fault)) && ManagerOk(s, s.workers[i])
    requires t == DoPersist(s, i, fault) && t.store.state != s.store.state
    ensures LogOk(t) && ManagerOk(t, t.workers[i]) && s.log <= t.log
    ensures t.store.rows == s.store.rows && t.store.claims == s.store.claims
    ensures t.runs == s.runs && t.owner == s.owner && t.claimant == s.claimant
  {
    A.AdvancesIsReflexive(s.workers[i].manager);
    hide A.Valid, A.Advances;
    assert t.log == s.log + [PayloadOf(s.workers[i])];
  }

  lemma PersistShape(s: System, t: System, i: nat, fault: Fault)
    requires Enabled(s, PersistStep(i, fault)) && t == DoPersist(s, i, fault) && PcOk(s, i, s.workers[i])
    ensures t.workers == s.workers[i := t.workers[i]]
    ensures t.workers[i].cache == s.workers[i].cache && t.workers[i].uncommitted == s.workers[i].uncommitted
    ensures PcOk(s, i, t.workers[i])
    ensures t.store.state == s.store.state ==> t == Put(s, i, s.workers[i].(pc := Idle))
  {}

  lemma PersistKeepsInv(s: System, i: nat, fault: Fault)
    requires Inv(s) && Enabled(s, PersistStep(i, fault))
    ensures Inv(Do(s, PersistStep(i, fault)))
  {
    var w, t := s.workers[i], DoPersist(s, i, fault);
    var n := t.workers[i];
    hide Inv, LogOk, CacheOk, UncommittedOk, Undisturbed, PcOk, DoPersist, ManagerOk;
    Unfolded(s, i);
    PersistShape(s, t, i, fault);
    if t.store.state == s.store.state {
      ManagerStays(s, s, w, n);
      SameTables(s, i, w, n);
      LocalKeepsInv(s, i, n);
    } else {
      assert LogOk(s) by { assert StoreOk(s); }
      PersistExtendsLog(s, t, i, fault);
      TablesKeepStore(s, t);
      CacheStays(s, t, i, w);
      KeptStays(s, t, i, w);
      PcStays(s, t, i, n);
      SameTables(t, i, w, n);
      ActorKeepsInv(s, t, i);
    }
  }

  // ------------------------------------------------------- crash and restart

  lemma CrashKeepsInv(s: System, i: nat)
    requires Inv(s)
    ensures Inv(s.(workers := s.workers - {i}))
  {
    var t := s.(workers := s.workers - {i});
    LocalKeepsStore(s, t);
    forall j | j in t.workers ensures WorkerOk(t, j, t.workers[j]) {
      OthersStayOk(s, t, j, s.workers[j]);
    }
  }

  lemma RestoredIsValid(m: A.Manager, n: A.Manager)
    requires A.Valid(m) && RestoredFrom(m, n)
    ensures A.Valid(n) && A.Advances(m, n)
  {
    forall id | id in n.requests
      ensures n.requests[id].id == id && A.ValidRequest(n.requests[id]) && A.IssuedBefore(id, n.prefix, n.nextId)
      ensures A.Progress(m.requests[id], n.requests[id])
    {
      var a, b := m.requests[id], n.requests[id];
      assert A.ValidRequest(a) && A.IssuedBefore(id, m.prefix, m.nextId);
      forall k | 0 <= k < |b.voteIdentities| ensures b.voteIdentities[k].0 in b.votes {
        assert b.voteIdentities[k] in a.voteIdentities;
      }
    }
  }

  lemma StartKeepsInv(s: System, i: nat, shadow: bool, manager: A.Manager, kept: set<string>)
    requires Inv(s) && Enabled(s, StartStep(i, shadow, manager, kept))
    ensures Inv(Do(s, StartStep(i, shadow, manager, kept)))
  {
    var t := DoStart(s, i, shadow, manager, kept);
    if s.store.state.Some? { RestoredIsValid(s.store.state.value.payload.manager, manager); }
    hide A.Valid, A.Advances, RestoredFrom;
    LocalKeepsStore(s, t);
    forall j | j in t.workers ensures WorkerOk(t, j, t.workers[j]) {
      if j != i { OthersStayOk(s, t, j, s.workers[j]); }
    }
  }

  lemma NextKeepsInv(s: System, step: Step)
    requires Inv(s)
    ensures Inv(Next(s, step))
  {
    hide Inv;
    if Enabled(s, step) {
      match step
      case ReceiveStep(i, request, fault) => ReceiveKeepsInv(s, i, request, fault);
      case DecideStep(i, verdict) => DecideKeepsInv(s, i, verdict);
      case ClaimRunStep(i, fault) => ClaimKeepsInv(s, i, fault);
      case RunStep(i, returned) => RunKeepsInv(s, i, returned);
      case FinishStep(i, fault, serializable) => FinishKeepsInv(s, i, fault, serializable);
      case PersistStep(i, fault) => PersistKeepsInv(s, i, fault);
      case CommitStep(i, fault) => CommitKeepsInv(s, i, fault);
      case VoteStep(i, op, identity) => VoteKeepsInv(s, i, op, identity);
      case ResumeStep(i, seen, op, identity, approver, recheck) =>
        ResumeKeepsInv(s, i, seen, op, identity, approver, recheck);
      case ReadStep(i, id, now) => ReadKeepsInv(s, i, id, now);
      case CrashStep(i) => CrashKeepsInv(s, i);
      case StartStep(i, shadow, manager, kept) => StartKeepsInv(s, i, shadow, manager, kept);
      case ReconcileStep(kind, key, reason, fault) => ReconcileKeepsInv(s, kind, key, reason, fault);
    }
  }

  lemma {:induction false} ReachableIsSafe(steps: seq<Step>)
    ensures Inv(Run(steps))
  {
    if steps != [] {
      ReachableIsSafe(steps[..|steps| - 1]);
      NextKeepsInv(Run(steps[..|steps| - 1]), steps[|steps| - 1]);
    }
  }
}
