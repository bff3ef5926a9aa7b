/** What every call comes to, in plain terms and over every run: the response, the record,
    the claim, the approval state and how often the handler ran (governance/service.py). */
module CallOutcomes {
  import opened Text
  import opened DurableStore
  import opened DurableWorker
  import opened Protocol
  import opened Service
  import opened ServiceRuns
  import opened Calls
  import S = ProtocolSafety
  import L = ProtocolLaws
  import A = Approval

  // ------------------------------------------------------------- reservation

  /** The key is new to the worker's cache, to the answers that it keeps and to the store,
      and the database lets it be reserved. */
  predicate IsNew(s: Store, w: Worker, request: Request, f: Faults) {
    && request.key !in w.cache.Keys && (request.endpoint, request.key) !in w.uncommitted.Keys
    && (request.endpoint, request.key) !in s.rows.Keys && f.begin.NoFault?
  }

  /** A request is reserved exactly when its key is new; then its record is open and the
      worker holds it, and nothing else happened. */
  lemma ReservedExactly(s: Store, w: Worker, request: Request, f: Faults)
    requires w.pc.Idle?
    ensures var (t, n, outcome) := Receive(s, w, request, f.begin);
            && (outcome.Acquired? <==> IsNew(s, w, request, f))
            && (outcome.Acquired? ==>
                  && t == s.(rows := s.rows[(request.endpoint, request.key) := InProgress(request)])
                  && n == w.(pc := Reserved(Ticket(request.endpoint, request))))
  {}

  /** Any other request is answered from what is on record, or turned away. */
  lemma DeclinedInPlainTerms(s: Store, w: Worker, request: Request, f: Faults)
    requires w.pc.Idle? && !IsNew(s, w, request, f) && (s.state.Some? ==> s.state.value.revision >= 1)
    ensures var (t, n, outcome) := Receive(s, w, request, f.begin);
            var at := (request.endpoint, request.key);
            !outcome.Acquired? &&
            var given := Declined(outcome);
            if request.key in w.cache then
              t == s && n == w && given == if w.cache[request.key].0 == request then w.cache[request.key].1 else Response(409, None, None, "idempotency_key_conflict", Null)
            else if at in w.uncommitted then
              var kept := w.uncommitted[at];
              if kept.0 != request then t == s && n == w && given == Response(409, None, None, "idempotency_key_conflict", Null)
              else if f.begin.AtBegin? || at !in s.rows then t == s && n == w && given == Response(503, None, None, "durable_state_unavailable", Null)
              else if s.rows[at].request != request || (s.rows[at].Complete? && s.rows[at].response != NormalResponse(kept.1)) then
                t == s && n == w && given == Response(409, None, None, "durable_state_conflict", Null)
              else if f.begin.AtCommit? then t == s && n == w && given == Response(503, None, None, "durable_state_unavailable", Null)
              else
                && given == kept.1 && t.claims == s.claims && t.state == s.state && t.rows == s.rows[at := Complete(request, NormalResponse(kept.1))]
                && n == w.(uncommitted := w.uncommitted - {at}, cache := w.cache[request.key := kept])
            else if f.begin.AtBegin? then t == s && n == w && given == Response(503, None, None, "durable_state_unavailable", Null)
            else if at in s.rows && s.rows[at].request != request then
              t == s && n == w && given == Response(409, None, None, "idempotency_key_conflict", Null)
            else if f.begin.AtCommit? then t == s && n == w && given == Response(503, None, None, "durable_state_unavailable", Null)
            else
              && t == s && at in s.rows
              && match s.rows[at]
                 case Complete(_, response) => given == response && n == w.(cache := w.cache[request.key := (request, response)])
                 case InProgress(_) =>
                   && n == w
                   && given == if request.endpoint == Decisions && (DecisionRun, request.key) in s.claims && s.claims[(DecisionRun, request.key)].status != Claimed
                               then Response(500, None, None, "operation_uncertain", Null) else Response(409, None, None, "request_in_progress", Null)
  {}

  // ----------------------------------------------------------------- answers

  function StateConflict(): Response { Response(409, None, None, "durable_state_conflict", Null) }

  function StateUnavailable(): Response { Response(503, None, None, "durable_state_unavailable", Null) }

  /** The worker saw the latest approval state. */
  predicate UpToDate(s: Store, w: Worker) {
    match s.state
    case Some(row) => w.revision == Some(row.revision)
    case None => w.revision == None
  }

  function NextRevision(s: Store): int {
    match s.state
    case Some(row) => row.revision + 1
    case None => 1
  }

  /** The end of a reserved call that came to the response `r`, and that first wrote the
      approval state if it `saves`: what is told, recorded, cached and kept. */
  predicate Ending(s: Store, w: Worker, t: Store, n: Worker, request: Request, r: Response, given: Response, f: Faults, saves: bool) {
    var at := (request.endpoint, request.key);
    var saved := saves && f.save.NoFault? && UpToDate(s, w);
    var done := (saved || !saves) && f.complete.NoFault?;
    && given == (if saves && !f.save.AtBegin? && !UpToDate(s, w) then StateConflict() else if done then r else StateUnavailable())
    && t.rows == s.rows[at := if done then Complete(request, NormalResponse(r)) else InProgress(request)]
    && t.state == (if saved then Some(StateRow(NextRevision(s), Payload(n.manager, n.pending))) else s.state)
    && n.pc == Idle && n.shadow == w.shadow && n.revision == (if saved then Some(NextRevision(s)) else w.revision)
    && n.cache == (if done then w.cache[request.key := (request, r)] else w.cache)
    && n.uncommitted == (if !done && (saved || !saves) then w.uncommitted[at := (request, r)] else w.uncommitted)
  }

  /** A point of a reserved call that is about to answer. */
  predicate Answering(s: Store, w: Worker, u: Store, v: Worker, request: Request, r: Response) {
    var at := (request.endpoint, request.key);
    && at !in w.uncommitted && (s.state.Some? ==> s.state.value.revision >= 1) && (w.revision.Some? ==> w.revision.value >= 1)
    && u.rows == s.rows[at := InProgress(request)] && u.state == s.state
    && v.shadow == w.shadow && v.cache == w.cache && v.uncommitted == w.uncommitted && v.revision == w.revision
    && (v.pc == Persisting(Ticket(request.endpoint, request), r) || v.pc == Committing(Ticket(request.endpoint, request), r))
  }

  function Reply(u: Store, v: Worker, f: Faults): Response
    requires v.pc.Persisting? || v.pc.Committing?
  {
    if v.pc.Persisting? then SaveReply(u, v, f) else CommitReply(u, v.pc.ticket, v.pc.response, f)
  }

  lemma CommittingInPlainTerms(u: Store, v: Worker, f: Faults)
    requires v.pc.Committing? && v.pc.ticket.scope == v.pc.ticket.request.endpoint
    requires var at := (v.pc.ticket.scope, v.pc.ticket.request.key);
             at !in v.uncommitted && at in u.rows && u.rows[at] == InProgress(v.pc.ticket.request)
    ensures var (t, n) := Commit(u, v, f.complete);
            var at, request, r := (v.pc.ticket.scope, v.pc.ticket.request.key), v.pc.ticket.request, v.pc.response;
            var given := CommitReply(u, v.pc.ticket, r, f);
            if f.complete.NoFault? then
              && t == u.(rows := u.rows[at := Complete(request, NormalResponse(r))])
              && n == v.(pc := Idle, cache := v.cache[request.key := (request, r)]) && given == r
            else
              t == u && n == v.(pc := Idle, uncommitted := v.uncommitted[at := (request, r)]) && given == StateUnavailable()
  {
    assert v.uncommitted - {(v.pc.ticket.scope, v.pc.ticket.request.key)} == v.uncommitted;
  }

  lemma PersistingInPlainTerms(u: Store, v: Worker, f: Faults)
    requires v.pc.Persisting?
    requires (u.state.Some? ==> u.state.value.revision >= 1) && (v.revision.Some? ==> v.revision.value >= 1)
    ensures var (t, n) := Persist(u, v, f.save);
            var given := SaveReply(u, v, f);
            if f.save.NoFault? && UpToDate(u, v) then
              && t == u.(state := Some(StateRow(NextRevision(u), Payload(v.manager, v.pending))))
              && n == v.(revision := Some(NextRevision(u)), pc := Committing(v.pc.ticket, v.pc.response))
              && given == CommitReply(t, v.pc.ticket, v.pc.response, f)
            else
              && t == u && n == v.(pc := Idle)
              && given == if !f.save.AtBegin? && !UpToDate(u, v) then StateConflict() else StateUnavailable()
  {
    hide CommitReply;
  }

  lemma CommittingEnds(s: Store, w: Worker, u: Store, v: Worker, request: Request, r: Response, f: Faults)
    requires Answering(s, w, u, v, request, r) && v.pc.Committing?
    ensures var (t, n) := Saved(u, v, f);
            && Ending(s, w, t, n, request, r, Reply(u, v, f), f, false) && t.claims == u.claims
            && n == v.(pc := Idle, cache := n.cache, uncommitted := n.uncommitted)
  {
    Overwritten(s, request, r);
    CommittingInPlainTerms(u, v, f);
    hide Commit, CommitReply;
  }

  lemma Overwritten(s: Store, request: Request, r: Response)
    ensures var at := (request.endpoint, request.key);
            s.rows[at := InProgress(request)][at := Complete(request, NormalResponse(r))] == s.rows[at := Complete(request, NormalResponse(r))]
  {}

  lemma UnsavedEnds(s: Store, w: Worker, u: Store, v: Worker, request: Request, r: Response, f: Faults)
    requires Answering(s, w, u, v, request, r) && v.pc.Persisting? && !(f.save.NoFault? && UpToDate(u, v))
    ensures var (t, n) := Saved(u, v, f);
            && Ending(s, w, t, n, request, r, Reply(u, v, f), f, true) && t.claims == u.claims
            && n == v.(pc := Idle, cache := n.cache, uncommitted := n.uncommitted, revision := n.revision)
  {
    PersistingInPlainTerms(u, v, f);
    hide Persist, SaveReply, StateConflict, StateUnavailable;
  }

  lemma SavedEnds(s: Store, w: Worker, u: Store, v: Worker, request: Request, r: Response, f: Faults)
    requires Answering(s, w, u, v, request, r) && v.pc.Persisting? && f.save.NoFault? && UpToDate(u, v)
    ensures var (t, n) := Saved(u, v, f);
            && Ending(s, w, t, n, request, r, Reply(u, v, f), f, true) && t.claims == u.claims
            && n == v.(pc := Idle, cache := n.cache, uncommitted := n.uncommitted, revision := n.revision)
  {
    Overwritten(s, request, r);
    PersistingInPlainTerms(u, v, f);
    var (t, n) := Persist(u, v, f.save);
    hide Persist, SaveReply, StateConflict, StateUnavailable, NextRevision;
    CommittingInPlainTerms(t, n, f);
    hide Commit, CommitReply;
  }

  lemma PersistingEnds(s: Store, w: Worker, u: Store, v: Worker, request: Request, r: Response, f: Faults)
    requires Answering(s, w, u, v, request, r) && v.pc.Persisting?
    ensures var (t, n) := Saved(u, v, f);
            && Ending(s, w, t, n, request, r, Reply(u, v, f), f, true) && t.claims == u.claims
            && n == v.(pc := Idle, cache := n.cache, uncommitted := n.uncommitted, revision := n.revision)
  {
    hide Answering, Ending, Saved, Reply;
    if f.save.NoFault? && UpToDate(u, v) { SavedEnds(s, w, u, v, request, r, f); } else { UnsavedEnds(s, w, u, v, request, r, f); }
  }

  // -------------------------------------------------------------- executions

  /** An execution can be claimed: nobody claimed it or used the claim id, and the database
      lets it be written. */
  predicate CanClaim(s: Store, kind: Kind, key: string, claimId: ClaimId, f: Faults) {
    && f.claim.NoFault? && (kind, key) !in s.claims.Keys
    && forall at :: at in s.claims ==> s.claims[at].claimId != claimId
  }

  /** What the execution of an operation comes to. */
  function Ran(claimed: bool, h: Handling, f: Faults, code: string, approvalId: Option<string>): Response {
    match h.returned
    case Some(value) =>
      if !claimed || !f.settle.NoFault? then Response(500, None, None, "operation_uncertain", Null)
      else if !h.serializable then Response(500, None, None, "non_serializable_result", Null)
      else Response(200, Some(true), approvalId, code, value)
    case None => Response(500, None, None, "operation_uncertain", Null)
  }

  /** The claim after it: open if it could not be settled, succeeded if the handler
      returned, and unknown if it raised. */
  predicate ClaimIs(row: ClaimRow, claimId: ClaimId, h: Handling, f: Faults) {
    && row.claimId == claimId
    && row.status == (if !f.settle.NoFault? then Claimed else if h.returned.Some? then Succeeded else Unknown)
    && row.outcome == (if !f.settle.NoFault? then Null
                       else if h.returned.Some? then Normal(Object(map["status" := Str("succeeded")]))
                       else Normal(Object(map["reason" := Str("handler raised after execution claim")])))
  }

  /** The claims after a call that executes under this claim if it can. */
  predicate ClaimsAre(s: Store, t: Store, claimed: bool, kind: Kind, key: string, claimId: ClaimId, h: Handling, f: Faults) {
    if claimed then (kind, key) in t.claims && t.claims == s.claims[(kind, key) := t.claims[(kind, key)]] && ClaimIs(t.claims[(kind, key)], claimId, h, f)
    else t.claims == s.claims
  }

  /** Where an execution goes on with its response: a resumption writes the approval state,
      and so does a decision that shows an approval, which is then pending. */
  function Onwards(v: Worker, r: Response): Worker
    requires v.pc.Claiming? || v.pc.Finishing?
  {
    var filed := v.pc.kind == DecisionRun && r.status == 200 && r.approvalId.Some?;
    v.(pc := if v.pc.kind == ApprovalRun || filed then Persisting(v.pc.ticket, r) else Committing(v.pc.ticket, r),
       pending := if filed then v.pending[r.approvalId.value := v.pc.claimId.decisionId] else v.pending)
  }

  lemma ClaimingInPlainTerms(u: Store, v: Worker, f: Faults)
    requires v.pc.Claiming?
    ensures var (t, n) := ClaimRun(u, v, f.claim);
            var pc := v.pc;
            if CanClaim(u, pc.kind, pc.key, pc.claimId, f) then
              && n == v.(pc := Running(pc.ticket, pc.kind, pc.key, pc.claimId, pc.shown))
              && t == u.(claims := u.claims[(pc.kind, pc.key) := ClaimRow(pc.claimId, Claimed, Null)])
            else t == u && n == Onwards(v, Response(500, None, None, "operation_uncertain", Null))
  {}

  lemma FinishingInPlainTerms(u: Store, v: Worker, f: Faults, serializable: bool)
    requires v.pc.Finishing?
    requires (v.pc.kind, v.pc.key) in u.claims && u.claims[(v.pc.kind, v.pc.key)] == ClaimRow(v.pc.claimId, Claimed, Null)
    ensures var (t, n) := Finish(u, v, f.settle, serializable);
            var pc, h := v.pc, Handling(v.pc.returned, serializable);
            && (pc.kind, pc.key) in t.claims && t == u.(claims := u.claims[(pc.kind, pc.key) := t.claims[(pc.kind, pc.key)]])
            && ClaimIs(t.claims[(pc.kind, pc.key)], pc.claimId, h, f)
            && n == Onwards(v.(completed := if pc.kind == DecisionRun && !v.shadow && pc.returned.Some? && f.settle.NoFault?
                                            then v.completed + {pc.key} else v.completed),
                            Ran(true, h, f, pc.shown.code, pc.shown.approvalId))
  {
    assert u.claims[(v.pc.kind, v.pc.key) := u.claims[(v.pc.kind, v.pc.key)]] == u.claims;
  }

  lemma SameOnwards(v: Worker, w: Worker, r: Response)
    requires (v.pc.Claiming? || v.pc.Finishing?) && (w.pc.Claiming? || w.pc.Finishing?)
    requires w == v.(pc := w.pc) && w.pc.kind == v.pc.kind && w.pc.ticket == v.pc.ticket && w.pc.claimId == v.pc.claimId
    ensures Onwards(v, r) == Onwards(w, r)
  {}

  lemma ClaimedOperation(u: Store, v: Worker, h: Handling, f: Faults)
    requires v.pc.Claiming? && CanClaim(u, v.pc.kind, v.pc.key, v.pc.claimId, f)
    ensures var (t, n) := Operated(u, v, h, f);
            var at := (v.pc.kind, v.pc.key);
            && at in t.claims && t == u.(claims := u.claims[at := t.claims[at]]) && ClaimIs(t.claims[at], v.pc.claimId, h, f)
            && n == Onwards(v.(completed := if v.pc.kind == DecisionRun && !v.shadow && h.returned.Some? && f.settle.NoFault?
                                            then v.completed + {v.pc.key} else v.completed),
                            Ran(true, h, f, v.pc.shown.code, v.pc.shown.approvalId))
  {
    var (t, n) := ClaimRun(u, v, f.claim);
    ClaimingInPlainTerms(u, v, f);
    hide ClaimRun, CanClaim, ClaimIs, Ran, Onwards, Finish;
    var at, w := (v.pc.kind, v.pc.key), RunHandler(n, h.returned);
    FinishingInPlainTerms(t, w, f, h.serializable);
    var completed := if v.pc.kind == DecisionRun && !v.shadow && h.returned.Some? && f.settle.NoFault? then v.completed + {v.pc.key} else v.completed;
    SameOnwards(v.(completed := completed), w.(completed := completed), Ran(true, h, f, v.pc.shown.code, v.pc.shown.approvalId));
    var row := Finish(t, w, f.settle, h.serializable).0.claims[at];
    assert u.claims[at := ClaimRow(v.pc.claimId, Claimed, Null)][at := row] == u.claims[at := row];
  }

  /** The execution of a decision's or of an approved request's operation. */
  lemma OperationInPlainTerms(u: Store, v: Worker, h: Handling, f: Faults)
    requires v.pc.Claiming?
    ensures var (t, n) := Operated(u, v, h, f);
            var pc := v.pc;
            var claimed := CanClaim(u, pc.kind, pc.key, pc.claimId, f);
            && t.rows == u.rows && t.state == u.state && ClaimsAre(u, t, claimed, pc.kind, pc.key, pc.claimId, h, f)
            && n == Onwards(v.(completed := if pc.kind == DecisionRun && !v.shadow && claimed && h.returned.Some? && f.settle.NoFault?
                                            then v.completed + {pc.key} else v.completed),
                            Ran(claimed, h, f, pc.shown.code, pc.shown.approvalId))
  {
    if CanClaim(u, v.pc.kind, v.pc.key, v.pc.claimId, f) {
      ClaimedOperation(u, v, h, f);
      hide Operated, Ran, Onwards, ClaimIs, CanClaim;
    } else {
      ClaimingInPlainTerms(u, v, f);
      hide ClaimRun, CanClaim, Finish, Onwards;
    }
  }

  // ------------------------------------------------------------- over the runs

  /** The calls that there are: a decision allowed, refused or escalated by an interceptor that
      enforces, or observed by one that does not, or ended before it; a vote on the request's
      approval; a resumption of it under a policy that is enforced or only watched. */
  lemma CallsInPlainTerms(shadow: bool, request: Request, call: Call)
    ensures Sound(shadow, request, call) <==>
              match call
              case Deciding(NoHandler) => request.endpoint == Decisions
              case Deciding(Unauthenticated) => request.endpoint == Decisions
              case Deciding(Raised) => request.endpoint == Decisions
              case Deciding(Refused(_)) => request.endpoint == Decisions && !shadow
              case Deciding(Allowed(_)) => request.endpoint == Decisions && !shadow
              case Deciding(Escalated(ask, _, _)) => request.endpoint == Decisions && !shadow && ask.Ask?
              case Deciding(Observed(_, _, _)) => request.endpoint == Decisions && shadow
              case Voting(op, _) => request.endpoint == Votes && (op.Approve? || op.Deny?) && op.id == request.target
              case Resuming(_, op, _, _, recheck) =>
                && request.endpoint == Resumes && op.Resume? && op.id == request.target
                && match recheck
                   case Raises => true
                   case Changed(_) => !shadow
                   case StillEscalates(_) => !shadow
                   case Watched(_) => shadow
  {}

  /** A call that may be made, under a key that is new. */
  ghost predicate MayCall(s: System, i: nat, request: Request, call: Call, f: Faults) {
    i in s.workers && s.workers[i].pc == Idle && Sound(s.workers[i].shadow, request, call) && IsNew(s.store, s.workers[i], request, f)
  }

  /** The store in which the request is reserved, and the worker that holds it. */
  function Opened(s: Store, request: Request): Store { s.(rows := s.rows[(request.endpoint, request.key) := InProgress(request)]) }

  function Holder(w: Worker, request: Request): Worker { w.(pc := Reserved(Ticket(request.endpoint, request))) }

  /** What a reserved call can rely on. */
  predicate Grounds(s: Store, w: Worker, request: Request) {
    && A.Valid(w.manager) && (s.state.Some? ==> s.state.value.revision >= 1) && (w.revision.Some? ==> w.revision.value >= 1)
    && (request.endpoint == Decisions ==> (DecisionRun, request.key) !in s.claims)
    && ((Decisions, request.key) in s.rows ==> s.rows[(Decisions, request.key)].request.endpoint == Decisions)
  }

  lemma ReachableGrounds(before: seq<Step>, i: nat, request: Request, call: Call, f: Faults)
    requires MayCall(Run(before), i, request, call, f)
    ensures var s := Run(before);
            Grounds(s.store, s.workers[i], request) && forall at: (Kind, string) :: at !in s.store.claims ==> RunsOf(s, at) == 0
  {
    var s := Run(before);
    S.ReachableIsSafe(before);
    StoreIsSound(s, request.key);
    L.AValid(s, i);
    RevisionIsPositive(s, i);
    ReservedExactly(s.store, s.workers[i], request, f);
    forall at: (Kind, string) | at !in s.store.claims ensures RunsOf(s, at) == 0 { UnclaimedNeverRan(s, at); }
    if request.endpoint == Decisions && (DecisionRun, request.key) in s.store.claims { ClaimedIsOnRecord(s, request.key); }
    hide Run, Inv, A.Valid, Receive;
  }

  lemma ClaimedIsOnRecord(s: System, key: string)
    requires Inv(s) && (DecisionRun, key) in s.store.claims
    ensures (Decisions, key) in s.store.rows
  {
    hide RowOk, LogOk, WorkerOk, A.Valid;
    assert ClaimOk(s, (DecisionRun, key));
  }

  lemma UnclaimedNeverRan(s: System, at: (Kind, string))
    requires Inv(s) && at !in s.store.claims
    ensures RunsOf(s, at) == 0
  {
    hide RowOk, LogOk, WorkerOk, A.Valid;
    assert ClaimOk(s, at);
  }

  lemma RevisionIsPositive(s: System, i: nat)
    requires Inv(s) && i in s.workers
    ensures s.workers[i].revision.Some? ==> s.workers[i].revision.value >= 1
  {
    S.Unfolded(s, i);
    hide StoreOk, CacheOk, UncommittedOk, PcOk, A.Valid, A.Advances;
  }

  /** Whether a governed call starts a handler, and which. */
  predicate Launches(s: Store, v: Worker, f: Faults, at: (Kind, string)) {
    v.pc.Claiming? && at == (v.pc.kind, v.pc.key) && CanClaim(s, v.pc.kind, v.pc.key, v.pc.claimId, f)
  }

  lemma ConclusionStarts(d: System, i: nat, h: Handling, f: Faults, at: (Kind, string))
    requires i in d.workers && !d.workers[i].pc.Running? && !d.workers[i].pc.Finishing?
    ensures RunsOf(Played(d, Conclusion(i, h, f)), at) == RunsOf(d, at) + if Launches(d.store, d.workers[i], f, at) then 1 else 0
  {
    var steps := Conclusion(i, h, f);
    PlayFive(d, steps);
    hide Next, RunsOf, Launches;
    var a := Next(d, steps[0]);
    var b := Next(a, steps[1]);
    var c := Next(b, steps[2]);
    ClaimLaunches(d, i, f, at);
    QuietStep(d, steps[0], at);
    HandlerStarts(a, i, h.returned, at);
    QuietStep(b, steps[2], at);
    QuietStep(c, steps[3], at);
    QuietStep(Next(c, steps[3]), steps[4], at);
  }

  lemma ClaimLaunches(d: System, i: nat, f: Faults, at: (Kind, string))
    requires i in d.workers && !d.workers[i].pc.Running?
    ensures var a := Next(d, ClaimRunStep(i, f.claim));
            && i in a.workers
            && (a.workers[i].pc.Running? && (a.workers[i].pc.kind, a.workers[i].pc.key) == at <==> Launches(d.store, d.workers[i], f, at))
  {
    ClaimIsPlayed(d, i, f.claim);
    if d.workers[i].pc.Claiming? { ClaimingInPlainTerms(d.store, d.workers[i], f); }
    hide ClaimRun, CanClaim, Next;
  }

  /** Only a handler's step starts one. */
  lemma QuietStep(s: System, step: Step, at: (Kind, string))
    requires !step.RunStep?
    ensures RunsOf(Next(s, step), at) == RunsOf(s, at)
  {
    L.StepStarts(s, step, at);
    hide Next, Enabled, RunsOf;
  }

  lemma HandlerStarts(s: System, i: nat, returned: Option<Json>, at: (Kind, string))
    requires i in s.workers
    ensures RunsOf(Next(s, RunStep(i, returned)), at)
         == RunsOf(s, at) + if s.workers[i].pc.Running? && (s.workers[i].pc.kind, s.workers[i].pc.key) == at then 1 else 0
  {
    L.StepStarts(s, RunStep(i, returned), at);
    hide Next, RunsOf;
  }

  /** A call under a new key: what its worker goes on with, and what it starts. */
  lemma CallGoesOn(before: seq<Step>, i: nat, request: Request, call: Call, h: Handling, f: Faults)
    requires MayCall(Run(before), i, request, call, f)
    ensures var s, t := Run(before), Run(before + CallSteps(i, request, call, h, f));
            var w, n := s.workers[i], Holder(s.workers[i], request);
            && Grounds(s.store, w, request) && Holding(n, request)
            && var v := Governs(n, request, call);
            && Shows(t, i, Concluded(Opened(s.store, request), v, h, f))
            && Answer(s.store, w, request, call, h, f) == Given(Opened(s.store, request), v, Early(n, request, call), h, f)
            && (forall at: (Kind, string) {:trigger RunsOf(t, at)} ::
                  RunsOf(t, at) == RunsOf(s, at) + if Launches(s.store, v, f, at) then 1 else 0)
  {
    var s, t := Run(before), Run(before + CallSteps(i, request, call, h, f));
    ReachableGrounds(before, i, request, call, f);
    ReservedExactly(s.store, s.workers[i], request, f);
    CallIsARun(before, i, request, call, h, f);
    hide Run, Receive, Concluded, Governs, Given, Early, A.Valid, CallSteps, Sound, IsNew, Launches;
    forall at: (Kind, string) {:trigger RunsOf(t, at)}
      ensures RunsOf(t, at) == RunsOf(s, at) + if Launches(s.store, Governs(Holder(s.workers[i], request), request, call), f, at) then 1 else 0
    {
      CallStartsOne(before, i, request, call, h, f, at);
    }
  }

  lemma CallStartsOne(before: seq<Step>, i: nat, request: Request, call: Call, h: Handling, f: Faults, at: (Kind, string))
    requires MayCall(Run(before), i, request, call, f) && A.Valid(Run(before).workers[i].manager)
    ensures var s, t := Run(before), Run(before + CallSteps(i, request, call, h, f));
            var n := Holder(s.workers[i], request);
            RunsOf(t, at) == RunsOf(s, at) + if Launches(s.store, Governs(n, request, call), f, at) then 1 else 0
  {
    var s := Run(before);
    var first, second := ReceiveStep(i, request, f.begin), StepOf(i, call);
    PlayTwo(before, first, second, Conclusion(i, h, f));
    hide Run, Conclusion, A.Valid;
    GoverningStarts(s, i, request, call, f, at);
    hide Next, RunsOf, MayCall, Launches, Governs;
    var d := Next(Next(s, first), second);
    ConclusionStarts(d, i, h, f, at);
    SameChances(s.store, request, d.workers[i], f, at);
  }

  /** A reserved and governed call has started nothing. */
  lemma GoverningStarts(s: System, i: nat, request: Request, call: Call, f: Faults, at: (Kind, string))
    requires MayCall(s, i, request, call, f) && A.Valid(s.workers[i].manager)
    ensures var n := Holder(s.workers[i], request);
            var d := Next(Next(s, ReceiveStep(i, request, f.begin)), StepOf(i, call));
            && Holding(n, request) && Shows(d, i, (Opened(s.store, request), Governs(n, request, call)))
            && RunsOf(d, at) == RunsOf(s, at) && !d.workers[i].pc.Running? && !d.workers[i].pc.Finishing?
  {
    var n := Holder(s.workers[i], request);
    var r := Next(s, ReceiveStep(i, request, f.begin));
    ReservedExactly(s.store, s.workers[i], request, f);
    ReceivingShows(s, i, request, f);
    QuietStep(s, ReceiveStep(i, request, f.begin), at);
    QuietStep(r, StepOf(i, call), at);
    hide Next, Receive, Governs, A.Valid, Sound, Heard, IsNew, RunsOf;
    assert Holding(n, request);
    GoverningShows(r, i, request, call);
    GoverningShape(n, request, call);
  }

  lemma SameChances(s: Store, request: Request, v: Worker, f: Faults, at: (Kind, string))
    ensures Launches(Opened(s, request), v, f, at) <==> Launches(s, v, f, at)
  {}

  lemma ReceivingShows(s: System, i: nat, request: Request, f: Faults)
    requires i in s.workers && s.workers[i].pc.Idle?
    ensures var (t, n, _) := Receive(s.store, s.workers[i], request, f.begin);
            Shows(Next(s, ReceiveStep(i, request, f.begin)), i, (t, n))
  {
    hide Receive;
  }

  lemma GoverningShows(s: System, i: nat, request: Request, call: Call)
    requires i in s.workers && Holding(s.workers[i], request) && Sound(s.workers[i].shadow, request, call)
    ensures Shows(Next(s, StepOf(i, call)), i, (s.store, Governs(s.workers[i], request, call)))
  {
    hide Decide, Vote, ResumeApproval, A.Valid;
  }

  // ----------------------------------------------------------- what calls come to

  /** The call came to the response `r`, and wrote the approval state first if it `saves`. */
  ghost predicate Comes(s: System, t: System, i: nat, request: Request, r: Response, given: Response, f: Faults, saves: bool) {
    i in s.workers && i in t.workers && Ending(s.store, s.workers[i], t.store, t.workers[i], request, r, given, f, saves)
  }

  /** No operation was claimed or started. */
  ghost predicate NothingRan(s: System, t: System) {
    t.store.claims == s.store.claims && forall at: (Kind, string) {:trigger RunsOf(t, at)} :: RunsOf(t, at) == RunsOf(s, at)
  }

  /** The handler was started once if its execution could be claimed, and no other was. */
  ghost predicate RanUnder(s: System, t: System, kind: Kind, key: string, claimId: ClaimId, h: Handling, f: Faults) {
    var claimed := CanClaim(s.store, kind, key, claimId, f);
    && ClaimsAre(s.store, t.store, claimed, kind, key, claimId, h, f)
    && (claimed ==> RunsOf(s, (kind, key)) == 0)
    && forall at: (Kind, string) {:trigger RunsOf(t, at)} :: RunsOf(t, at) == RunsOf(s, at) + if claimed && at == (kind, key) then 1 else 0
  }

  /** What the worker holds afterwards. */
  predicate Left(n: Worker, w: Worker, manager: A.Manager, pending: map<string, string>, completed: set<string>) {
    n.manager == manager && n.pending == pending && n.completed == completed && n.announced == w.announced
  }

  /** The worker goes on to the response `r` without an execution. */
  predicate Straight(n: Worker, v: Worker, request: Request, r: Response) {
    && v == n.(pc := v.pc, manager := v.manager, pending := v.pending)
    && (v.pc == Persisting(Ticket(request.endpoint, request), r) || v.pc == Committing(Ticket(request.endpoint, request), r))
  }

  lemma StraightComes(before: seq<Step>, i: nat, request: Request, call: Call, h: Handling, f: Faults, r: Response)
    requires MayCall(Run(before), i, request, call, f)
    requires var n := Holder(Run(before).workers[i], request); Holding(n, request) && Straight(n, Governs(n, request, call), request, r)
    ensures var s, t := Run(before), Run(before + CallSteps(i, request, call, h, f));
            var w, v := s.workers[i], Governs(Holder(s.workers[i], request), request, call);
            && A.Valid(w.manager)
            && Comes(s, t, i, request, r, Answer(s.store, w, request, call, h, f), f, v.pc.Persisting?)
            && NothingRan(s, t) && Left(t.workers[i], w, v.manager, v.pending, w.completed)
  {
    var s := Run(before);
    var w, n := s.workers[i], Holder(s.workers[i], request);
    CallGoesOn(before, i, request, call, h, f);
    var u, v := Opened(s.store, request), Governs(n, request, call);
    hide Run, Governs, A.Valid, CallSteps, Sound, Answer, Early, Ending;
    Concludes(u, v, h, f);
    Gives(u, v, Early(n, request, call), h, f);
    hide Concluded, Given, Saved, SaveReply, CommitReply;
    assert Answering(s.store, w, u, v, request, r);
    hide Answering, Grounds;
    if v.pc.Committing? { CommittingEnds(s.store, w, u, v, request, r, f); } else { PersistingEnds(s.store, w, u, v, request, r, f); }
  }

  /** The worker goes on to an execution. */
  predicate Executing(n: Worker, v: Worker, request: Request, kind: Kind, key: string, claimId: ClaimId, code: string, approvalId: Option<string>) {
    && v == n.(pc := v.pc, manager := v.manager)
    && v.pc == Claiming(Ticket(request.endpoint, request), kind, key, claimId, Shown(code, approvalId))
  }

  lemma ExecutionEnds(s: Store, w: Worker, v: Worker, request: Request, early: Response, h: Handling, f: Faults,
                      kind: Kind, key: string, claimId: ClaimId, code: string, approvalId: Option<string>)
    requires Grounds(s, w, request) && w.pc == Idle && (request.endpoint, request.key) !in w.uncommitted
    requires Executing(Holder(w, request), v, request, kind, key, claimId, code, approvalId)
    ensures var (t, n) := Concluded(Opened(s, request), v, h, f);
            var claimed := CanClaim(s, kind, key, claimId, f);
            var r := Ran(claimed, h, f, code, approvalId);
            var filed := kind == DecisionRun && r.status == 200 && r.approvalId.Some?;
            && Ending(s, w, t, n, request, r, Given(Opened(s, request), v, early, h, f), f, kind == ApprovalRun || filed)
            && ClaimsAre(s, t, claimed, kind, key, claimId, h, f)
            && Left(n, w, v.manager, if filed then w.pending[r.approvalId.value := claimId.decisionId] else w.pending,
                    if kind == DecisionRun && !w.shadow && claimed && h.returned.Some? && f.settle.NoFault? then w.completed + {key} else w.completed)
  {
    var u := Opened(s, request);
    OperationInPlainTerms(u, v, h, f);
    assert CanClaim(u, kind, key, claimId, f) == CanClaim(s, kind, key, claimId, f);
    var r := Ran(CanClaim(s, kind, key, claimId, f), h, f, code, approvalId);
    var (t, o) := Operated(u, v, h, f);
    hide Ending, Operated, CanClaim, Ran, SaveReply, CommitReply, ClaimIs;
    assert Answering(s, w, t, o, request, r);
    hide Answering, Grounds;
    if o.pc.Committing? { CommittingEnds(s, w, t, o, request, r, f); } else { PersistingEnds(s, w, t, o, request, r, f); }
    hide Saved;
  }

  /** The call executes an operation of this kind, under this claim, and shows this
      decision; its worker's manager is then `manager`. */
  ghost predicate Executes(s: System, t: System, i: nat, request: Request, manager: A.Manager, given: Response, h: Handling, f: Faults,
                           kind: Kind, key: string, claimId: ClaimId, code: string, approvalId: Option<string>)
    requires i in s.workers && i in t.workers
  {
    var w, claimed := s.workers[i], CanClaim(s.store, kind, key, claimId, f);
    var r := Ran(claimed, h, f, code, approvalId);
    var filed := kind == DecisionRun && r.status == 200 && r.approvalId.Some?;
    && Comes(s, t, i, request, r, given, f, kind == ApprovalRun || filed)
    && RanUnder(s, t, kind, key, claimId, h, f)
    && Left(t.workers[i], w, manager, if filed then w.pending[r.approvalId.value := claimId.decisionId] else w.pending,
            if kind == DecisionRun && !w.shadow && claimed && h.returned.Some? && f.settle.NoFault? then w.completed + {key} else w.completed)
  }

  lemma ExecutionComes(before: seq<Step>, i: nat, request: Request, call: Call, h: Handling, f: Faults,
                       kind: Kind, key: string, claimId: ClaimId, code: string, approvalId: Option<string>)
    requires MayCall(Run(before), i, request, call, f)
    requires var n := Holder(Run(before).workers[i], request);
             Holding(n, request) && Executing(n, Governs(n, request, call), request, kind, key, claimId, code, approvalId)
    ensures var s, t := Run(before), Run(before + CallSteps(i, request, call, h, f));
            var w, v := s.workers[i], Governs(Holder(s.workers[i], request), request, call);
            && A.Valid(w.manager) && i in t.workers
            && Executes(s, t, i, request, v.manager, Answer(s.store, w, request, call, h, f), h, f, kind, key, claimId, code, approvalId)
  {
    var s, t := Run(before), Run(before + CallSteps(i, request, call, h, f));
    var w, n := s.workers[i], Holder(s.workers[i], request);
    CallGoesOn(before, i, request, call, h, f);
    ReachableGrounds(before, i, request, call, f);
    hide Run, Governs, A.Valid, CallSteps, Sound, Answer, Early, Ending, Concluded, Given, ClaimsAre, Ran, Left, Grounds, Executes, CanClaim;
    var v := Governs(n, request, call);
    ExecutionEnds(s.store, w, v, request, Early(n, request, call), h, f, kind, key, claimId, code, approvalId);
    ShownExecuted(s, t, i, request, v, Given(Opened(s.store, request), v, Early(n, request, call), h, f), h, f, kind, key, claimId, code, approvalId);
  }

  lemma ShownExecuted(s: System, t: System, i: nat, request: Request, v: Worker, given: Response, h: Handling, f: Faults,
                      kind: Kind, key: string, claimId: ClaimId, code: string, approvalId: Option<string>)
    requires i in s.workers && i in t.workers && forall at: (Kind, string) :: at !in s.store.claims ==> RunsOf(s, at) == 0
    requires Executing(Holder(s.workers[i], request), v, request, kind, key, claimId, code, approvalId)
    requires forall at: (Kind, string) {:trigger RunsOf(t, at)} :: RunsOf(t, at) == RunsOf(s, at) + if Launches(s.store, v, f, at) then 1 else 0
    requires var w, claimed := s.workers[i], CanClaim(s.store, kind, key, claimId, f);
             var r := Ran(claimed, h, f, code, approvalId);
             var filed := kind == DecisionRun && r.status == 200 && r.approvalId.Some?;
             && Ending(s.store, w, t.store, t.workers[i], request, r, given, f, kind == ApprovalRun || filed)
             && ClaimsAre(s.store, t.store, claimed, kind, key, claimId, h, f)
             && Left(t.workers[i], w, v.manager, if filed then w.pending[r.approvalId.value := claimId.decisionId] else w.pending,
                     if kind == DecisionRun && !w.shadow && claimed && h.returned.Some? && f.settle.NoFault? then w.completed + {key} else w.completed)
    ensures Executes(s, t, i, request, v.manager, given, h, f, kind, key, claimId, code, approvalId)
  {
    hide Ending, Ran, ClaimIs, Left;
  }
}
