# Governance engine: a verified model

A Dafny model of a governance engine for the tool calls of autonomous agents, with proofs of what the
engine promises. An agent's call is decided by composed rules; authority comes from delegation; an
escalation waits for a quorum of approvals; policies go through a lifecycle before they are enforced; and
a durable service executes each permitted call at most once, however many workers share its store.

`dafny verify dfyconfig.toml` checks the whole project with Dafny 4.11.

## How it is built

Objects whose methods update their fields in the source are classes here (the store, the service, the
delegation graph, the approval manager, the lifecycle manager and its entries, the interceptor, the runtime
adapter, the audit log, the version store). Each of their methods is proved to do to the object's value
exactly what a transition function specifies, and the laws are proved of the transitions, over every run.

| part | files |
|---|---|
| durable decision protocol | DurableStore, SqliteStore, DurableWorker, Service, Protocol, ProtocolSafety, ProtocolLaws, ProtocolApprovals, OpenRequests, ServiceRuns, Calls, CallOutcomes, CallAnswers |
| delegation | Capabilities, Walks, Delegation, PlainAuthority, DelegationSnapshot, DelegationGraph |
| approvals and the enforcement gate | Model, Tables, Approval, PlainApprovals, ApprovalManager, Audit, Gate, PlainGates, Interceptor |
| policy lifecycle | Lifecycle, LifecycleLaws, LifecycleRuns, PlainLifecycle, PlainTrials, PolicyLifecycle |
| rules, inheritance, compilation | Rules, Composition, PlainRules, Inheritance, Compiler, PlainPolicies |
| bundles and law text | LawText, Parser, PlainValues, PlainLaws, LawDecisions, Versions, Versioning, PolicyDiff, PrintedBundles, PolicyPaths, VersionStore, PlainVersions |

A transition function can be wrong in a way that a law about safety does not notice. The modules whose names
begin with Plain, and CallOutcomes and CallAnswers, therefore say what every operation comes to a second time,
in the terms of the fields, texts and numbers that its callers see and without the functions that compute it,
and prove the two accounts equal on all inputs, refusals and their order included.

The durable protocol is a transition system: any number of workers over one store, one step for every store
transaction and for every stretch of work between two of them, with transactions that fail to begin or to
commit, crashes at any point, restarts that restore the committed state, and operator reconciliation. Ghost
history records how often each handler was started, who acquired each reservation and each claim, and every
committed state. Its invariant is proved step by step; what a step of one worker may do to the others is
stated once (`Undisturbed`) and used for all of them. The service class runs the same worker functions over
the store object, and each of its calls is proved to be a run of the transition system.

## What the proofs found

- A key is remembered by each worker for one request only, whatever its endpoint
  (governance/service.py:363-374), while the store keeps one record for each endpoint. A key used at two
  endpoints can therefore be answered with a conflict although its response is committed. Replay holds
  exactly when the worker does not remember the key for another request.
- A reserved vote or resumption that is not heard is never answered. An approval that is not pending and an
  identity that is not verified end the call with the reservation held (governance/service.py:951-958,
  1016-1024); the refusal of an identity that is no approver is stored under the decisions scope
  (governance/service.py:1027-1033), where no record was reserved, so its commit fails and the client is told
  that the store is unavailable. A state save that fails has the same effect (governance/service.py:508-536).
  The exact condition is stated over all runs, with two runs in which it fails, and every later attempt is
  proved to be declined.
- The inheritance check lets a child widen its parent's quorum (governance/composition.py:68-78); the child's
  approval then need not imply the parent's. The exact condition is stated, and a pair that fails it.
- Under a policy that blocks by default, adding a rule can turn a block into an allow. The exact condition is
  stated (governance/compiler.py:59-70).
- The paths of a semantic difference are ambiguous when a rule's id is the id of another rule, a dot and the
  name of a field (governance/versioning.py:264-279). The exact condition is stated for all compiled bundles,
  and a pair that meets it.
- `activate` files its bundle before it refuses a rollback (governance/versioning.py:339-360). The exact
  condition under which a refused activation changes the store is stated, and a store that it changes.
- An approval snapshot is accepted although its next id is taken (governance/approval.py:296-297); the next
  escalation then replaces the request that was loaded under that id (governance/approval.py:112-130). When what
  is loaded is a valid manager is stated exactly, with a snapshot whose request is replaced.
- `next_sequence` looks only at events of its own trace, while ids are unique in the whole log
  (governance/audit.py:275-291): the number is free exactly unless another trace carries such an id. Logs
  that interceptors wrote never do.

## Conventions

- A request value stands for its own fingerprint, and a policy's semantics for its content hash: hashes are
  taken to be injective. Durable scope strings are data of a fixed shape.
- Times are real numbers and any clock readings are allowed, except where a law says that they do not
  decrease. Lifecycle ids are non-empty and stripped and reasons not blank.
- What a policy decides, what a handler or an approval callback returns, whether an identity is verified and
  whether a result can be encoded are parameters of the calls that depend on them.
- An interceptor in shadow mode observes only: a decision or a resumption then runs its operation whatever the
  policy says, still under its claim. Laws about approvals are of workers that enforce, and say so.
- A fault of the store lets a transaction fail to begin or to commit; either way it has no effect.
- Python dictionaries are maps; the index of active versions keeps its insertion order, which the order of
  expiry events depends on. Identity references of votes are listed in any order by a restored manager.
- Booleans are the numbers that Python takes them for. Values of different kinds are unequal and unordered;
  thresholds that Python cannot order make the inheritance check raise, which is a refusal here.

## Model

| member | source | states |
|---|---|---|
| ProtocolSafety.ReachableIsSafe | governance/service.py:538-688 | The protocol invariant holds in every state that any number of workers reach under any interleaving of requests, votes, resumptions, failed transactions, crashes, restarts and operator reconciliation |
| ProtocolLaws.AtMostOnce | governance/service.py:639-688 | No two steps of a run start the handler of the same execution kind and key, whatever happens in between, also when a consumed approval is lost in a crash and resumed again |
| ProtocolLaws.ExecutedMeansRanOnce | governance/service.py:724-889 | A committed decision or resumption that reports executed true means its handler ran exactly once and its claim is settled as succeeded, now and in every continuation of the run |
| ProtocolLaws.NotExecutedMeansNeverRuns | governance/service.py:724-889 | A committed decision that reports executed false means its handler was never started under that key and never will be |
| ProtocolLaws.CacheAgreesWithStore | governance/service.py:376-393 | Every entry of every worker's local cache equals, up to JSON normalisation, a complete record of the same request in the store |
| ProtocolLaws.CommittedIsReplayed | governance/service.py:538-607 | Exact replay: an idle worker answers the request of a committed record with the committed response if and only if it does not remember the key for another request, and answers any other request under that key with a conflict |
| ProtocolLaws.ShadowsCrossEndpoints | governance/service.py:363-374 | The only request that can shadow a committed one belongs to another endpoint, so keys used at one endpoint only are always replayed |
| ProtocolLaws.SharedKeyIsNotReplayed | governance/service.py:363-374 | A concrete run of two workers in which a key used for a vote and for a decision makes a worker refuse the decision that the other one committed |
| ProtocolLaws.KeptAnswerIsCommitted | governance/service.py:544-554 | An answer whose commit failed is committed as it was, given, and cached when its request is retried |
| ProtocolLaws.ApprovalHistoryIsMonotone | governance/service.py:508-536 | Committed approval states form one history: the revision counts it, the store holds its last entry, continuing a run only extends it, and each later entry keeps every request's bindings, votes, consumption and final state |
| ProtocolLaws.NextSucceeds | governance/storage.py:297-322 | No step of the system removes or rewrites a complete record or a settled claim, or skips a state revision |
| DurableStore.RowOperationsSucceed | governance/storage.py:525-608 | Beginning and completing a request, under any fault, keeps complete records and never changes whose request a record is |
| DurableStore.ClaimOperationsSucceed | governance/storage.py:625-717 | Claiming and settling an execution, under any fault, keeps claim ids and settled claims |
| DurableStore.SavesSucceed | governance/storage.py:335-383 | Saving state, under any fault, moves the revision by exactly one or changes nothing |
| DurableStore.CompletionIsFinal | governance/storage.py:560-608 | Completing a record again succeeds exactly for the same response up to JSON encoding, and changes nothing |
| DurableStore.OnlyOneAcquires | governance/storage.py:625-646 | After a claim was acquired, no later claim of the same key is acquired, with any claim id and after any further store changes |
| SqliteStore.SQLiteGovernanceStore.BeginIdempotency | governance/storage.py:525-558 | The object's transaction reserves, replays or refuses a request as specified, and a fault leaves the tables as they were |
| SqliteStore.SQLiteGovernanceStore.CompleteIdempotency | governance/storage.py:560-608 | The transaction completes a reserved request once, with rollback |
| SqliteStore.SQLiteGovernanceStore.ClaimExecution | governance/storage.py:625-646 | The transaction claims an execution once, refuses foreign claims, with rollback |
| SqliteStore.SQLiteGovernanceStore.CompleteExecution | governance/storage.py:673-717 | The transaction settles an open claim of the same id, with rollback |
| SqliteStore.SQLiteGovernanceStore.SaveState | governance/storage.py:335-383 | Compare-and-swap on the revision, with rollback |
| SqliteStore.SQLiteGovernanceStore.DecisionIsSettled | governance/storage.py:648-671 | Whether the claim of a decision is settled, which tells an uncertain outcome from a request in progress |
| Service.GovernanceService.Idempotent | governance/service.py:363-374 | The local cache answers a known key with its response or with a conflict |
| Service.GovernanceService.ReserveDurable | governance/service.py:538-607 | A kept answer is committed first, otherwise the store reserves, replays or refuses |
| Service.GovernanceService.StoreIdempotent | governance/service.py:376-393 | A response is cached only once it is committed and is otherwise kept for a retry |
| Service.GovernanceService.PersistDurableState | governance/service.py:508-536 | The approval state is saved at the revision that this worker last saw |
| Service.GovernanceService.DurableOperation | governance/service.py:639-688 | The handler is called exactly when its claim is acquired here, its failure is settled as unknown, and its value counts only once its success is recorded |
| Service.GovernanceService.Decision | governance/service.py:724-889 | A decision request does to the store and to the worker what receiving, deciding and concluding it in sequence specify, and gives the client the response of that sequence, in either mode of the interceptor |
| Service.GovernanceService.Approval | governance/service.py:891-921 | Reading an approval persists its expiry the first time it is seen, and says when that failed |
| Service.GovernanceService.Vote | governance/service.py:938-999 | A vote request does what receiving, voting and concluding it in sequence specify, and gives the client the response of that sequence |
| Service.GovernanceService.Resume | governance/service.py:1001-1090 | A resume request does what receiving, rechecking, consuming, operating and concluding in sequence specify, and gives the client the response of that sequence; an identity that is no approver is answered under the decisions scope, and in shadow mode nothing is consumed |
| ServiceRuns.DecisionIsARun | governance/service.py:724-889 | What a decision call does is what the worker's protocol steps do one after another from any reachable state, so the protocol's laws hold of it |
| ServiceRuns.VoteIsARun | governance/service.py:938-999 | The same of a vote call |
| ServiceRuns.ResumeIsARun | governance/service.py:1001-1090 | The same of a resume call |
| ProtocolSafety.ReconcileKeepsInv | governance/service.py:1108-1147 | Operator reconciliation of an open claim keeps the protocol invariant |
| ProtocolSafety.StartKeepsInv | governance/service.py:433-506 | A process that restores its state from the store keeps the protocol invariant |
| Calls.CallIsAnsweredExactly | governance/service.py:538-1090 | Over every run, a reserved call leaves its record complete exactly when it is heard (for a vote a pending approval and a verified identity, for a resumption also a held approval and a required role), the approval state that it wrote is saved and its answer committed; and it abandons its reservation exactly when it is not heard or not saved |
| OpenRequests.AbandonedForGood | governance/service.py:538-607 | A reservation that no live worker can answer stays open, unchanged, in every continuation of the run |
| OpenRequests.AbandonedIsDeclined | governance/service.py:538-607 | Every idle worker declines such a request, under any fault and in every continuation, and changes nothing: as in progress, as uncertain when a decision's handler is settled, or as a conflict |
| Calls.UnheardIsNeverAnswered | governance/service.py:1013-1033 | A vote or a resumption that is not heard, or whose approval state is not saved, is declined at every worker ever after, as in progress |
| Calls.RefusedResumptionStaysOpen | governance/service.py:1027-1033 | A concrete run without faults: an identity that is no approver of a pending approval is told that the store is unavailable, and its reservation is abandoned |
| Calls.UnverifiedVoteStaysOpen | governance/service.py:951-958 | A concrete run without faults: a vote by an identity that is not verified abandons its reservation |
| Calls.EnforcingHears | governance/service.py:1016-1027 | While every worker enforces, a resumption is heard exactly for a pending approval, a verified identity and a required role |
| Calls.EnforcingSaves | governance/service.py:838-848 | An enforcing decision writes approval state exactly when its escalation opens an approval and is recorded as one |
| Calls.AnswerIsCommitted | governance/service.py:376-393 | Whatever a client is given by any call of any run is an error or exactly the response that its record holds |
| Calls.ToldExecutedMeansRanOnce | governance/service.py:724-889 | A client that is told executed true: the handler ran exactly once and its success is on record, in every continuation |
| Calls.ToldNotExecutedMeansNeverRuns | governance/service.py:724-889 | A client that is told that a decision was not executed: its handler never runs under that key |
| ProtocolApprovals.ApprovalRunHasQuorum | governance/service.py:1034-1046 | In every run an enforcing worker calls the handler of an approval only while its manager holds that approval consumed, with at least the threshold of distinct votes from its required roles |
| ProtocolApprovals.PendingIsFiled | governance/service.py:433-506 | While every worker enforces, each approval that a worker could resume, or that the store would restore, is held by the manager beside it |
| CallAnswers.AllowedMeansExecuted | governance/service.py:794-808 | Over every run: a decision that enforcement allows, under a new key and a fresh claim id and without a fault, is answered 200, executed true, Allow, with the handler's value; the answer is on record, the claim succeeded and the handler was started exactly once |
| CallAnswers.ApprovedMeansExecuted | governance/service.py:1034-1090 | The same of the resumption of an approved, unused request before its deadline by a verified approver while the policy still escalates: executed once, and the approval is used up in the worker and on record |
| CallAnswers.DecisionExecutes | governance/service.py:794-836 | Every allowed decision, and every one that is only observed, executes under its decision's claim: with any handler and any fault, the response, the record, the claim, the completed keys, the pending approvals and the number of starts are those stated |
| CallAnswers.DecisionIsTurnedAway | governance/service.py:724-793 | A decision without a handler, unauthenticated, repeated, refused or whose evaluation fails is answered with its code (404, 401, Block, the refusal, 500); nothing is claimed, started or written beside its record |
| CallAnswers.DecisionEscalates | governance/service.py:838-889 | An escalation is answered with the id of the approval that it opens, which is then pending for this decision and on record; it is a block where the manager refuses or only an error is recorded, a failure where nothing is |
| CallAnswers.VoteComesTo | governance/service.py:938-999 | A vote on a pending approval by a verified identity is put to the manager, saved and answered 200 or 409; any other is answered 404 or by its identity's error and leaves its reservation open and all else as it was |
| CallAnswers.ResumptionExecutes | governance/service.py:1034-1090 | A recorded resumption that the manager accepts while the policy still escalates, and one that is only observed, executes under the approval's claim; response, record, claim, approval state and starts are those stated |
| CallAnswers.ResumptionIsTurnedAway | governance/service.py:1034-1062 | An approver's resumption whose policy raises or no longer escalates, that is not recorded or that the manager refuses is answered Block or 500, saved, and starts nothing |
| CallAnswers.ResumptionStops | governance/service.py:1013-1026 | A resumption of an approval that is not pending or not held, or by an identity that is not verified, leaves its reservation open and changes nothing else |
| CallAnswers.RefusalIsMisfiled | governance/service.py:1027-1033 | The refusal of an identity that is no approver is told as a store failure (409 or 503, by whether the decisions scope has a record under the key), kept by the worker, and its reservation stays open |
| CallAnswers.ReadingComesTo | governance/service.py:891-921 | The first reading of an approval after it expired writes the approval state, and no reading changes anything else |
| CallAnswers.RestartComesTo | governance/service.py:433-506 | A started worker is idle, remembers no key, is up to date, and holds what is on record: every request, and the pending approvals whose handlers it has |
| CallAnswers.ReconciliationComesTo | governance/service.py:1108-1147 | Reconciliation settles an open claim as unknown and changes nothing else |
| CallOutcomes.ReservedExactly | governance/service.py:538-607 | A request is reserved exactly when its key is new to the cache, to the kept answers and to the store and the transaction succeeds; then its record is open and nothing else happened |
| CallOutcomes.DeclinedInPlainTerms | governance/service.py:363-374 | Any other request: which of the recorded answer, a conflict, an uncertain outcome, in progress or a store failure it is given, in every case |
| CallOutcomes.OperationInPlainTerms | governance/service.py:639-688 | An operation is claimed exactly when nobody claimed it or its claim id; the claim afterwards is open, unknown or succeeded and the response 500 or 200 by what the handler, the settlement and the encoder did |
| DurableStore.NormalIsStored | governance/storage.py:325-333 | A stored value is read back with lists for its tuples, at every depth, and otherwise as it was |
| DelegationGraphs.DelegationGraph.Authority | governance/delegation.py:218-264 | The proof is the exact one and allows exactly when the capability is intrinsic or a chain of active grants reaches the actor |
| Delegation.ProofIsExact | governance/delegation.py:218-264 | A proof allows exactly the authorised, and its path is determined: the least by length and then ids |
| Delegation.ActiveIffChain | governance/delegation.py:67-89 | A grant passes the recursive validity check exactly when a chain of unrevoked, unexpired grants with matching endpoints, narrowing scope and falling depth leads to it from an intrinsic holder |
| Delegation.ChainAttenuates | governance/delegation.py:67-89 | Depth falls along a chain by at least the number of links |
| Delegation.ChainLength | governance/delegation.py:67-89 | A chain is no longer than its root's depth plus one |
| Delegation.ChainNarrows | governance/delegation.py:67-89 | Every grant of a chain stays within its root's scope |
| Delegation.ChainIsDetermined | governance/delegation.py:101-119 | A grant has one chain |
| DelegationGraphs.DelegationGraph.GrantPath | governance/delegation.py:101-119 | The loop over parent links returns the links root first, and nothing on a cycle |
| DelegationGraphs.TrailIsChain | governance/delegation.py:101-119 | For an active grant that walk is its authority chain |
| DelegationGraphs.DelegationGraph.SourceGrant | governance/delegation.py:91-99 | The source of a grant is the least active grant to the grantor that covers the scope, or none when there is none |
| DelegationGraphs.DelegationGraph.ActorReachable | governance/delegation.py:121-137 | The worklist ends and answers reachability over live grants exactly |
| DelegationGraphs.DelegationGraph.Grant | governance/delegation.py:139-198 | A grant call moves the graph as specified and keeps it valid |
| Delegation.GrantOutcome | governance/delegation.py:139-198 | A refused call at most registers the grantor's capabilities; an accepted one adds a grant that closes no cycle and has an intrinsic or an active, wider and deeper source |
| DelegationGraphs.DelegationGraph.RevokeGrant | governance/delegation.py:200-204 | Revocation marks a known grant and refuses an unknown one |
| DelegationGraphs.DelegationGraph.HasAuthority | governance/delegation.py:213-216 | Authority is answered exactly |
| Delegation.ApplyKeepsValid | governance/delegation.py:139-204 | Every operation keeps ids fresh and every grant grounded (axiom GA3) |
| Delegation.ActivityIsAntitone | governance/delegation.py:67-89 | A grant that is active in a later state or at a later time was active before |
| Delegation.DelegationStaysAcyclic | governance/delegation.py:121-198 | In every run from an empty graph with non-decreasing times the live actor graph is acyclic at every time from the last grant on |
| Walks.NewEdgeKeepsAcyclic | governance/delegation.py:121-137 | An edge whose end does not reach its start keeps a graph acyclic |
| Delegation.RevocationDominates | governance/delegation.py:200-264 | After a revocation no proof in any later state or at any time has the grant on its path (axiom GA4) |
| Delegation.AuthorityIsConserved | governance/delegation.py:58-65 | Grants by actor id, revocations and expiry authorise only what an intrinsic holder already had (axiom GA1) |
| Capabilities.DescentIsPartialOrder | governance/model.py:82-85 | Descent of dotted names is a partial order |
| DelegationSnapshot.SnapshotRoundTrip | governance/delegation.py:273-383 | Restoring the snapshot of a valid graph gives the same graph, and is accepted exactly when every grant names both its actors |
| DelegationSnapshot.AcceptedIsGrounded | governance/delegation.py:304-383 | Whatever snapshot is accepted gives a valid graph in which every grant is grounded when revocation and expiry are ignored, and whose next id is free |
| DelegationGraphs.FromSnapshot | governance/delegation.py:304-383 | The loader accepts exactly the acceptable snapshots and builds the restored graph |
| DelegationGraphs.DelegationGraph.TakeSnapshot | governance/delegation.py:273-300 | The snapshot lists the whole graph in sorted order |
| Capabilities.DescentBySegments | governance/model.py:82-85 | A name descends from another exactly when the list of its dot-separated segments starts with the other's |
| PlainAuthority.AuthorityInPlainTerms | governance/delegation.py:218-264 | Authority, said of segments, holders and grants: allowed exactly for what the actor holds itself and for what unrevoked, unexpired grants hand down to it, each from the last one's grantee, within its scope and with less depth; the path is the soonest such chain |
| PlainAuthority.HolderAlone | governance/delegation.py:229-264 | In a graph without grants the holder of one capability is allowed exactly the names whose segments extend its segments |
| PlainAuthority.GrantInPlainTerms | governance/delegation.py:139-198 | A grant call, refusal by refusal in the order of the checks: depth, scope, widening, a cycle of standing grants, authority, depth left, expiry; otherwise the next numbered grant from the holder itself or from its first covering grant |
| DelegationSnapshot.AcceptanceInPlainTerms | governance/delegation.py:304-383 | A snapshot is accepted exactly when it is of this version, its ids differ, its grants name both their actors and it gives a valid graph |
| ApprovalManagers.ApprovalManager.RequestApproval | governance/approval.py:95-131 | An escalation opens one pending request bound to what it was asked for, or is refused |
| ApprovalManagers.ApprovalManager.Get | governance/approval.py:133-147 | Reading at a time expires exactly the unconsumed open requests whose deadline has come |
| ApprovalManagers.ApprovalManager.Approve | governance/approval.py:188-221 | A vote is accepted or refused as specified and approves at the threshold |
| ApprovalManagers.ApprovalManager.Deny | governance/approval.py:223-244 | A denial ends an open request |
| ApprovalManagers.ApprovalManager.PrepareResume | governance/approval.py:246-263 | An approved, unconsumed request with the same bindings is consumed, any other refused |
| Approval.StepAdvances | governance/approval.py:95-263 | Every operation under any clock keeps the managers valid, keeps bindings, extends votes, keeps consumption and never leaves a denied or expired state |
| Approval.RunAdvances | governance/approval.py:95-263 | So does every run |
| Approval.ConsumedOnlyWithQuorum | governance/approval.py:246-263 | A request becomes consumed only by a resumption before its deadline, with its bindings, with at least its threshold of distinct votes from its required roles |
| Approval.ConsumedAtMostOnce | governance/approval.py:246-263 | In no run are two resumptions of one request accepted |
| Approval.SnapshotRoundTrip | governance/approval.py:265-355 | The snapshot of every valid manager is accepted and restores it exactly |
| ApprovalManagers.FromSnapshot | governance/approval.py:281-355 | The loader accepts exactly the acceptable snapshots and builds the restored manager |
| PlainApprovals.VoteInPlainTerms | governance/approval.py:178-221 | A vote is added exactly when the request is pending before its deadline, the role is required and has not voted, the bindings are the request's, and the identity is absent where it may be, or genuine, within its time, holding the role and with a reference; it approves at the threshold |
| PlainApprovals.VoteRefusals | governance/approval.py:188-221 | Why a vote is turned away, in the order of the checks |
| PlainApprovals.DenialInPlainTerms | governance/approval.py:223-244 | A denial is accepted exactly for a pending request before its deadline, a required role and an identity that may act in it, and ends the request |
| PlainApprovals.ResumptionInPlainTerms | governance/approval.py:246-263 | A resumption is accepted exactly for an approved, unused request before its deadline under its four bindings, and uses it up |
| PlainApprovals.AskingInPlainTerms | governance/approval.py:95-131 | An escalation opens the stated pending request under the next id, or is refused for its kind, its identity or its lifetime |
| PlainApprovals.VotesAreBacked | governance/approval.py:178-221 | In every run of a manager that requires identities each vote was cast by a verified identity that held its role at the time, and its reference is kept |
| PlainApprovals.AcceptanceInPlainTerms | governance/approval.py:281-355 | A snapshot is accepted exactly when it is of this version, its ids differ and its requests are valid but for a lifetime that may be empty |
| PlainApprovals.LoadedIsValidExactly | governance/approval.py:281-355 | What is loaded is a valid manager exactly when every request has a lifetime and an id that was given before the next one |
| PlainApprovals.LoadedRequestMayBeReplaced | governance/approval.py:296-297 | A concrete accepted snapshot whose next id is taken: the next escalation replaces the pending request that was loaded |
| Gates.OperationsAreRecorded | governance/interceptor.py:69-276 | An operation starts exactly when a record that permits it was made just before, and in enforce mode that record says Allow |
| Gates.ExecutedMeansAllowed | governance/interceptor.py:135-276 | In enforce mode a result reports executed exactly when its decision is Allow, so the adapter's own check never fails |
| Gates.ResumedAtMostConsumed | governance/interceptor.py:204-276 | Over any calls and clocks in enforce mode, and any other use of the approval manager between them, the operations that resumptions started are no more than the requests that were consumed |
| Gates.CompletedAtMostOnce | governance/runtime.py:107-187 | Over any calls in enforce mode a request id is completed at most once |
| Gates.FailuresAreSplit | governance/runtime.py:107-187 | A failure of a started operation is reported as such and never as a block; a governance failure in enforce mode starts nothing; unverified and duplicate calls start nothing |
| Interceptors.Interceptor.Record | governance/interceptor.py:69-112 | The record gets the next id of the trace, and is refused exactly when the id is taken |
| Interceptors.Interceptor.Execute | governance/interceptor.py:135-202 | Execution moves the interceptor as specified and calls the operation exactly when the result says it started |
| Interceptors.Interceptor.ResumeApproved | governance/interceptor.py:204-276 | Resumption moves the interceptor as specified and calls the operation exactly when the result says it started |
| Interceptors.RuntimeAdapter.Invoke | governance/runtime.py:107-187 | A call moves the adapter as specified and calls the operation exactly when the outcome says it started |
| Interceptors.RuntimeAdapter.AnswerError | governance/runtime.py:80-105 | A governance error is recorded as a block; a shadow adapter still runs the operation |
| Interceptors.Interceptor.constructor | governance/interceptor.py:46-67 | A recovered trace goes on after the highest number that the log holds for it |
| Audit.NextSequenceIsFreshExactly | governance/audit.py:281-291 | From that number on no id of the trace is in the log, exactly unless an event of another trace carries such an id |
| Audit.ForeignIdsCollide | governance/audit.py:281-291 | A concrete log in which an event of another trace takes the next id |
| Gates.RecordsAreNeverRefused | governance/interceptor.py:69-112 | Over any calls, a recovered adapter over a log whose events are numbered under their own traces keeps the log so numbered, its own ids free, and every record accepted |
| Gates.FreshAdapterAnswers | governance/runtime.py:107-187 | With free ids an enforcing adapter raises nothing but the failure of a started operation: every failure of governance is a recorded block |
| Audit.IdsAreInjective | governance/interceptor.py:78-78 | An event id determines its trace and its number |
| Audit.AuditLog.Append | governance/audit.py:275-279 | Appending is refused exactly for a taken id and otherwise adds the event at the end |
| Audit.AuditLog.NextSequenceOf | governance/audit.py:281-291 | The loop finds the highest number of the trace |
| PlainGates.ExecutionInPlainTerms | governance/interceptor.py:135-202 | A call under a decision: allowed and observed operations run, blocked ones do not, an escalation opens an approval or is up to the handler; what is recorded first, what the caller is given and what an id that is taken does |
| PlainGates.ResumptionInPlainTerms | governance/interceptor.py:204-276 | A resumption: which decision is recorded and whether it runs, by what the policy now decides and what the manager answers |
| PlainGates.ResumptionStartsExactly | governance/interceptor.py:204-276 | An enforced resumption starts its operation exactly when its record can be made, the policy still escalates to the approval's role, and the approval is granted, unused, before its deadline and bound to the same request |
| PlainGates.InvocationInPlainTerms | governance/runtime.py:107-187 | An invocation: a completed request is not repeated, an unverified caller is blocked on record, any other call is what the interceptor makes of it, and a failure of governance becomes a recorded block |
| PlainGates.NextNumberInPlainTerms | governance/audit.py:281-291 | The next number is one more than the highest that the trace's events carry, or one |
| LifecycleRuns.IndexAgrees | governance/lifecycle.py:358-368 | In every run a version is active in an environment exactly when it is deployed there, and its aggregate state is deployed exactly when it is active somewhere |
| LifecycleRuns.ActiveIsEntitled | governance/lifecycle.py:621-814 | In every run an active version was validated and simulated and has at least the environment's threshold of votes by distinct approvers |
| LifecycleRuns.ExpiryIsFinal | governance/lifecycle.py:816-836 | A version that expired in one environment is expired in every continuation and never active again in any environment |
| LifecycleRuns.CurrentIsLive | governance/lifecycle.py:838-843 | The current policy is the active version's bundle and is never past its expiry |
| LifecycleRuns.LogRebuildsState | governance/lifecycle.py:370-411 | The log is append-only, every event leaves the state that the earlier ones give, and the events alone rebuild all states and the index |
| LifecycleRuns.EventIdsDiffer | governance/lifecycle.py:370-411 | Events have distinct ids |
| LifecycleRuns.ProductionDeployHasEvidence | governance/lifecycle.py:681-743 | Production is taken over by deployment only when a recorded canary compared this bundle with one of the version it replaces and stayed within its allowed changes |
| LifecycleRuns.SamplingIsMonotone | governance/lifecycle.py:586-589 | A case sampled at a rate is sampled at every higher rate, and at rate one every case is |
| LifecycleRuns.SampledAreSampled | governance/lifecycle.py:586-589 | A sample holds exactly the cases below its rate |
| LifecycleRuns.FullRateSamplesAll | governance/lifecycle.py:586-589 | At rate one the sample is the whole list of cases |
| LifecycleRuns.CanaryPassesAtLowerRates | governance/lifecycle.py:586-607 | A canary that passes at a rate passes on the same cases and baseline at every lower rate |
| LifecycleLaws.RunIsValid | governance/lifecycle.py:413-836 | Every run keeps the lifecycle invariant |
| LifecycleLaws.MonitorKeepsValid | governance/lifecycle.py:816-836 | After monitoring no active version is past its expiry and the invariant holds |
| LifecycleLaws.SwitchingKeepsValid | governance/lifecycle.py:681-814 | Deploying over a version and rolling back to one keep the invariant |
| PolicyLifecycle.RunSimulation | governance/lifecycle.py:482-520 | The loop compares both policies on every case |
| PolicyLifecycle.LifecycleEntry.RecomputeState | governance/lifecycle.py:358-368 | The aggregate of the environments' states |
| PolicyLifecycle.PolicyLifecycleManager.AppendEvent | governance/lifecycle.py:370-411 | One numbered event is added at the end |
| PolicyLifecycle.PolicyLifecycleManager.DraftPolicy | governance/lifecycle.py:413-442 | A draft is filed once, and refused for other content or a past expiry |
| PolicyLifecycle.PolicyLifecycleManager.Validate | governance/lifecycle.py:444-476 | A draft that compiles becomes validated; a failure is logged |
| PolicyLifecycle.PolicyLifecycleManager.Simulate | governance/lifecycle.py:522-557 | A validated policy is simulated against the supplied or the active baseline |
| PolicyLifecycle.PolicyLifecycleManager.Canary | governance/lifecycle.py:559-619 | A sample is compared with the baseline and the report is kept |
| Lifecycle.RefusedVoteChangesNothing | governance/lifecycle.py:635-654 | A refused vote leaves the manager as it was |
| PolicyLifecycle.PolicyLifecycleManager.Approve | governance/lifecycle.py:621-671 | One vote an approver, one a role in production, and approval at the threshold |
| PolicyLifecycle.PolicyLifecycleManager.Deploy | governance/lifecycle.py:681-743 | Deployment with its refusals, supersession and events |
| PolicyLifecycle.PolicyLifecycleManager.Promote | governance/lifecycle.py:745-766 | Promotion of what is current in another environment |
| PolicyLifecycle.PolicyLifecycleManager.Rollback | governance/lifecycle.py:768-814 | Rollback with its refusals and its two events |
| PolicyLifecycle.PolicyLifecycleManager.Monitor | governance/lifecycle.py:816-836 | The loop expires every due key that was active when it began |
| PolicyLifecycle.PolicyLifecycleManager.Current | governance/lifecycle.py:838-843 | The current bundle after monitoring |
| PlainLifecycle.ActiveHasQuorum | governance/lifecycle.py:657-679 | In every run of a manager with threshold n an active production version holds at least n votes by distinct approvers, and an active version elsewhere at least one |
| PlainTrials.VoteApprovesExactly | governance/lifecycle.py:621-671 | In every run a vote turns a validated version into an approved one exactly when it brings the votes to the constructor's threshold in production, or to one elsewhere |
| PlainTrials.UnapprovedIsShort | governance/lifecycle.py:657-671 | In every run a draft or validated version has too few votes in every environment |
| PlainLifecycle.VoteInPlainTerms | governance/lifecycle.py:621-671 | A vote is accepted exactly when the version is known, simulated and in a state that may be voted on, the role is configured and neither the approver nor, in production, the role has voted; then it is appended and noted |
| PlainLifecycle.DeploymentInPlainTerms | governance/lifecycle.py:673-743 | A deployment: refused without effect for an unknown version, its state, too few votes (exactly below the quorum), or its evidence; otherwise it takes the environment from the version it supersedes, with the stated states, index and events |
| PlainLifecycle.RollbackInPlainTerms | governance/lifecycle.py:768-814 | A rollback: refused in order, for too few votes exactly below the quorum; otherwise the target takes the environment from the version that is rolled back |
| PlainLifecycle.PromotionInPlainTerms | governance/lifecycle.py:745-766 | A promotion expires what is due and deploys exactly the version in place in the source environment |
| PlainLifecycle.MonitoringInPlainTerms | governance/lifecycle.py:816-836 | Monitoring: exactly the versions past their expiry leave the index, in its order, each with its event, and expire where they were in place |
| PlainTrials.DraftInPlainTerms | governance/lifecycle.py:413-442 | Filing a version: its refusals, and the entry and event that it makes |
| PlainTrials.ValidationInPlainTerms | governance/lifecycle.py:444-476 | Validation: a draft that compiles becomes validated, one that does not is noted |
| PlainTrials.SimulationInPlainTerms | governance/lifecycle.py:482-520 | A simulation lists both policies' decisions case by case and marks exactly those that differ; repeated ids and policies that do not compile are refused |
| PlainTrials.CanaryInPlainTerms | governance/lifecycle.py:559-619 | A canary: its refusals in order; otherwise the cases with a digest below the rate, in order, are simulated, and it passes exactly when no more than the limit changed |
| Composition.ResolutionIsOrderFree | governance/composition.py:152-235 | For rules with distinct ids every permutation gives the identical decision |
| Composition.ResolutionIsExact | governance/composition.py:152-235 | Block exactly when authority is refused or a blocking rule is violated, Allow exactly when nothing is violated; the least violated id of its kind decides and the matched rules are exactly the applicable ones in order |
| Composition.MoreRulesNeverLoosen | governance/composition.py:152-235 | Adding rules never lowers the severity |
| Composition.SortAscends | governance/composition.py:163-163 | Sorting by id gives ascending ids |
| Rules.SatisfactionSplits | governance/rule.py:89-122 | A rule is satisfied exactly when its scope, authority, class and predicate conditions and its approval condition hold |
| Rules.ApprovalsCount | governance/rule.py:112-117 | The approvals of a quorum are counted as a set |
| PlainRules.RuleInPlainTerms | governance/rule.py:84-122 | The result of a rule, said of the fields of the rule, the action and the context: which parameter or part of the context its condition reads, how the six operators compare numbers and words, how a quorum is met |
| PlainRules.DecisionInPlainTerms | governance/composition.py:152-235 | A decision, whole, in the same terms: the matched ids in order, which rule decides, whom it asks, and every field of the record |
| LawDecisions.ConstrainedLawBlocks | governance/parser.py:43-107 | From text to decision: a printed law with one comparison blocks, within its scope, exactly what the comparison does not confirm |
| LawDecisions.BudgetLawBlocks | governance/parser.py:43-59 | A law `constraint: budget_used <= t` blocks exactly when the budget used is above t |
| Inheritance.ChildTightens | governance/composition.py:44-93 | An accepted child permits, but for approvals, only what its parent permits |
| Inheritance.PredicateTightens | governance/composition.py:23-41 | A predicate accepted as at least as restrictive implies the parent's on every action |
| Inheritance.ApprovalCarriesExactly | governance/composition.py:64-78 | The child's approval implies the parent's for every set of prior approvals exactly when the child's quorum forces enough of the parent's roles, or the single roles agree |
| Inheritance.SatisfactionCarries | governance/composition.py:44-93 | An accepted child whose approval carries over is satisfied only if its parent is |
| Inheritance.SingleApproverCarries | governance/composition.py:64-67 | With the same single approver, or none asked of the parent, approval carries over |
| Inheritance.AcceptedQuorumMayNotCarry | governance/composition.py:68-78 | A concrete accepted pair in which the child is satisfied and the parent violated, by an approver of the wider quorum |
| Inheritance.InheritRules | governance/composition.py:96-114 | Every parent and child is kept, and inheritance succeeds exactly when ids are new and every child with a parent tightens it; otherwise the first child at fault gives the error |
| Inheritance.InheritanceNeverLoosens | governance/composition.py:96-114 | Inheriting children never lowers the severity of a decision |
| Inheritance.ValidateInheritanceGraph | governance/composition.py:117-141 | The depth-first search accepts exactly when every parent link is closed and tightens and no chain of links is a cycle, and otherwise names a fault of the graph |
| Inheritance.Visit | governance/composition.py:122-138 | One visit checks a rule and all above it, or finds a fault: a missing parent, a cycle or what a rule does not keep |
| Inheritance.DescendantsTighten | governance/composition.py:117-141 | In an accepted graph a rule tightens every ancestor, not its parent alone |
| Inheritance.DescendantsSatisfy | governance/composition.py:117-141 | And its satisfaction implies theirs as far as each approval on the way carries over |
| PlainPolicies.WeakeningInPlainTerms | governance/composition.py:23-93 | The first of the eight things that a child does not keep of its parent, said of segments, numbers, sets and comparisons, or none |
| PlainPolicies.CompilationInPlainTerms | governance/compiler.py:22-115 | Rules compile exactly when they have their own ids, ask known roles, do not contradict each other, name parents that they tighten, form no line that returns to its rule, under a default that does not escalate |
| PlainPolicies.PolicyInPlainTerms | governance/compiler.py:59-70 | A compiled policy blocks what concerns no rule when it blocks by default, and otherwise decides by its rules |
| Compiler.ValidateRules | governance/compiler.py:22-48 | Rules are accepted exactly when ids are distinct, roles are known and equal conditions have equal dispositions; otherwise the first rule at fault gives the error |
| Compiler.CompilePolicy | governance/compiler.py:73-115 | Compilation succeeds exactly when the rules with the inherited parents are consistent, closed and acyclic under a default that can be enforced and each child of inherited parents tightens one of them; the policy then holds them all, and otherwise the first check that fails gives the error |
| Compiler.PolicyIsOrderFree | governance/compiler.py:59-70 | A compiled policy decides the same in every order of its rules |
| Compiler.AddedRulesLoosenExactly | governance/compiler.py:59-70 | Adding rules to a policy lowers a severity exactly when the policy blocks by default for want of an applicable rule and an added rule applies while none of them blocks |
| Compiler.DefaultBlockMayLoosen | governance/compiler.py:59-70 | A concrete policy that blocks by default and allows once a rule is added |
| Versions.VersionRoundTrip | governance/versioning.py:41-45 | Every version X.Y.Z is read back from its text |
| Versions.VersionIsCanonical | governance/versioning.py:41-45 | A version has one text, so equal keys mean equal versions |
| Versions.PrecedenceIsStrictOrder | governance/versioning.py:41-45 | Precedence is a strict total order |
| PlainVersions.ActivationInPlainTerms | governance/versioning.py:339-377 | Activation over an active version, compared by major, then minor, then patch as numbers: an earlier one needs an override, the same one is answered without an event, any other becomes active and is noted |
| PlainVersions.RollbackInPlainTerms | governance/versioning.py:379-383 | Rollback to a registered version, in the same terms |
| Versioning.ReferencedExactly | governance/versioning.py:152-160 | The roles that are collected are exactly those that some rule asks |
| Versioning.Compile | governance/versioning.py:192-200 | A bundle compiles exactly when its source gives an enforceable policy with its semantics |
| Versioning.FromSource | governance/versioning.py:136-167 | A bundle is made exactly of a well-formed identity and a source that gives an enforceable policy, with the semantics of its rules and the given or collected roles, and it compiles again |
| PolicyDiff.Diff | governance/versioning.py:255-294 | The loops list exactly the specified changes in order |
| PolicyDiff.DifferenceIsComplete | governance/versioning.py:255-294 | Between compiled bundles the changes patch the first into the second, and are empty exactly when identity, version and semantics are equal |
| PolicyDiff.DifferencePatches | governance/versioning.py:255-294 | The changes are a complete patch on any contents keyed by rule id |
| PolicyDiff.NoChangeMeansEqual | governance/versioning.py:255-294 | There is no change exactly when the contents are equal |
| PolicyPaths.ListedExactly | governance/versioning.py:260-284 | A difference lists a change exactly when it is due: the rules of one side only, the fields that differ of rules on both, and the differing attributes |
| PolicyPaths.ReportedInOrder | governance/versioning.py:260-284 | Changes are reported in order: identity, version, rules by id and their fields by name, roles, default |
| PolicyPaths.PathsMeetExactly | governance/versioning.py:264-279 | Two changes share a path exactly when they are about the same thing, or one is about a whole rule that is named like the field that the other is about |
| PolicyPaths.AmbiguousExactly | governance/versioning.py:264-279 | The paths of a difference of compiled bundles are ambiguous exactly when a field of a common rule differs and one bundle alone has a rule whose id is that field's path |
| PolicyPaths.UndottedPathsDiffer | governance/versioning.py:264-279 | Rule ids without a dot keep the paths of all changes apart |
| PolicyPaths.CompiledPathsCollide | governance/versioning.py:264-279 | Two bundles that compile, with rules LAW-A and LAW-A.capability, whose difference has such paths |
| VersionStore.ContentNeverChanges | governance/versioning.py:330-383 | In every run, rollbacks included, the content of a registered version never changes |
| VersionStore.ActiveNeverDecreases | governance/versioning.py:339-377 | Without rollbacks and overrides the active version of a policy never decreases |
| VersionStore.RefusedActivationChangesExactly | governance/versioning.py:339-360 | A refused activation changes the store exactly when a rollback was refused for want of an override after its bundle was filed anew, and that filing is the change |
| VersionStore.RefusedRollbackIsFiled | governance/versioning.py:346-360 | A concrete store: version 1.0.0 is refused beside the active 2.0.0 and is on file afterwards |
| VersionStore.ContentIsNeverReplaced | governance/versioning.py:361-364 | The check that the active version keeps its content never fails in a valid store |
| VersionStore.ReactivationRecordsNothing | governance/versioning.py:361-371 | Activating the active version again is answered with the event that brought it in and records nothing |
| VersionStore.RunIsValid | governance/versioning.py:330-414 | Bundles are filed under what they say, active versions are registered and recorded, and events are numbered |
| VersionStore.PolicyVersionStore.RegisterBundle | governance/versioning.py:330-337 | A version is registered unless it has other content |
| VersionStore.PolicyVersionStore.ActivateBundle | governance/versioning.py:339-377 | Activation with its refusals; the bundle stays registered when a rollback is refused |
| VersionStore.PolicyVersionStore.RollBack | governance/versioning.py:379-383 | Rollback to a registered version |
| VersionStore.PolicyVersionStore.Current | governance/versioning.py:385-389 | The active bundle of a policy |
| PlainLaws.ParsingExactly | governance/parser.py:121-204 | For every text: it is accepted and gives these rules exactly when its lines lay out laws (noise, heads, fields) whose fields are fine, that have capabilities and different ids, and that make these rules by the last value of every field |
| PlainLaws.ParsingInPlainTerms | governance/parser.py:121-204 | For every text the rules, or the first error with its line: a field outside a law, no colon, a field's own fault, a law without a capability, no laws, a repeated id |
| PlainLaws.FieldInPlainTerms | governance/parser.py:157-189 | One more field of a law: refused exactly for its fault, which depends on the fields before it only for the two kinds of approval, and otherwise stated |
| PlainValues.LevelExactly | governance/parser.py:79-86 | An authority level is read exactly from its spellings: a signed whole number among spaces, after >= or not |
| PlainValues.NumberExactly | governance/parser.py:98-104 | A number is read exactly from its spellings, with its decimal value |
| PlainValues.PolicyExactly | governance/parser.py:110-118 | An approval policy is read exactly from its spellings: quorum N of a list, keywords in any case |
| PlainValues.WordsRead | governance/parser.py:90-93 | Words are read from any spelling of them: bare, in single quotes or in double quotes with backslashes, with blanks between them |
| PlainValues.ConstraintInPlainTerms | governance/parser.py:89-107 | What a constraint of such words states, or why it is refused |
| LawText.LinesInPlainTerms | governance/parser.py:143-143 | Every text is split into its lines, with a carriage return and the line feed after it as one break |
| Parser.LawTextRoundTrip | evaluation/reference.py:23-41 | The parser reads what the printer writes: for any non-empty list of plain laws with distinct ids, the rules they state, in order, with the defaults filled in |
| Parser.ConstraintRoundTrip | governance/parser.py:89-107 | A comparison of plain words is read back as its predicate specification |
| Parser.WholeThresholdRoundTrip | governance/parser.py:98-106 | A whole-number threshold is read back as its value |
| Parser.ParseLaws | governance/parser.py:121-204 | The line loop computes the fold over the lines, with its errors and their lines |
| Parser.PolicySource | evaluation/reference.py:23-41 | The printer's loop writes the specified text |
| LawText.SplitJoined | governance/parser.py:143-143 | Lines joined with line feeds are split back |
| LawText.CommasRoundTrip | governance/parser.py:172-172 | A list joined with commas is split back |
| LawText.StripTrims | governance/parser.py:144-144 | Stripping trims, and leaves what is trimmed |

## Left out

- HTTP and SDK transports, the command line, telemetry and logging, file stores, database pragmas, migrations, backup and restore: input and output.
- HMAC, SHA-256 and identity credentials: fingerprints are compared as values, a digest prefix is data of its case, and a verified identity is an input.
- Handlers that call the service again under its lock, and commits whose outcome the caller cannot know.
- Floating-point rounding, infinities and NaN: numbers are reals; a 48-bit prefix divided by a power of two is exact.
- Assurance runners, benchmark scoring and conformance envelopes: they would add only field checks.
- Decision, audit and lifecycle attributes that no decision depends on (reason texts of refusals, fingerprints, event attributes and times of record).
- The type checks of the snapshot loaders: snapshots are typed values, so only their value checks remain.
- Callable predicates: rules are those that the parser builds, with a predicate specification.
- A read of a claim that fails, or that sees a later store than the reservation did: it only picks the error code of a reservation held elsewhere.
- Serialised bundles (`from_dict`, `from_json`, `from_policy`) and the provenance checks.
- Unusual spellings of numbers in law text (exponents, underscores, digits of other scripts, `inf`, `nan`) and of quorum counts.
- Actor cycles in a delegation snapshot, which the loader does not look for.
- Service.GovernanceService.Decision: models what evaluation comes to as one verdict; the interceptor and the runtime adapter behind it are modelled on their own.
- Two threads inside one worker: the service serialises them with its lock.
