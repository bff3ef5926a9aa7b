/** When an operation may start: the interceptor and the runtime adapter as values
    (governance/interceptor.py, governance/runtime.py). */
module Gates {
  import opened Text
  import opened Model
  import opened Audit
  import A = Approval

  datatype Mode = Shadow | Enforce

  /** An interceptor: its audit log, its own events and counter, and its approval manager. */
  datatype Gate = Gate(mode: Mode, trace: string, log: seq<AuditEvent>, events: seq<AuditEvent>, nextEventId: nat, manager: Option<A.Manager>)

  /** What a call comes to, and whether it started its operation. */
  datatype Interception =
    | Intercepted(decision: Decision, executed: bool, value: Option<string>, approvalId: Option<string>)
    | GovernanceRaised
    | OperationRaised

  predicate Started(i: Interception) { i.OperationRaised? || (i.Intercepted? && i.executed) }

  /** `_record`: the counter moves on even when the log refuses the id. */
  function Recorded(g: Gate, d: Decision, executed: bool, outcome: DecisionKind): (Gate, bool) {
    var e := AuditEvent(EventId(g.trace, g.nextEventId), g.trace, d, Some(executed), outcome);
    if e.id in IdsOf(g.log) then (g.(nextEventId := g.nextEventId + 1), false)
    else (g.(nextEventId := g.nextEventId + 1, log := g.log + [e], events := g.events + [e]), true)
  }

  /** The operation returns a value or raises. */
  function Run(d: Decision, effect: Option<string>, approvalId: Option<string>): Interception {
    if effect.None? then OperationRaised else Intercepted(d, true, effect, approvalId)
  }

  /** Record a decision that lets the operation start, then start it. */
  function RecordAndRun(g: Gate, initial: Decision, final: Decision, effect: Option<string>, approvalId: Option<string>): (Gate, Interception) {
    var (h, ok) := Recorded(g, initial, true, final.kind);
    if !ok then (h, GovernanceRaised) else (h, Run(final, effect, approvalId))
  }

  /** Record a decision that does not. */
  function RecordAndStop(g: Gate, initial: Decision, final: Decision, approvalId: Option<string>): (Gate, Interception) {
    var (h, ok) := Recorded(g, initial, false, final.kind);
    if !ok then (h, GovernanceRaised) else (h, Intercepted(final, false, None, approvalId))
  }

  /** A decision reached from another, with its rules and its authority. */
  function Derived(kind: DecisionKind, reason: string, from: Decision): Decision
    requires !kind.Escalate?
  {
    DecisionRecord(kind, None, reason, from.matchedRules, from.authoritySource, from.authorityPath, [], 0)
  }

  /** The approval handler, if there is one: it approves, refuses or raises. */
  datatype Handler = NoHandler | Approves | Refuses | Raises

  /** What an escalation is bound to when an approval is opened for it. */
  datatype Asking = Asking(binding: A.Binding, identity: Option<string>, now: real)

  function Ask(d: Decision, q: Asking): A.Op { A.Ask(d, q.binding, q.identity, q.now, None) }

  /** An escalation without an approval manager, after its handler was asked. */
  function Resolved(initial: Decision, handler: Handler): Decision {
    if !initial.kind.Escalate? || !Truthy(initial.role) then initial
    else if handler.Approves? then Derived(Allow, "approved by " + initial.role.value, initial)
    else if handler.Refuses? then Derived(Block, "approval denied by " + initial.role.value, initial)
    else initial
  }

  /** `execute`; `initial` is what the policy decides, if it does not raise. */
  function ExecuteStep(g: Gate, initial: Option<Decision>, q: Asking, handler: Handler, effect: Option<string>): (Gate, Interception)
    requires g.manager.Some? ==> g.manager.value.nextId >= 0
  {
    if initial.None? then (g, GovernanceRaised)
    else
      var d := initial.value;
      if g.mode.Shadow? then RecordAndRun(g, d, d, effect, None)
      else if d.kind.Escalate? && g.manager.Some? then
        var (manager, reply) := A.Step(g.manager.value, Ask(d, q));
        if reply.Err? then (g.(manager := Some(manager)), GovernanceRaised)
        else RecordAndStop(g.(manager := Some(manager)), d, d, Some(reply.value.id))
      else if d.kind.Escalate? && handler.Raises? then (g, GovernanceRaised)
      else
        var final := Resolved(d, handler);
        if final.kind.Allow? then RecordAndRun(g, d, final, effect, None) else RecordAndStop(g, d, final, None)
  }

  function Mismatched(current: Decision): Decision { Derived(Block, "approval no longer matches the current escalation", current) }

  function Unresumable(current: Decision): Decision { Derived(Block, "approval refused", current) }

  function Approved(current: Decision, role: string): Decision { Derived(Allow, "approved by " + role, current) }

  /** What is left of an approval once the policy still escalates to its role. */
  function Consumed(g: Gate, read: A.Manager, role: string, current: Decision, op: A.Op, effect: Option<string>): (Gate, Interception)
    requires op.Resume?
  {
    var (manager, reply) := A.ResumeStep(read, op.id, op.binding, op.now);
    if reply.Err? then RecordAndStop(g.(manager := Some(manager)), current, Unresumable(current), Some(op.id))
    else RecordAndRun(g.(manager := Some(manager)), current, Approved(current, role), effect, Some(op.id))
  }

  /** A resumption under a policy that decides `current`. */
  function Reconsidered(g: Gate, current: Decision, op: A.Op, effect: Option<string>): (Gate, Interception)
    requires op.Resume? && g.manager.Some?
  {
    var (read, found) := A.LookStep(g.manager.value, op.id, op.now);
    var h := g.(manager := Some(read));
    if found.Err? then (h, GovernanceRaised)
    else if !current.kind.Escalate? || current.role != Some(found.value.role) then RecordAndStop(h, current, Mismatched(current), Some(op.id))
    else Consumed(g, read, found.value.role, current, op, effect)
  }

  /** `resume_approved`: only an approval that is consumed here lets the operation start. */
  function ResumeStep(g: Gate, current: Option<Decision>, op: A.Op, q: Asking, handler: Handler, effect: Option<string>): (Gate, Interception)
    requires op.Resume? && (g.manager.Some? ==> g.manager.value.nextId >= 0)
  {
    if g.mode.Shadow? then ExecuteStep(g, current, q, handler, effect)
    else if g.manager.None? || current.None? then (g, GovernanceRaised)
    else Reconsidered(g, current.value, op, effect)
  }

  // ------------------------------------------------------------ the adapter

  /** What the identity verifier says, if there is one. */
  datatype Identity = Verified | Unverified

  /** A runtime adapter: requests it has completed, and what it does when a shadowed evaluation raises. */
  datatype Adapter = Adapter(gate: Gate, completed: set<string>, raisesInShadow: bool)

  datatype Outcome = Result(result: Interception) | Raised(started: bool)

  function GovernanceBlock(): Decision { DecisionRecord(Block, None, "governance error", [], "", [], [], 0) }

  function Duplicate(): Decision { DecisionRecord(Block, None, "duplicate completed request", [], "", [], [], 0) }

  predicate IsDuplicate(r: Adapter, requestId: Option<string>) {
    r.gate.mode.Enforce? && requestId.Some? && requestId.value in r.completed
  }

  function Completed(r: Adapter, requestId: Option<string>, i: Interception): Adapter {
    if r.gate.mode.Enforce? && requestId.Some? && i.Intercepted? && i.executed then r.(completed := r.completed + {requestId.value}) else r
  }

  /** `_error_result`: recorded as a block; a shadow adapter still runs the operation. */
  function ErrorResult(r: Adapter, effect: Option<string>, requestId: Option<string>): (Adapter, Outcome) {
    var shadow := r.gate.mode.Shadow?;
    var (g, ok) := Recorded(r.gate, GovernanceBlock(), shadow, Block);
    if !ok then (r.(gate := g), Raised(false))
    else if !shadow then (r.(gate := g), Result(Intercepted(GovernanceBlock(), false, None, None)))
    else if effect.None? then (r.(gate := g), Raised(true))
    else (r.(gate := g), Result(Intercepted(GovernanceBlock(), true, effect, requestId)))
  }

  /** `invoke` for a verified caller whose request is no duplicate. */
  function Governed(r: Adapter, requestId: Option<string>, initial: Option<Decision>, q: Asking, handler: Handler, effect: Option<string>): (Adapter, Outcome)
    requires r.gate.manager.Some? ==> r.gate.manager.value.nextId >= 0
  {
    var (g, i) := ExecuteStep(r.gate, initial, q, handler, effect);
    var s := r.(gate := g);
    if i.OperationRaised? then (s, Raised(true))
    else if i.GovernanceRaised? then
      if r.gate.mode.Shadow? && r.raisesInShadow then (s, Raised(false)) else ErrorResult(s, effect, requestId)
    else (Completed(s, requestId, i), Result(i))
  }

  /** `invoke`. */
  function InvokeStep(r: Adapter, requestId: Option<string>, identity: Identity, initial: Option<Decision>, q: Asking, handler: Handler, effect: Option<string>): (Adapter, Outcome)
    requires r.gate.manager.Some? ==> r.gate.manager.value.nextId >= 0
  {
    if IsDuplicate(r, requestId) then (r, Result(Intercepted(Duplicate(), false, None, None)))
    else if identity.Unverified? then
      var (g, ok) := Recorded(r.gate, GovernanceBlock(), false, Block);
      (r.(gate := g), if ok then Result(Intercepted(GovernanceBlock(), false, None, None)) else Raised(false))
    else Governed(r, requestId, initial, q, handler, effect)
  }

  // -------------------------------------------------------------------- laws

  predicate Permits(e: AuditEvent) { e.executed == Some(true) }

  /** What one call adds to the log: nothing or one event; and an operation starts
      exactly when that event is recorded and permits it. */
  predicate StartIsRecorded(g: Gate, h: Gate, started: bool) {
    && (h.log == g.log || (|h.log| == |g.log| + 1 && h.log[..|g.log|] == g.log && h.log[|g.log|].id !in IdsOf(g.log)))
    && (started <==> h.log != g.log && Permits(h.log[|h.log| - 1]))
    && (started && g.mode.Enforce? ==> h.log[|h.log| - 1].outcome.Allow?)
    && h.mode == g.mode && h.trace == g.trace
  }

  lemma RecordingIsOne(g: Gate, d: Decision, executed: bool, outcome: DecisionKind)
    ensures var (h, ok) := Recorded(g, d, executed, outcome);
            && h == g.(log := h.log, events := h.events, nextEventId := g.nextEventId + 1)
            && (if ok then |h.log| == |g.log| + 1 && h.log[..|g.log|] == g.log && h.log[|g.log|].id !in IdsOf(g.log)
                           && h.log[|g.log|].executed == Some(executed) && h.log[|g.log|].outcome == outcome
                else h.log == g.log)
  {
    hide EventId, IdsOf;
  }

  /** What either way of recording a decision leaves, for any interceptor with the same log. */
  lemma EndsRecorded(g: Gate, h: Gate, initial: Decision, final: Decision, effect: Option<string>, id: Option<string>)
    requires h.log == g.log && h.mode == g.mode && h.trace == g.trace
    ensures var (k, i) := RecordAndStop(h, initial, final, id);
            StartIsRecorded(g, k, Started(i)) && k.manager == h.manager
    ensures var (k, i) := RecordAndRun(h, initial, final, effect, id);
            (g.mode.Enforce? ==> final.kind.Allow?) ==> StartIsRecorded(g, k, Started(i))
    ensures RecordAndRun(h, initial, final, effect, id).0.manager == h.manager
    ensures RecordAndRun(h, initial, final, effect, id).0.mode == h.mode
  {
    hide Recorded, IdsOf;
    RecordingIsOne(h, initial, true, final.kind);
    RecordingIsOne(h, initial, false, final.kind);
  }

  lemma NothingStarts(g: Gate, h: Gate)
    requires h.log == g.log && h.mode == g.mode && h.trace == g.trace
    ensures StartIsRecorded(g, h, false)
  {}

  lemma ExecutionIsRecorded(g: Gate, initial: Option<Decision>, q: Asking, handler: Handler, effect: Option<string>)
    requires g.manager.Some? ==> g.manager.value.nextId >= 0
    ensures var (h, i) := ExecuteStep(g, initial, q, handler, effect); StartIsRecorded(g, h, Started(i))
  {
    hide A.Step, RecordAndRun, RecordAndStop, StartIsRecorded, Resolved;
    NothingStarts(g, g);
    if initial.Some? {
      var d := initial.value;
      EndsRecorded(g, g, d, d, effect, None);
      EndsRecorded(g, g, d, Resolved(d, handler), effect, None);
      if g.manager.Some? {
        var (manager, reply) := A.Step(g.manager.value, Ask(d, q));
        var h := g.(manager := Some(manager));
        NothingStarts(g, h);
        if reply.Ok? { EndsRecorded(g, h, d, d, effect, Some(reply.value.id)); }
      }
    }
  }

  lemma ConsumedIsRecorded(g: Gate, read: A.Manager, role: string, current: Decision, op: A.Op, effect: Option<string>)
    requires op.Resume?
    ensures var (h, i) := Consumed(g, read, role, current, op, effect);
            && StartIsRecorded(g, h, Started(i))
            && h.manager == Some(A.ResumeStep(read, op.id, op.binding, op.now).0) && h.mode == g.mode
  {
    hide A.ResumeStep, RecordAndRun, RecordAndStop, StartIsRecorded;
    var k := g.(manager := Some(A.ResumeStep(read, op.id, op.binding, op.now).0));
    EndsRecorded(g, k, current, Unresumable(current), effect, Some(op.id));
    EndsRecorded(g, k, current, Approved(current, role), effect, Some(op.id));
    ModesStay(k, current, Unresumable(current), Some(op.id));
  }

  lemma ModesStay(h: Gate, initial: Decision, final: Decision, id: Option<string>)
    ensures RecordAndStop(h, initial, final, id).0.mode == h.mode
  {
    hide IdsOf, EventId;
  }

  lemma ReconsideredIsRecorded(g: Gate, current: Decision, op: A.Op, effect: Option<string>)
    requires op.Resume? && g.manager.Some?
    ensures var (h, i) := Reconsidered(g, current, op, effect);
            var read := A.LookStep(g.manager.value, op.id, op.now).0;
            && StartIsRecorded(g, h, Started(i)) && h.mode == g.mode && h.manager.Some?
            && (h.manager.value == read || h.manager.value == A.ResumeStep(read, op.id, op.binding, op.now).0)
  {
    hide A.LookStep, A.ResumeStep, RecordAndRun, RecordAndStop, StartIsRecorded, Consumed, Mismatched;
    var (read, found) := A.LookStep(g.manager.value, op.id, op.now);
    var h := g.(manager := Some(read));
    NothingStarts(g, h);
    EndsRecorded(g, h, current, Mismatched(current), effect, Some(op.id));
    ModesStay(h, current, Mismatched(current), Some(op.id));
    if found.Ok? { ConsumedIsRecorded(g, read, found.value.role, current, op, effect); }
  }

  lemma ResumptionIsRecorded(g: Gate, current: Option<Decision>, op: A.Op, q: Asking, handler: Handler, effect: Option<string>)
    requires op.Resume? && (g.manager.Some? ==> g.manager.value.nextId >= 0)
    ensures var (h, i) := ResumeStep(g, current, op, q, handler, effect); StartIsRecorded(g, h, Started(i))
  {
    hide StartIsRecorded, ExecuteStep, Reconsidered;
    ExecutionIsRecorded(g, current, q, handler, effect);
    NothingStarts(g, g);
    if g.manager.Some? && current.Some? { ReconsideredIsRecorded(g, current.value, op, effect); }
  }

  /** No operation starts without a record, made first, that permits it; in enforce mode
      the record says Allow. */
  lemma OperationsAreRecorded(g: Gate, initial: Option<Decision>, op: A.Op, q: Asking, handler: Handler, effect: Option<string>)
    requires op.Resume? && (g.manager.Some? ==> g.manager.value.nextId >= 0)
    ensures var (h, i) := ExecuteStep(g, initial, q, handler, effect); StartIsRecorded(g, h, Started(i))
    ensures var (h, i) := ResumeStep(g, initial, op, q, handler, effect); StartIsRecorded(g, h, Started(i))
  {
    hide ExecuteStep, ResumeStep, StartIsRecorded;
    ExecutionIsRecorded(g, initial, q, handler, effect);
    ResumptionIsRecorded(g, initial, op, q, handler, effect);
  }

  // ------------------------------------------------- records of one trace

  /** No id that the interceptor will give is taken. */
  ghost predicate Fresh(g: Gate) { FreeFrom(g.log, g.trace, g.nextEventId) }

  /** A recovered interceptor over a log in which every event is numbered under its own trace. */
  lemma RecoveredIsFresh(g: Gate)
    requires Numbered(g.log) && g.nextEventId == NextSequence(g.log, g.trace)
    ensures Fresh(g)
  {
    NumberedIsFree(g.log, g.trace);
  }

  /** What a call keeps: logs stay numbered, and the interceptor's own ids free. */
  ghost predicate Continues(g: Gate, h: Gate) {
    && h.trace == g.trace && h.mode == g.mode
    && (Numbered(g.log) ==> Numbered(h.log)) && (Fresh(g) ==> Fresh(h))
  }

  lemma FreshIsRecorded(g: Gate, d: Decision, executed: bool, outcome: DecisionKind)
    ensures Continues(g, Recorded(g, d, executed, outcome).0)
    ensures Fresh(g) ==> Recorded(g, d, executed, outcome).1
  {
    hide EventId, IdsOf, Numbered;
    var e := AuditEvent(EventId(g.trace, g.nextEventId), g.trace, d, Some(executed), outcome);
    AppendingKeeps(g.log, e, g.nextEventId, g.trace, g.nextEventId + 1);
  }

  /** Either way of recording a decision: with free ids it is recorded. */
  lemma EndsContinue(g: Gate, h: Gate, initial: Decision, final: Decision, effect: Option<string>, id: Option<string>)
    requires h == g.(manager := h.manager)
    ensures var (k, i) := RecordAndStop(h, initial, final, id); Continues(g, k) && (Fresh(g) ==> !i.GovernanceRaised?)
    ensures var (k, i) := RecordAndRun(h, initial, final, effect, id); Continues(g, k) && (Fresh(g) ==> !i.GovernanceRaised?)
  {
    hide Recorded, Numbered, FreeFrom;
    FreshIsRecorded(h, initial, true, final.kind);
    FreshIsRecorded(h, initial, false, final.kind);
  }

  lemma ExecutionContinues(g: Gate, initial: Option<Decision>, q: Asking, handler: Handler, effect: Option<string>)
    requires g.manager.Some? ==> g.manager.value.nextId >= 0
    ensures Continues(g, ExecuteStep(g, initial, q, handler, effect).0)
  {
    hide A.Step, RecordAndRun, RecordAndStop, Resolved, Numbered, Fresh;
    if initial.Some? {
      var d := initial.value;
      EndsContinue(g, g, d, d, effect, None);
      EndsContinue(g, g, d, Resolved(d, handler), effect, None);
      if g.manager.Some? {
        var (manager, reply) := A.Step(g.manager.value, Ask(d, q));
        SameRecords(g, g.(manager := Some(manager)));
        if reply.Ok? { EndsContinue(g, g.(manager := Some(manager)), d, d, effect, Some(reply.value.id)); }
      }
    }
  }

  lemma SameRecords(g: Gate, h: Gate)
    requires h == g.(manager := h.manager)
    ensures Continues(g, h)
  {}

  lemma ReconsideringContinues(g: Gate, d: Decision, op: A.Op, effect: Option<string>)
    requires op.Resume? && g.manager.Some?
    ensures Continues(g, Reconsidered(g, d, op, effect).0)
  {
    hide A.LookStep, A.ResumeStep, RecordAndRun, RecordAndStop, Continues, Fresh, Mismatched, Unresumable, Approved;
    var (read, found) := A.LookStep(g.manager.value, op.id, op.now);
    var h := g.(manager := Some(read));
    var k := g.(manager := Some(A.ResumeStep(read, op.id, op.binding, op.now).0));
    if found.Err? {
      SameRecords(g, h);
    } else if !d.kind.Escalate? || d.role != Some(found.value.role) {
      EndsContinue(g, h, d, Mismatched(d), effect, Some(op.id));
    } else {
      EndsContinue(g, k, d, Unresumable(d), effect, Some(op.id));
      EndsContinue(g, k, d, Approved(d, found.value.role), effect, Some(op.id));
    }
  }

  lemma ResumptionContinues(g: Gate, current: Option<Decision>, op: A.Op, q: Asking, handler: Handler, effect: Option<string>)
    requires op.Resume? && (g.manager.Some? ==> g.manager.value.nextId >= 0)
    ensures Continues(g, ResumeStep(g, current, op, q, handler, effect).0)
  {
    hide ExecuteStep, Reconsidered, Continues;
    ExecutionContinues(g, current, q, handler, effect);
    SameRecords(g, g);
    if g.manager.Some? && current.Some? { ReconsideringContinues(g, current.value, op, effect); }
  }

  lemma ContinuesOn(g: Gate, h: Gate, k: Gate)
    requires Continues(g, h) && Continues(h, k)
    ensures Continues(g, k)
  {
    hide Numbered, Fresh;
  }

  lemma ErrorContinues(r: Adapter, effect: Option<string>, requestId: Option<string>)
    ensures Continues(r.gate, ErrorResult(r, effect, requestId).0.gate)
  {
    hide Recorded, Continues, Fresh, GovernanceBlock;
    FreshIsRecorded(r.gate, GovernanceBlock(), r.gate.mode.Shadow?, Block);
  }

  lemma GoverningContinues(r: Adapter, requestId: Option<string>, initial: Option<Decision>, q: Asking, handler: Handler, effect: Option<string>)
    requires r.gate.manager.Some? ==> r.gate.manager.value.nextId >= 0
    ensures Continues(r.gate, Governed(r, requestId, initial, q, handler, effect).0.gate)
  {
    hide ExecuteStep, ErrorResult, Continues;
    ExecutionContinues(r.gate, initial, q, handler, effect);
    var g := ExecuteStep(r.gate, initial, q, handler, effect).0;
    var s := r.(gate := g);
    ErrorContinues(s, effect, requestId);
    ContinuesOn(r.gate, g, ErrorResult(s, effect, requestId).0.gate);
  }

  lemma InvocationContinues(r: Adapter, requestId: Option<string>, identity: Identity, initial: Option<Decision>, q: Asking, handler: Handler, effect: Option<string>)
    requires r.gate.manager.Some? ==> r.gate.manager.value.nextId >= 0
    ensures Continues(r.gate, InvokeStep(r, requestId, identity, initial, q, handler, effect).0.gate)
  {
    SameRecords(r.gate, r.gate);
    hide Governed, Recorded, Continues, GovernanceBlock;
    GoverningContinues(r, requestId, initial, q, handler, effect);
    FreshIsRecorded(r.gate, GovernanceBlock(), false, Block);
  }

  /** An adapter whose ids are free always answers in enforce mode: only the operation's
      own failure is raised, every failure of governance is a recorded block. */
  lemma FreshAdapterAnswers(r: Adapter, requestId: Option<string>, identity: Identity, initial: Option<Decision>, q: Asking, handler: Handler, effect: Option<string>)
    requires r.gate.mode.Enforce? && Fresh(r.gate) && (r.gate.manager.Some? ==> r.gate.manager.value.nextId >= 0)
    ensures var o := InvokeStep(r, requestId, identity, initial, q, handler, effect).1; o.Raised? ==> o.started
  {
    var g := ExecuteStep(r.gate, initial, q, handler, effect).0;
    ExecutionContinues(r.gate, initial, q, handler, effect);
    hide ExecuteStep, Recorded, Numbered, FreeFrom;
    FreshIsRecorded(r.gate, GovernanceBlock(), false, Block);
    FreshIsRecorded(g, GovernanceBlock(), false, Block);
  }

  /** In enforce mode a result says executed exactly when its decision is Allow; the
      invariant that the adapter checks is never violated. */
  lemma ExecutedMeansAllowed(g: Gate, initial: Option<Decision>, op: A.Op, q: Asking, handler: Handler, effect: Option<string>)
    requires g.mode.Enforce? && op.Resume? && (g.manager.Some? ==> g.manager.value.nextId >= 0)
    ensures var i := ExecuteStep(g, initial, q, handler, effect).1; i.Intercepted? ==> (i.executed <==> i.decision.kind.Allow?)
    ensures var i := ResumeStep(g, initial, op, q, handler, effect).1; i.Intercepted? ==> (i.executed <==> i.decision.kind.Allow?)
  {
    hide A.Step, A.LookStep, A.ResumeStep, Recorded;
  }

  // -------------------------------------------------------------------- runs

  /** Calls of the interceptor and of the adapter, and any other use of the manager. */
  datatype Call =
    | Execute(initial: Option<Decision>, q: Asking, handler: Handler, effect: Option<string>)
    | Resume(initial: Option<Decision>, op: A.Op, q: Asking, handler: Handler, effect: Option<string>)
    | Manage(op: A.Op)
    | Invoke(requestId: Option<string>, identity: Identity, initial: Option<Decision>, q: Asking, handler: Handler, effect: Option<string>)

  predicate Proper(c: Call) { c.Resume? ==> c.op.Resume? }

  /** An enforcing adapter whose approvals are managed. */
  predicate Enforcing(r: Adapter) { r.gate.mode.Enforce? && r.gate.manager.Some? && A.Valid(r.gate.manager.value) }

  function Next(r: Adapter, c: Call): Adapter
    requires Enforcing(r) && Proper(c)
  {
    match c
    case Execute(initial, q, handler, effect) => r.(gate := ExecuteStep(r.gate, initial, q, handler, effect).0)
    case Resume(initial, op, q, handler, effect) => r.(gate := ResumeStep(r.gate, initial, op, q, handler, effect).0)
    case Manage(op) => r.(gate := r.gate.(manager := Some(A.Step(r.gate.manager.value, op).0)))
    case Invoke(requestId, identity, initial, q, handler, effect) => InvokeStep(r, requestId, identity, initial, q, handler, effect).0
  }

  /** The call resumes an approved operation. */
  predicate Resumes(r: Adapter, c: Call)
    requires Enforcing(r) && Proper(c)
  {
    c.Resume? && Started(ResumeStep(r.gate, c.initial, c.op, c.q, c.handler, c.effect).1)
  }

  /** The call completes the request `id`. */
  predicate Completes(r: Adapter, c: Call, id: string)
    requires Enforcing(r) && Proper(c)
  {
    && c.Invoke? && c.requestId == Some(id)
    && var o := InvokeStep(r, c.requestId, c.identity, c.initial, c.q, c.handler, c.effect).1;
       o.Result? && Started(o.result)
  }

  function ConsumedIds(m: A.Manager): set<string> { set id | id in m.requests && m.requests[id].consumed }

  /** The manager after a call is reached by the approval transitions. */
  ghost predicate Advanced(r: Adapter, s: Adapter) {
    && Enforcing(s) && s.raisesInShadow == r.raisesInShadow && r.gate.manager.Some?
    && A.Advances(r.gate.manager.value, s.gate.manager.value)
  }

  lemma RecordKeepsManager(g: Gate, d: Decision, executed: bool, outcome: DecisionKind)
    ensures var h := Recorded(g, d, executed, outcome).0; h.manager == g.manager && h.mode == g.mode
  {
    hide EventId, IdsOf;
  }

  lemma ResumeManager(g: Gate, initial: Option<Decision>, op: A.Op, q: Asking, handler: Handler, effect: Option<string>)
    requires g.mode.Enforce? && g.manager.Some? && g.manager.value.nextId >= 0 && op.Resume?
    ensures var h, m := ResumeStep(g, initial, op, q, handler, effect).0, g.manager.value;
            && h.mode.Enforce? && h.manager.Some?
            && (|| h.manager.value == m
                || h.manager.value == A.LookStep(m, op.id, op.now).0
                || h.manager.value == A.ResumeStep(A.LookStep(m, op.id, op.now).0, op.id, op.binding, op.now).0)
  {
    hide A.LookStep, A.ResumeStep, StartIsRecorded, Reconsidered;
    if initial.Some? { ReconsideredIsRecorded(g, initial.value, op, effect); }
  }

  lemma InvokeManager(r: Adapter, c: Call)
    requires r.gate.mode.Enforce? && r.gate.manager.Some? && r.gate.manager.value.nextId >= 0 && c.Invoke?
    ensures var g, s := r.gate, InvokeStep(r, c.requestId, c.identity, c.initial, c.q, c.handler, c.effect).0;
            s.gate.mode.Enforce? && s.gate.manager.Some? && s.raisesInShadow == r.raisesInShadow
            && (s.gate.manager == g.manager || exists op :: s.gate.manager.value == A.Step(g.manager.value, op).0)
  {
    var g := r.gate;
    ExecuteManager(g, c.initial, c.q, c.handler, c.effect);
    hide ExecuteStep, Recorded, A.Step;
    RecordKeepsManager(g, GovernanceBlock(), false, Block);
    RecordKeepsManager(ExecuteStep(g, c.initial, c.q, c.handler, c.effect).0, GovernanceBlock(), false, Block);
  }

  /** The manager that a call leaves. */
  lemma ManagerOf(r: Adapter, c: Call)
    requires Enforcing(r) && Proper(c)
    ensures var m, s := r.gate.manager.value, Next(r, c);
            && s.gate.mode.Enforce? && s.gate.manager.Some? && s.raisesInShadow == r.raisesInShadow
            && (s.gate.manager.value == m
                || (exists op :: s.gate.manager.value == A.Step(m, op).0)
                || (c.Resume? && s.gate.manager.value == A.ResumeStep(A.LookStep(m, c.op.id, c.op.now).0, c.op.id, c.op.binding, c.op.now).0))
  {
    assert r.gate.manager.value.nextId >= 0;
    hide A.Valid, A.LookStep, A.ResumeStep, A.Step, ExecuteStep, ResumeStep, InvokeStep;
    match c
    case Manage(op) =>
    case Resume(initial, op, q, handler, effect) =>
      ResumeManager(r.gate, initial, op, q, handler, effect);
      LookIsStep(r.gate.manager.value, op.id, op.now);
    case Execute(initial, q, handler, effect) => ExecuteManager(r.gate, initial, q, handler, effect);
    case Invoke(_, _, _, _, _, _) => InvokeManager(r, c);
  }

  lemma LookIsStep(m: A.Manager, id: string, now: Option<real>)
    requires m.nextId >= 0
    ensures A.Step(m, A.Look(id, now)).0 == A.LookStep(m, id, now).0
  {}

  lemma ExecuteManager(g: Gate, initial: Option<Decision>, q: Asking, handler: Handler, effect: Option<string>)
    requires g.mode.Enforce? && g.manager.Some? && g.manager.value.nextId >= 0
    ensures var h := ExecuteStep(g, initial, q, handler, effect).0;
            h.mode.Enforce? && h.manager.Some? && (h.manager == g.manager || exists op :: h.manager.value == A.Step(g.manager.value, op).0)
  {
    hide A.Step, Recorded, Resolved;
    if initial.Some? {
      var d := initial.value;
      var manager := A.Step(g.manager.value, Ask(d, q)).0;
      RecordKeepsManager(g.(manager := Some(manager)), d, false, d.kind);
      RecordKeepsManager(g, d, false, Resolved(d, handler).kind);
      RecordKeepsManager(g, d, true, Resolved(d, handler).kind);
    }
  }

  lemma CallAdvances(r: Adapter, c: Call)
    requires Enforcing(r) && Proper(c)
    ensures Advanced(r, Next(r, c))
  {
    ManagerOf(r, c);
    var m, n := r.gate.manager.value, Next(r, c).gate.manager.value;
    A.AdvancesIsReflexive(m);
    hide A.Step, A.LookStep, A.ResumeStep, A.Valid, A.Advances;
    if c.Resume? {
      LookIsStep(m, c.op.id, c.op.now);
      A.StepAdvances(m, A.Look(c.op.id, c.op.now));
      var read := A.LookStep(m, c.op.id, c.op.now).0;
      ResumeIsStep(read, c.op);
      A.StepAdvances(read, c.op);
      A.AdvancesIsTransitive(m, read, A.Step(read, c.op).0);
    }
    if op :| n == A.Step(m, op).0 { A.StepAdvances(m, op); }
  }

  lemma ResumeIsStep(m: A.Manager, op: A.Op)
    requires op.Resume? && m.nextId >= 0
    ensures A.Step(m, op) == A.ResumeStep(m, op.id, op.binding, op.now)
  {}

  /** A resumption that starts its operation consumes a request that was not consumed. */
  lemma ResumingConsumes(r: Adapter, c: Call)
    requires Enforcing(r) && Proper(c) && Resumes(r, c)
    ensures var m, n := r.gate.manager.value, Next(r, c).gate.manager.value;
            c.op.id in ConsumedIds(n) && c.op.id !in ConsumedIds(m)
  {
    var m := r.gate.manager.value;
    assert m.nextId >= 0;
    var (read, found) := A.LookStep(m, c.op.id, c.op.now);
    var (manager, reply) := A.ResumeStep(read, c.op.id, c.op.binding, c.op.now);
    assert found.Ok? && reply.Ok? && Next(r, c).gate.manager.value == manager by {
      hide A.LookStep, A.ResumeStep, Recorded, A.Valid;
      RecordKeepsManager(r.gate.(manager := Some(manager)), c.initial.value, true, Allow);
    }
    hide ResumeStep;
  }

  lemma ConsumedOnlyGrows(m: A.Manager, n: A.Manager)
    requires A.Advances(m, n)
    ensures ConsumedIds(m) <= ConsumedIds(n)
  {}

  /** The calls so far, the operations they resumed, and how often they completed `id`. */
  function RunCalls(r: Adapter, calls: seq<Call>, id: string): (t: (Adapter, nat, nat))
    requires Enforcing(r) && forall k :: 0 <= k < |calls| ==> Proper(calls[k])
    ensures Enforcing(t.0)
    decreases |calls|
  {
    if calls == [] then (r, 0, 0)
    else
      var (s, resumed, completed) := RunCalls(r, calls[..|calls| - 1], id);
      var c := calls[|calls| - 1];
      CallAdvances(s, c);
      (Next(s, c), resumed + (if Resumes(s, c) then 1 else 0), completed + (if Completes(s, c, id) then 1 else 0))
  }

  lemma OneCallCounts(s: Adapter, c: Call)
    requires Enforcing(s) && Proper(c)
    ensures Next(s, c).gate.manager.Some?
    ensures |ConsumedIds(s.gate.manager.value)| + (if Resumes(s, c) then 1 else 0) <= |ConsumedIds(Next(s, c).gate.manager.value)|
  {
    CallAdvances(s, c);
    if Resumes(s, c) { ResumingConsumes(s, c); }
    hide Next, A.Advances, ConsumedIds, A.Valid, ResumeStep;
    ConsumedOnlyGrows(s.gate.manager.value, Next(s, c).gate.manager.value);
    SubsetSize(ConsumedIds(s.gate.manager.value), ConsumedIds(Next(s, c).gate.manager.value));
  }

  /** Whatever the calls and their clocks, the operations that resumptions started are
      no more than the requests that were consumed. */
  lemma {:induction false} ResumedAtMostConsumed(r: Adapter, calls: seq<Call>, id: string)
    requires Enforcing(r) && forall k :: 0 <= k < |calls| ==> Proper(calls[k])
    ensures var (s, resumed, _) := RunCalls(r, calls, id);
            |ConsumedIds(r.gate.manager.value)| + resumed <= |ConsumedIds(s.gate.manager.value)|
    decreases |calls|
  {
    hide Next, Resumes, Completes, Proper, ConsumedIds;
    if calls != [] {
      var front, c := calls[..|calls| - 1], calls[|calls| - 1];
      ResumedAtMostConsumed(r, front, id);
      OneCallCounts(RunCalls(r, front, id).0, c);
    }
  }

  lemma CompletingIsRemembered(r: Adapter, c: Call, id: string)
    requires Enforcing(r) && Proper(c)
    ensures r.completed <= Next(r, c).completed
    ensures Completes(r, c, id) ==> id !in r.completed && id in Next(r, c).completed
  {
    assert r.gate.manager.value.nextId >= 0;
    hide ExecuteStep, ResumeStep, Recorded, A.Step, A.Valid;
  }

  /** An enforcing adapter completes a request at most once. */
  lemma {:induction false} CompletedAtMostOnce(r: Adapter, calls: seq<Call>, id: string)
    requires Enforcing(r) && forall k :: 0 <= k < |calls| ==> Proper(calls[k])
    ensures var (s, _, completed) := RunCalls(r, calls, id);
            && completed <= 1 && (id in r.completed ==> completed == 0) && (id in r.completed || completed == 1 ==> id in s.completed)
    decreases |calls|
  {
    hide Next, Resumes, Completes, Proper, Enforcing;
    if calls != [] {
      var front, c := calls[..|calls| - 1], calls[|calls| - 1];
      CompletedAtMostOnce(r, front, id);
      CompletingIsRemembered(RunCalls(r, front, id).0, c, id);
    }
  }

  /** The split between failures: the adapter reports a started operation's failure as
      such and never as a governance block; a failure of governance starts nothing in
      enforce mode and is answered by a recorded block or by nothing at all. */
  lemma FailuresAreSplit(r: Adapter, requestId: Option<string>, identity: Identity, initial: Option<Decision>, q: Asking, handler: Handler, effect: Option<string>)
    requires r.gate.manager.Some? ==> r.gate.manager.value.nextId >= 0
    ensures var (s, o) := InvokeStep(r, requestId, identity, initial, q, handler, effect);
            var i := ExecuteStep(r.gate, initial, q, handler, effect).1;
            && (identity.Unverified? || IsDuplicate(r, requestId) ==> (o.Result? ==> !Started(o.result)) && (o.Raised? ==> !o.started))
            && (identity.Verified? && !IsDuplicate(r, requestId) && i.OperationRaised? ==> o == Raised(true))
            && (identity.Verified? && !IsDuplicate(r, requestId) && i.GovernanceRaised? && r.gate.mode.Enforce? ==>
                  (o.Result? ==> o.result == Intercepted(GovernanceBlock(), false, None, None)) && (o.Raised? ==> !o.started))
            && (o.Result? ==> o.result.Intercepted?)
  {
    ExecutionIsRecorded(r.gate, initial, q, handler, effect);
    hide ExecuteStep, Recorded;
  }

  lemma NextContinues(r: Adapter, c: Call)
    requires Enforcing(r) && Proper(c)
    ensures Continues(r.gate, Next(r, c).gate)
  {
    assert r.gate.manager.value.nextId >= 0;
    hide ExecuteStep, ResumeStep, InvokeStep, A.Valid, A.Step, Continues;
    match c
    case Execute(initial, q, handler, effect) => ExecutionContinues(r.gate, initial, q, handler, effect);
    case Resume(initial, op, q, handler, effect) => ResumptionContinues(r.gate, initial, op, q, handler, effect);
    case Manage(op) => SameRecords(r.gate, Next(r, c).gate);
    case Invoke(requestId, identity, initial, q, handler, effect) => InvocationContinues(r, requestId, identity, initial, q, handler, effect);
  }

  /** Over any calls a recovered adapter's records are never refused: the log stays
      numbered, and the ids that it gives stay free. */
  lemma {:induction false} RecordsAreNeverRefused(r: Adapter, calls: seq<Call>, id: string, d: Decision, executed: bool, outcome: DecisionKind)
    requires Enforcing(r) && forall k :: 0 <= k < |calls| ==> Proper(calls[k])
    requires Numbered(r.gate.log) && r.gate.nextEventId == NextSequence(r.gate.log, r.gate.trace)
    ensures var g := RunCalls(r, calls, id).0.gate;
            && Numbered(g.log) && Fresh(g) && g.trace == r.gate.trace
            && Recorded(g, d, executed, outcome).1
    decreases |calls|
  {
    hide Next, Resumes, Completes, Proper, Enforcing, Numbered, FreeFrom, Recorded;
    if calls == [] {
      RecoveredIsFresh(r.gate);
    } else {
      var front, c := calls[..|calls| - 1], calls[|calls| - 1];
      RecordsAreNeverRefused(r, front, id, d, executed, outcome);
      NextContinues(RunCalls(r, front, id).0, c);
    }
    FreshIsRecorded(RunCalls(r, calls, id).0.gate, d, executed, outcome);
  }
}
