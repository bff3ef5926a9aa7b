/** The interceptor and the runtime adapter as objects (governance/interceptor.py,
    governance/runtime.py), proved against the transitions of module Gates. */
module Interceptors {
  import opened Text
  import opened Model
  import opened Audit
  import opened Gates
  import opened ApprovalManagers
  import A = Approval

  /** The guarded operation: it counts its calls, and returns or raises. */
  class Operation {
    var calls: nat
    const effect: Option<string>

    constructor (effect: Option<string>)
      ensures calls == 0 && this.effect == effect
    {
      calls, this.effect := 0, effect;
    }

    method Call() returns (value: Option<string>)
      modifies this
      ensures calls == old(calls) + 1 && value == effect
    {
      calls := calls + 1;
      return effect;
    }
  }

  /** Consumption replaces the manager, whatever it was. */
  lemma SameConsumption(g: Gate, h: Gate, read: A.Manager, role: string, current: Decision, op: A.Op, effect: Option<string>)
    requires op.Resume? && h == g.(manager := h.manager)
    ensures Consumed(g, read, role, current, op, effect) == Consumed(h, read, role, current, op, effect)
  {
    hide RecordAndRun, RecordAndStop, A.ResumeStep;
  }

  class Interceptor {
    const mode: Mode
    const trace: string
    const auditLog: AuditLog
    const manager: ApprovalManager
    const managed: bool
    var events: seq<AuditEvent>
    var nextEventId: nat

    function View(): Gate
      reads this, auditLog, manager, manager.requests.Values
    {
      Gate(mode, trace, auditLog.events, events, nextEventId, if managed then Some(manager.State()) else None)
    }

    ghost predicate Valid()
      reads this, auditLog, manager
    {
      auditLog.Valid() && manager.Keyed() && manager.nextId >= 0
    }

    /** A recovered trace goes on after its last number in the log. */
    constructor (mode: Mode, trace: string, auditLog: AuditLog, manager: ApprovalManager, managed: bool)
      requires auditLog.Valid() && manager.Keyed() && manager.nextId >= 0
      ensures Valid() && this.auditLog == auditLog && this.manager == manager && this.managed == managed
      ensures this.mode == mode && this.trace == trace && events == [] && nextEventId == NextSequence(auditLog.events, trace)
    {
      this.mode, this.trace, this.auditLog, this.manager, this.managed := mode, trace, auditLog, manager, managed;
      events := [];
      new;
      nextEventId := auditLog.NextSequenceOf(trace);
    }

    /** `_record`. */
    method Record(d: Decision, executed: bool, outcome: DecisionKind) returns (ok: bool)
      requires Valid()
      modifies `events, `nextEventId, auditLog
      ensures Valid() && (View(), ok) == Recorded(old(View()), d, executed, outcome)
    {
      hide EventId, IdsOf, ApprovalManager.State;
      var e := AuditEvent(EventId(trace, nextEventId), trace, d, Some(executed), outcome);
      nextEventId := nextEventId + 1;
      ok := auditLog.Append(e);
      if ok { events := events + [e]; }
    }

    /** A permitted operation is recorded, then called. */
    method RecordThenRun(initial: Decision, final: Decision, operation: Operation, approvalId: Option<string>) returns (r: Interception)
      requires Valid()
      modifies `events, `nextEventId, auditLog, operation
      ensures Valid() && (View(), r) == RecordAndRun(old(View()), initial, final, operation.effect, approvalId)
      ensures operation.calls == old(operation.calls) + if Started(r) then 1 else 0
    {
      hide Recorded, ApprovalManager.State;
      var ok := Record(initial, true, final.kind);
      if !ok { return GovernanceRaised; }
      var value := operation.Call();
      if value.None? { return OperationRaised; }
      return Intercepted(final, true, value, approvalId);
    }

    method RecordThenStop(initial: Decision, final: Decision, approvalId: Option<string>) returns (r: Interception)
      requires Valid()
      modifies `events, `nextEventId, auditLog
      ensures Valid() && (View(), r) == RecordAndStop(old(View()), initial, final, approvalId) && !Started(r)
    {
      hide Recorded, ApprovalManager.State;
      var ok := Record(initial, false, final.kind);
      if !ok { return GovernanceRaised; }
      return Intercepted(final, false, None, approvalId);
    }

    /** An escalation opens an approval request. */
    method OpenApproval(d: Decision, q: Asking) returns (id: Option<string>)
      requires Valid() && managed
      modifies manager
      ensures Valid()
      ensures var (m, reply) := A.Step(old(manager.State()), Ask(d, q));
              && View() == old(View()).(manager := Some(m))
              && (id.Some? <==> reply.Ok?) && (reply.Ok? ==> id == Some(reply.value.id))
    {
      ghost var was := A.Step(manager.State(), Ask(d, q));
      var res := manager.RequestApproval(d, q.binding, q.identity, q.now, None);
      assert manager.State() == was.0 && ApprovalManagers.Outcome(res, was.1);
      assert res.Ok? ==> res.value.id == was.1.value.id;
      hide A.Step, ApprovalManager.State;
      return if res.Ok? then Some(res.value.id) else None;
    }

    /** `execute`. */
    method Execute(initial: Option<Decision>, q: Asking, handler: Handler, operation: Operation) returns (r: Interception)
      requires Valid()
      modifies `events, `nextEventId, auditLog, manager, operation
      ensures Valid() && (View(), r) == ExecuteStep(old(View()), initial, q, handler, operation.effect)
      ensures operation.calls == old(operation.calls) + if Started(r) then 1 else 0
    {
      assert manager.State().nextId >= 0;
      hide RecordAndRun, RecordAndStop, ApprovalManager.State, A.Step, Resolved;
      if initial.None? { return GovernanceRaised; }
      var d := initial.value;
      if mode.Shadow? {
        r := RecordThenRun(d, d, operation, None);
        return;
      }
      if d.kind.Escalate? && managed {
        var id := OpenApproval(d, q);
        if id.None? { return GovernanceRaised; }
        r := RecordThenStop(d, d, id);
        return;
      }
      if d.kind.Escalate? && handler.Raises? { return GovernanceRaised; }
      var final := Resolved(d, handler);
      if final.kind.Allow? {
        r := RecordThenRun(d, final, operation, None);
      } else {
        r := RecordThenStop(d, final, None);
      }
    }

    /** The single use of an approval. */
    method Consume(role: string, current: Decision, op: A.Op, operation: Operation) returns (r: Interception)
      requires Valid() && managed && op.Resume?
      modifies `events, `nextEventId, auditLog, manager.requests.Values, operation
      ensures Valid() && (View(), r) == Consumed(old(View()), old(manager.State()), role, current, op, operation.effect)
      ensures operation.calls == old(operation.calls) + if Started(r) then 1 else 0
    {
      hide RecordAndRun, RecordAndStop, ApprovalManager.State, A.ResumeStep;
      var res := manager.PrepareResume(op.id, op.binding, op.now);
      if res.Err? {
        r := RecordThenStop(current, Unresumable(current), Some(op.id));
      } else {
        r := RecordThenRun(current, Approved(current, role), operation, Some(op.id));
      }
    }

    method Reconsider(current: Decision, op: A.Op, operation: Operation) returns (r: Interception)
      requires Valid() && managed && op.Resume?
      modifies `events, `nextEventId, auditLog, manager.requests.Values, operation
      ensures Valid() && (View(), r) == Reconsidered(old(View()), current, op, operation.effect)
      ensures operation.calls == old(operation.calls) + if Started(r) then 1 else 0
    {
      hide RecordAndStop, ApprovalManager.State, A.LookStep, Consumed;
      var found := manager.Get(op.id, op.now);
      if found.Err? { return GovernanceRaised; }
      if !current.kind.Escalate? || current.role != Some(found.value.role) {
        r := RecordThenStop(current, Mismatched(current), Some(op.id));
      } else {
        SameConsumption(old(View()), View(), manager.State(), found.value.role, current, op, operation.effect);
        r := Consume(found.value.role, current, op, operation);
      }
    }

    /** `resume_approved`. */
    method ResumeApproved(current: Option<Decision>, op: A.Op, q: Asking, handler: Handler, operation: Operation) returns (r: Interception)
      requires Valid() && op.Resume?
      modifies `events, `nextEventId, auditLog, manager, manager.requests.Values, operation
      ensures Valid() && (View(), r) == ResumeStep(old(View()), current, op, q, handler, operation.effect)
      ensures operation.calls == old(operation.calls) + if Started(r) then 1 else 0
    {
      assert manager.State().nextId >= 0;
      hide ApprovalManager.State, Reconsidered, ExecuteStep;
      if mode.Shadow? {
        r := Execute(current, q, handler, operation);
      } else if !managed || current.None? {
        r := GovernanceRaised;
      } else {
        r := Reconsider(current.value, op, operation);
      }
    }
  }

  class RuntimeAdapter {
    const interceptor: Interceptor
    const raisesInShadow: bool
    var completed: set<string>

    function View(): Adapter
      reads this, interceptor, interceptor.auditLog, interceptor.manager, interceptor.manager.requests.Values
    {
      Adapter(interceptor.View(), completed, raisesInShadow)
    }

    constructor (interceptor: Interceptor, raisesInShadow: bool)
      ensures View() == Adapter(interceptor.View(), {}, raisesInShadow) && this.interceptor == interceptor
    {
      this.interceptor, this.raisesInShadow, completed := interceptor, raisesInShadow, {};
    }

    /** `_error_result`. */
    method AnswerError(operation: Operation, requestId: Option<string>) returns (o: Outcome)
      requires interceptor.Valid()
      modifies interceptor`events, interceptor`nextEventId, interceptor.auditLog, operation
      ensures interceptor.Valid() && (View(), o) == ErrorResult(old(View()), operation.effect, requestId)
      ensures operation.calls == old(operation.calls) + if (o.Result? && Started(o.result)) || (o.Raised? && o.started) then 1 else 0
    {
      hide Recorded, ApprovalManager.State;
      var shadow := interceptor.mode.Shadow?;
      var ok := interceptor.Record(GovernanceBlock(), shadow, Block);
      if !ok { return Raised(false); }
      if !shadow { return Result(Intercepted(GovernanceBlock(), false, None, None)); }
      var value := operation.Call();
      if value.None? { return Raised(true); }
      return Result(Intercepted(GovernanceBlock(), true, value, requestId));
    }

    /** `invoke`, once the caller is verified. */
    method Govern(requestId: Option<string>, initial: Option<Decision>, q: Asking, handler: Handler, operation: Operation) returns (o: Outcome)
      requires interceptor.Valid()
      modifies this, interceptor`events, interceptor`nextEventId, interceptor.auditLog, interceptor.manager, operation
      ensures interceptor.Valid()
      ensures (View(), o) == Governed(old(View()), requestId, initial, q, handler, operation.effect)
      ensures operation.calls == old(operation.calls) + if (o.Result? && Started(o.result)) || (o.Raised? && o.started) then 1 else 0
    {
      assert interceptor.manager.State().nextId >= 0;
      hide ExecuteStep, ApprovalManager.State, ErrorResult, StartIsRecorded;
      var i := interceptor.Execute(initial, q, handler, operation);
      if i.OperationRaised? { return Raised(true); }
      if i.GovernanceRaised? {
        if interceptor.mode.Shadow? && raisesInShadow { return Raised(false); }
        o := AnswerError(operation, requestId);
        return;
      }
      if interceptor.mode.Enforce? && requestId.Some? && i.executed { completed := completed + {requestId.value}; }
      return Result(i);
    }

    /** `invoke`. */
    method Invoke(requestId: Option<string>, identity: Identity, initial: Option<Decision>, q: Asking, handler: Handler, operation: Operation)
      returns (o: Outcome)
      requires interceptor.Valid()
      modifies this, interceptor`events, interceptor`nextEventId, interceptor.auditLog, interceptor.manager, operation
      ensures interceptor.Valid()
      ensures (View(), o) == InvokeStep(old(View()), requestId, identity, initial, q, handler, operation.effect)
      ensures operation.calls == old(operation.calls) + if (o.Result? && Started(o.result)) || (o.Raised? && o.started) then 1 else 0
    {
      assert interceptor.manager.State().nextId >= 0;
      hide Recorded, Governed, ApprovalManager.State;
      if interceptor.mode.Enforce? && requestId.Some? && requestId.value in completed {
        return Result(Intercepted(Duplicate(), false, None, None));
      }
      if identity.Unverified? {
        var ok := interceptor.Record(GovernanceBlock(), false, Block);
        return if ok then Result(Intercepted(GovernanceBlock(), false, None, None)) else Raised(false);
      }
      o := Govern(requestId, initial, q, handler, operation);
    }
  }
}
