/** The gate in plain terms: which decision, handler and approval lets an operation start,
    what is recorded of it and what the caller is given (governance/interceptor.py,
    governance/runtime.py). */
module PlainGates {
  import opened Text
  import opened Model
  import opened Audit
  import opened Gates
  import PlainApprovals
  import A = Approval

  /** The next id of the interceptor is in its log. */
  predicate IsTaken(g: Gate) {
    exists i :: 0 <= i < |g.log| && g.log[i].id == g.trace + "-" + Pad4(g.nextEventId)
  }

  /** One event more, of a decision whose operation may start or may not. */
  predicate Notes(g: Gate, h: Gate, d: Decision, mayStart: bool, outcome: DecisionKind) {
    var e := AuditEvent(g.trace + "-" + Pad4(g.nextEventId), g.trace, d, Some(mayStart), outcome);
    && h.log == g.log + [e] && h.events == g.events + [e] && h.nextEventId == g.nextEventId + 1
    && h.mode == g.mode && h.trace == g.trace && h.manager == g.manager
  }

  lemma RecordingInPlainTerms(g: Gate, d: Decision, mayStart: bool, outcome: DecisionKind)
    ensures var (h, ok) := Recorded(g, d, mayStart, outcome);
            if IsTaken(g) then !ok && h == g.(nextEventId := g.nextEventId + 1) else ok && Notes(g, h, d, mayStart, outcome)
  {
    var id := g.trace + ("-" + Pad4(g.nextEventId));
    assert id == g.trace + "-" + Pad4(g.nextEventId);
    if IsTaken(g) {
      var i :| 0 <= i < |g.log| && g.log[i].id == g.trace + "-" + Pad4(g.nextEventId);
      assert id in IdsOf(g.log);
    }
    hide Pad4;
  }

  /** The decision `d` is recorded first, unless its id is taken; then the operation starts,
      if it `runs`, and the caller is given the final decision with the operation's value. */
  predicate Follows(g: Gate, h: Gate, i: Interception, d: Decision, final: Decision, runs: bool, approvalId: Option<string>, effect: Option<string>) {
    if IsTaken(g) then i == GovernanceRaised && h == g.(nextEventId := g.nextEventId + 1)
    else
      && Notes(g, h, d, runs, final.kind)
      && i == (if !runs then Intercepted(final, false, None, approvalId)
               else if effect.None? then OperationRaised
               else Intercepted(final, true, effect, approvalId))
  }

  lemma RecordingFollows(g: Gate, d: Decision, final: Decision, effect: Option<string>, approvalId: Option<string>)
    ensures var (h, i) := RecordAndRun(g, d, final, effect, approvalId); Follows(g, h, i, d, final, true, approvalId, effect)
    ensures var (h, i) := RecordAndStop(g, d, final, approvalId); Follows(g, h, i, d, final, false, approvalId, effect)
  {
    RecordingInPlainTerms(g, d, true, final.kind);
    RecordingInPlainTerms(g, d, false, final.kind);
    hide Recorded, IsTaken, Notes;
  }

  /** A decision made from another: its kind and reason, with the rules and the authority of the first. */
  predicate IsMade(d: Decision, kind: DecisionKind, reason: string, from: Decision) {
    && d.kind == kind && d.role == None && d.reason == reason && d.matchedRules == from.matchedRules
    && d.authoritySource == from.authoritySource && d.authorityPath == from.authorityPath && d.approvalRoles == [] && d.approvalThreshold == 0
  }

  /** A call under the decision `d`: what is only observed, and what is allowed, runs; what is
      blocked does not. An escalation opens an approval where approvals are managed, and
      otherwise is up to the handler, if there is one. */
  lemma ExecutionInPlainTerms(g: Gate, d: Decision, q: Asking, handler: Handler, effect: Option<string>) returns (final: Decision)
    requires g.manager.Some? ==> g.manager.value.nextId >= 0
    ensures ExecuteStep(g, None, q, handler, effect) == (g, GovernanceRaised)
    ensures var (h, i) := ExecuteStep(g, Some(d), q, handler, effect);
            if g.mode == Shadow then Follows(g, h, i, d, d, true, None, effect)
            else match d.kind
                 case Allow => Follows(g, h, i, d, d, true, None, effect)
                 case Block => Follows(g, h, i, d, d, false, None, effect)
                 case Escalate =>
                   && d.role.Some?
                   && if g.manager.Some? then
                        var (manager, reply) := A.AskStep(g.manager.value, d, q.binding, q.identity, q.now, None);
                        var asked := g.(manager := Some(manager));
                        if reply.Ok? then Follows(asked, h, i, d, d, false, Some(reply.value.id), effect)
                        else h == asked && i == GovernanceRaised
                      else match handler
                           case NoHandler => Follows(g, h, i, d, d, false, None, effect)
                           case Approves => IsMade(final, Allow, "approved by " + d.role.value, d) && Follows(g, h, i, d, final, true, None, effect)
                           case Refuses => IsMade(final, Block, "approval denied by " + d.role.value, d) && Follows(g, h, i, d, final, false, None, effect)
                           case Raises => h == g && i == GovernanceRaised
  {
    final := Resolved(d, handler);
    hide A.AskStep, RecordAndRun, RecordAndStop, Follows;
    RecordingFollows(g, d, d, effect, None);
    RecordingFollows(g, d, final, effect, None);
    if d.kind == Escalate && g.manager.Some? {
      var (manager, reply) := A.AskStep(g.manager.value, d, q.binding, q.identity, q.now, None);
      if reply.Ok? { RecordingFollows(g.(manager := Some(manager)), d, d, effect, Some(reply.value.id)); }
    }
  }

  /** A resumption under a policy that decides `d`: it is observed like a call, and enforced
      it runs only if the approval is consumed for the escalation that the policy still makes. */
  lemma ResumptionInPlainTerms(g: Gate, current: Option<Decision>, op: A.Op, q: Asking, handler: Handler, effect: Option<string>) returns (final: Decision)
    requires op.Resume? && (g.manager.Some? ==> g.manager.value.nextId >= 0)
    ensures var (h, i) := ResumeStep(g, current, op, q, handler, effect);
            if g.mode == Shadow then (h, i) == ExecuteStep(g, current, q, handler, effect)
            else if g.manager.None? || current.None? then (h, i) == (g, GovernanceRaised)
            else
              var d := current.value;
              var (read, found) := A.LookStep(g.manager.value, op.id, op.now);
              var (used, reply) := A.ResumeStep(read, op.id, op.binding, op.now);
              if found.Err? then h == g.(manager := Some(read)) && i == GovernanceRaised
              else if d.kind != Escalate || d.role != Some(found.value.role) then
                && IsMade(final, Block, "approval no longer matches the current escalation", d)
                && Follows(g.(manager := Some(read)), h, i, d, final, false, Some(op.id), effect)
              else if reply.Err? then
                IsMade(final, Block, "approval refused", d) && Follows(g.(manager := Some(used)), h, i, d, final, false, Some(op.id), effect)
              else
                && IsMade(final, Allow, "approved by " + found.value.role, d)
                && Follows(g.(manager := Some(used)), h, i, d, final, true, Some(op.id), effect)
  {
    final := DecisionRecord(Allow, None, "", [], "", [], [], 0);
    if g.mode == Enforce && g.manager.Some? && current.Some? {
      var d := current.value;
      var (read, found) := A.LookStep(g.manager.value, op.id, op.now);
      var (used, reply) := A.ResumeStep(read, op.id, op.binding, op.now);
      hide A.LookStep, A.ResumeStep, RecordAndRun, RecordAndStop, Follows, ExecuteStep;
      if found.Ok? {
        if d.kind != Escalate || d.role != Some(found.value.role) {
          final := Mismatched(d);
          RecordingFollows(g.(manager := Some(read)), d, final, effect, Some(op.id));
        } else {
          final := if reply.Err? then Unresumable(d) else Approved(d, found.value.role);
          RecordingFollows(g.(manager := Some(used)), d, final, effect, Some(op.id));
        }
      }
    }
  }

  /** An enforced resumption starts its operation exactly when its record can be made, the
      policy still escalates to the role that the approval was opened for, and the approval
      is granted, unused, before its deadline and bound to the same request. */
  lemma ResumptionStartsExactly(g: Gate, current: Option<Decision>, op: A.Op, q: Asking, handler: Handler, effect: Option<string>)
    requires op.Resume? && g.mode == Enforce && g.manager.Some? && A.Valid(g.manager.value)
    ensures var (h, i) := ResumeStep(g, current, op, q, handler, effect);
            var m := g.manager.value;
            Started(i) <==>
              && !IsTaken(g) && current.Some? && op.id in m.requests
              && current.value.kind == Escalate && current.value.role == Some(m.requests[op.id].role)
              && IsGranted(m.requests[op.id], op)
  {
    var final := ResumptionInPlainTerms(g, current, op, q, handler, effect);
    ConsumedExactly(g.manager.value, op);
    hide A.Valid, A.LookStep, A.ResumeStep, ResumeStep, Notes, IsGranted, IsMade;
    SameIds(g);
    hide IsTaken;
  }

  /** An approval is read and then consumed exactly when it is granted. */
  lemma ConsumedExactly(m: A.Manager, op: A.Op)
    requires op.Resume? && A.Valid(m)
    ensures var (read, found) := A.LookStep(m, op.id, op.now);
            && (found.Ok? <==> op.id in m.requests) && (found.Ok? ==> found.value.role == m.requests[op.id].role)
            && (found.Ok? ==> (A.ResumeStep(read, op.id, op.binding, op.now).1.Ok? <==> IsGranted(m.requests[op.id], op)))
  {
    PlainApprovals.ReadingInPlainTerms(m, op.id, op.now);
    var read := A.LookStep(m, op.id, op.now).0;
    A.StepAdvances(m, A.Look(op.id, op.now));
    assert A.Valid(read);
    PlainApprovals.ResumptionInPlainTerms(read, op.id, op.binding, op.now);
    hide A.Valid, A.LookStep, A.ResumeStep, A.Advances;
  }

  lemma SameIds(g: Gate)
    ensures forall m {:trigger g.(manager := m)} :: IsTaken(g.(manager := m)) == IsTaken(g)
  {}

  predicate IsGranted(r: A.Request, op: A.Op)
    requires op.Resume?
  {
    && r.state == A.Approved && !r.consumed && PlainApprovals.TimeOf(r, op.now) < r.expiresAt
    && r.binding.action == op.binding.action && r.binding.context == op.binding.context && r.binding.policy == op.binding.policy
    && r.binding.state == op.binding.state
  }

  // ------------------------------------------------------------- the adapter

  /** A block of the adapter's own, which no policy decided. */
  predicate IsOwnBlock(d: Decision, reason: string) {
    && d.kind == Block && d.role == None && d.reason == reason && d.matchedRules == [] && d.authoritySource == "" && d.authorityPath == []
    && d.approvalRoles == [] && d.approvalThreshold == 0
  }

  /** The adapter with the interceptor that a call leaves. */
  predicate Passes(r: Adapter, s: Adapter, g: Gate, completed: set<string>) {
    s.gate == g && s.raisesInShadow == r.raisesInShadow && s.completed == completed
  }

  /** A failure of governance is recorded as a block; an adapter that only observes runs the
      operation all the same. */
  predicate Fails(r: Adapter, s: Adapter, o: Outcome, g: Gate, block: Decision, effect: Option<string>, requestId: Option<string>) {
    && IsOwnBlock(block, "governance error") && Passes(r, s, s.gate, r.completed)
    && if IsTaken(g) then s.gate == g.(nextEventId := g.nextEventId + 1) && o == Raised(false)
       else
         && Notes(g, s.gate, block, g.mode == Shadow, Block)
         && o == (if g.mode == Enforce then Result(Intercepted(block, false, None, None))
                  else if effect.None? then Raised(true)
                  else Result(Intercepted(block, true, effect, requestId)))
  }

  lemma FailingInPlainTerms(r: Adapter, effect: Option<string>, requestId: Option<string>)
    ensures var (s, o) := ErrorResult(r, effect, requestId); Fails(r, s, o, r.gate, GovernanceBlock(), effect, requestId)
  {
    RecordingInPlainTerms(r.gate, GovernanceBlock(), r.gate.mode == Shadow, Block);
    hide Recorded, IsTaken, Notes;
  }

  /** What the adapter makes of what the interceptor answers. */
  predicate Adapts(r: Adapter, s: Adapter, o: Outcome, g: Gate, i: Interception, block: Decision, effect: Option<string>, requestId: Option<string>) {
    match i
    case OperationRaised => Passes(r, s, g, r.completed) && o == Raised(true)
    case GovernanceRaised =>
      if r.gate.mode == Shadow && r.raisesInShadow then Passes(r, s, g, r.completed) && o == Raised(false)
      else Fails(r, s, o, g, block, effect, requestId)
    case Intercepted(_, executed, _, _) =>
      && o == Result(i)
      && Passes(r, s, g, if executed && r.gate.mode == Enforce && requestId.Some? then r.completed + {requestId.value} else r.completed)
  }

  lemma GoverningAdapts(r: Adapter, requestId: Option<string>, initial: Option<Decision>, q: Asking, handler: Handler, effect: Option<string>)
    requires r.gate.manager.Some? ==> r.gate.manager.value.nextId >= 0
    ensures var (s, o) := Governed(r, requestId, initial, q, handler, effect);
            var (g, i) := ExecuteStep(r.gate, initial, q, handler, effect);
            Adapts(r, s, o, g, i, GovernanceBlock(), effect, requestId)
  {
    var (g, i) := ExecuteStep(r.gate, initial, q, handler, effect);
    ModeStays(r.gate, initial, q, handler, effect);
    FailingInPlainTerms(r.(gate := g), effect, requestId);
    hide ErrorResult, ExecuteStep, IsOwnBlock, Notes, IsTaken;
  }

  lemma ModeStays(g: Gate, initial: Option<Decision>, q: Asking, handler: Handler, effect: Option<string>)
    requires g.manager.Some? ==> g.manager.value.nextId >= 0
    ensures ExecuteStep(g, initial, q, handler, effect).0.mode == g.mode
  {
    ExecutionIsRecorded(g, initial, q, handler, effect);
    hide ExecuteStep;
  }

  /** An invocation: a completed request is not repeated, a caller who is not verified is
      blocked on record, and any other call is what the interceptor makes of it, except that a
      failure of governance becomes a block; what executed is remembered under enforcement. */
  lemma InvocationInPlainTerms(r: Adapter, requestId: Option<string>, identity: Identity, initial: Option<Decision>, q: Asking, handler: Handler,
                               effect: Option<string>) returns (block: Decision)
    requires r.gate.manager.Some? ==> r.gate.manager.value.nextId >= 0
    ensures var (s, o) := InvokeStep(r, requestId, identity, initial, q, handler, effect);
            if r.gate.mode == Enforce && requestId.Some? && requestId.value in r.completed then
              IsOwnBlock(block, "duplicate completed request") && s == r && o == Result(Intercepted(block, false, None, None))
            else if identity == Unverified then
              && IsOwnBlock(block, "governance error") && Passes(r, s, s.gate, r.completed)
              && if IsTaken(r.gate) then s.gate == r.gate.(nextEventId := r.gate.nextEventId + 1) && o == Raised(false)
                 else Notes(r.gate, s.gate, block, false, Block) && o == Result(Intercepted(block, false, None, None))
            else
              var (g, i) := ExecuteStep(r.gate, initial, q, handler, effect);
              Adapts(r, s, o, g, i, block, effect, requestId)
  {
    block := if r.gate.mode == Enforce && requestId.Some? && requestId.value in r.completed then Duplicate() else GovernanceBlock();
    RecordingInPlainTerms(r.gate, GovernanceBlock(), false, Block);
    GoverningAdapts(r, requestId, initial, q, handler, effect);
    hide Recorded, IsTaken, Notes, ExecuteStep, Governed, Adapts;
  }

  // ------------------------------------------------------------- the numbering

  /** The event is numbered `n` under the trace: its id ends in digits of that value. */
  ghost predicate IsNumbered(e: AuditEvent, trace: string, n: nat) {
    e.trace == trace && exists digits :: IsDigits(digits) && e.id == trace + ("-" + digits) && ValueOf(digits) == n
  }

  lemma NumberExactly(e: AuditEvent, trace: string, n: nat)
    ensures IsNumbered(e, trace, n) ==> SequenceOf(e, trace) == n
    ensures SequenceOf(e, trace) == n && n > 0 ==> IsNumbered(e, trace, n)
  {
    var prefix := trace + "-";
    if IsNumbered(e, trace, n) {
      var digits :| IsDigits(digits) && e.id == trace + ("-" + digits) && ValueOf(digits) == n;
      assert e.id == prefix + digits && e.id[|prefix|..] == digits && prefix <= e.id;
    }
    if SequenceOf(e, trace) == n && n > 0 {
      var digits := e.id[|prefix|..];
      assert e.id == prefix + digits && prefix + digits == trace + ("-" + digits);
    }
  }

  /** The next number of a trace: one more than the highest that is given, or one. */
  lemma {:induction false} NextNumberInPlainTerms(events: seq<AuditEvent>, trace: string)
    ensures var next := NextSequence(events, trace);
            && next >= 1
            && (forall i, n: nat {:trigger IsNumbered(events[i], trace, n)} :: 0 <= i < |events| && IsNumbered(events[i], trace, n) ==> n < next)
            && (next > 1 ==> exists i :: 0 <= i < |events| && IsNumbered(events[i], trace, next - 1))
  {
    hide SequenceOf, IsNumbered;
    if events != [] {
      var front, last := events[..|events| - 1], events[|events| - 1];
      NextNumberInPlainTerms(front, trace);
      var next := NextSequence(events, trace);
      NumberExactly(last, trace, SequenceOf(last, trace));
      forall i, n: nat {:trigger IsNumbered(events[i], trace, n)} | 0 <= i < |events| && IsNumbered(events[i], trace, n) ensures n < next {
        if i < |front| { assert front[i] == events[i]; } else { NumberExactly(last, trace, n); }
      }
      if next > 1 {
        if SequenceOf(last, trace) == next - 1 {
          assert events[|front|] == last;
        } else {
          var i :| 0 <= i < |front| && IsNumbered(front[i], trace, next - 1);
          assert events[i] == front[i];
        }
      }
    }
  }
}
