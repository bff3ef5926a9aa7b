/** The calls of module Service are runs of module Protocol: what an endpoint does
    to the store and to its worker is what the worker's steps do, one after another. */
module ServiceRuns {
  import opened Text
  import opened DurableStore
  import opened DurableWorker
  import opened Protocol
  import opened Service
  import S = ProtocolSafety
  import A = Approval

  ghost function Played(s: System, steps: seq<Step>): System
    decreases |steps|
  {
    if steps == [] then s else Played(Next(s, steps[0]), steps[1..])
  }

  lemma {:induction false} RunsCompose(before: seq<Step>, steps: seq<Step>)
    ensures Run(before + steps) == Played(Run(before), steps)
    decreases |steps|
  {
    if steps == [] {
      assert before + steps == before;
    } else {
      assert before + steps == (before + [steps[0]]) + steps[1..];
      assert (before + [steps[0]])[..|before|] == before;
      RunsCompose(before + [steps[0]], steps[1..]);
    }
  }

  predicate Shows(s: System, i: nat, outcome: (Store, Worker)) { i in s.workers && (s.store, s.workers[i]) == outcome }

  /** The steps from the first claim of a call to its answer; those that are not due do not happen. */
  function Conclusion(i: nat, h: Handling, f: Faults): seq<Step> {
    [ClaimRunStep(i, f.claim), RunStep(i, h.returned), FinishStep(i, f.settle, h.serializable), PersistStep(i, f.save), CommitStep(i, f.complete)]
  }

  lemma ClaimIsPlayed(s: System, i: nat, fault: Fault)
    requires i in s.workers
    ensures var t := Next(s, ClaimRunStep(i, fault));
            if s.workers[i].pc.Claiming? then Shows(t, i, ClaimRun(s.store, s.workers[i], fault)) else t == s
  {
    hide ClaimRun;
  }

  lemma HandlerIsPlayed(s: System, i: nat, returned: Option<Json>)
    requires i in s.workers
    ensures var t := Next(s, RunStep(i, returned));
            if s.workers[i].pc.Running? then Shows(t, i, (s.store, RunHandler(s.workers[i], returned))) else t == s
  {}

  lemma FinishIsPlayed(s: System, i: nat, fault: Fault, serializable: bool)
    requires i in s.workers
    ensures var t := Next(s, FinishStep(i, fault, serializable));
            if s.workers[i].pc.Finishing? then Shows(t, i, Finish(s.store, s.workers[i], fault, serializable)) else t == s
  {
    hide Finish;
  }

  lemma OperationIsPlayed(s: System, i: nat, h: Handling, f: Faults)
    requires i in s.workers && !s.workers[i].pc.Running? && !s.workers[i].pc.Finishing?
    ensures Shows(Next(Next(Next(s, ClaimRunStep(i, f.claim)), RunStep(i, h.returned)), FinishStep(i, f.settle, h.serializable)),
                  i, Operated(s.store, s.workers[i], h, f))
  {
    if s.workers[i].pc.Claiming? { Afterwards(s.workers[i]); }
    hide ClaimStep, Transact, Finish, AfterRun, Next;
    ClaimIsPlayed(s, i, f.claim);
    var t := Next(s, ClaimRunStep(i, f.claim));
    HandlerIsPlayed(t, i, h.returned);
    FinishIsPlayed(Next(t, RunStep(i, h.returned)), i, f.settle, h.serializable);
  }

  lemma SavingIsPlayed(s: System, i: nat, f: Faults)
    requires i in s.workers
    ensures Shows(Next(Next(s, PersistStep(i, f.save)), CommitStep(i, f.complete)), i, Saved(s.store, s.workers[i], f))
  {
    hide SaveStep, CompleteStep, Transact;
    var t := Next(s, PersistStep(i, f.save));
    if s.workers[i].pc.Persisting? || s.workers[i].pc.PersistingExpiry? {
      assert Shows(t, i, Persist(s.store, s.workers[i], f.save));
    } else {
      assert t == s;
    }
    hide Persist, Commit;
  }

  lemma ConclusionIsPlayed(s: System, i: nat, h: Handling, f: Faults)
    requires i in s.workers && !s.workers[i].pc.Running? && !s.workers[i].pc.Finishing?
    ensures Shows(Played(s, Conclusion(i, h, f)), i, Concluded(s.store, s.workers[i], h, f))
  {
    hide Operated, Saved, Next;
    var t := Next(Next(Next(s, ClaimRunStep(i, f.claim)), RunStep(i, h.returned)), FinishStep(i, f.settle, h.serializable));
    OperationIsPlayed(s, i, h, f);
    SavingIsPlayed(t, i, f);
    PlayFive(s, Conclusion(i, h, f));
  }

  lemma PlayFive(s: System, steps: seq<Step>)
    requires |steps| == 5
    ensures Played(s, steps) == Next(Next(Next(Next(Next(s, steps[0]), steps[1]), steps[2]), steps[3]), steps[4])
  {
    hide Next;
    var one := Next(s, steps[0]);
    var two := Next(one, steps[1]);
    var three := Next(two, steps[2]);
    var four := Next(three, steps[3]);
    assert steps[0..] == steps;
    PlayNext(s, steps, 0);
    PlayNext(one, steps, 1);
    PlayNext(two, steps, 2);
    PlayNext(three, steps, 3);
    PlayNext(four, steps, 4);
  }

  lemma PlayNext(s: System, steps: seq<Step>, k: nat)
    requires k < |steps|
    ensures Played(s, steps[k..]) == Played(Next(s, steps[k]), steps[k + 1..])
  {
    hide Next;
    assert steps[k..][1..] == steps[k + 1..];
  }

  lemma ReceiptIsPlayed(s: System, i: nat, request: Request, fault: Fault)
    requires Inv(s) && i in s.workers && s.workers[i].pc.Idle?
    ensures var t := Next(s, ReceiveStep(i, request, fault));
            var (u, n, _) := Receive(s.store, s.workers[i], request, fault);
            Shows(t, i, (u, n)) && A.Valid(t.workers[i].manager)
  {
    assert A.Valid(s.workers[i].manager) by { S.Unfolded(s, i); }
    hide Receive, A.Valid;
    Received(s.store, s.workers[i], request, fault);
  }

  /** `_decision`: receive, decide, and conclude. */
  lemma DecisionIsARun(before: seq<Step>, i: nat, request: Request, verdict: Verdict, h: Handling, f: Faults)
    requires var s := Run(before); i in s.workers && s.workers[i].pc.Idle?
    requires request.endpoint == Decisions && Fits(Run(before).workers[i].shadow, verdict)
    ensures var s := Run(before);
            var t := Run(before + ([ReceiveStep(i, request, f.begin), DecideStep(i, verdict)] + Conclusion(i, h, f)));
            var (u, w, outcome) := Receive(s.store, s.workers[i], request, f.begin);
            && (!outcome.Acquired? ==> Shows(t, i, (u, w)))
            && (outcome.Acquired? ==>
                  A.Valid(w.manager) && w.pc == Reserved(Ticket(Decisions, request)) && Shows(t, i, Concluded(u, Decide(w, verdict), h, f)))
  {
    hide Run, Receive, Concluded, A.Valid, Decide, Inv;
    var s := Run(before);
    S.ReachableIsSafe(before);
    var first := ReceiveStep(i, request, f.begin);
    Received(s.store, s.workers[i], request, f.begin);
    ReceiptIsPlayed(s, i, request, f.begin);
    var r := Next(s, first);
    var d := Next(r, DecideStep(i, verdict));
    PlayTwo(before, first, DecideStep(i, verdict), Conclusion(i, h, f));
    if r.workers[i].pc.Reserved? {
      assert Shows(d, i, (r.store, Decide(r.workers[i], verdict)));
      Governed(r.workers[i], verdict);
    } else {
      assert d == r;
      Concludes(d.store, d.workers[i], h, f);
    }
    hide Next;
    ConclusionIsPlayed(d, i, h, f);
  }

  lemma Governed(w: Worker, verdict: Verdict)
    requires w.pc.Reserved? && w.pc.ticket.scope == Decisions
    requires A.Valid(w.manager) && Fits(w.shadow, verdict)
    ensures !Decide(w, verdict).pc.Running? && !Decide(w, verdict).pc.Finishing?
  {
    hide A.Step, A.Valid;
  }

  lemma PlayTwo(before: seq<Step>, first: Step, second: Step, rest: seq<Step>)
    ensures Run(before + ([first, second] + rest)) == Played(Next(Next(Run(before), first), second), rest)
  {
    hide Next, Run;
    var steps := [first, second] + rest;
    RunsCompose(before, steps);
    assert steps[1..] == [second] + rest && steps[1..][1..] == rest;
    assert Played(Run(before), steps) == Played(Next(Run(before), first), steps[1..]);
  }

  /** `_vote`. */
  lemma VoteIsARun(before: seq<Step>, i: nat, request: Request, op: A.Op, identity: Identity, h: Handling, f: Faults)
    requires var s := Run(before); i in s.workers && s.workers[i].pc.Idle?
    requires request.endpoint == Votes && (op.Approve? || op.Deny?) && op.id == request.target
    ensures var s := Run(before);
            var t := Run(before + ([ReceiveStep(i, request, f.begin), VoteStep(i, op, identity)] + Conclusion(i, h, f)));
            var (u, w, outcome) := Receive(s.store, s.workers[i], request, f.begin);
            && (!outcome.Acquired? ==> Shows(t, i, (u, w)))
            && (outcome.Acquired? ==>
                  A.Valid(w.manager) && w.pc == Reserved(Ticket(Votes, request)) && Shows(t, i, Concluded(u, Vote(w, op, identity), h, f)))
  {
    hide Run, Receive, Concluded, A.Valid, A.Step, Inv;
    var s := Run(before);
    S.ReachableIsSafe(before);
    var first := ReceiveStep(i, request, f.begin);
    Received(s.store, s.workers[i], request, f.begin);
    ReceiptIsPlayed(s, i, request, f.begin);
    var r := Next(s, first);
    var d := Next(r, VoteStep(i, op, identity));
    PlayTwo(before, first, VoteStep(i, op, identity), Conclusion(i, h, f));
    if r.workers[i].pc.Reserved? {
      assert Shows(d, i, (r.store, Vote(r.workers[i], op, identity)));
    } else {
      assert d == r;
      Concludes(d.store, d.workers[i], h, f);
    }
    hide Next;
    ConclusionIsPlayed(d, i, h, f);
  }

  /** `_resume`. */
  lemma ResumeIsARun(before: seq<Step>, i: nat, request: Request, seen: real, op: A.Op, identity: Identity, approver: bool,
                     recheck: Recheck, h: Handling, f: Faults)
    requires var s := Run(before); i in s.workers && s.workers[i].pc.Idle?
    requires request.endpoint == Resumes && op.Resume? && op.id == request.target && Suits(Run(before).workers[i].shadow, recheck)
    ensures var s := Run(before);
            var t := Run(before + ([ReceiveStep(i, request, f.begin), ResumeStep(i, seen, op, identity, approver, recheck)]
                                   + Conclusion(i, h, f)));
            var (u, w, outcome) := Receive(s.store, s.workers[i], request, f.begin);
            && (!outcome.Acquired? ==> Shows(t, i, (u, w)))
            && (outcome.Acquired? ==>
                  && A.Valid(w.manager) && w.pc == Reserved(Ticket(Resumes, request))
                  && Shows(t, i, Concluded(u, ResumeApproval(w, seen, op, identity, approver, recheck), h, f)))
  {
    hide Run, Receive, Concluded, A.Valid, ResumeApproval, Inv;
    var s := Run(before);
    S.ReachableIsSafe(before);
    var first := ReceiveStep(i, request, f.begin);
    var second := Step.ResumeStep(i, seen, op, identity, approver, recheck);
    Received(s.store, s.workers[i], request, f.begin);
    ReceiptIsPlayed(s, i, request, f.begin);
    var r := Next(s, first);
    var d := Next(r, second);
    PlayTwo(before, first, second, Conclusion(i, h, f));
    if r.workers[i].pc.Reserved? {
      assert Shows(d, i, (r.store, ResumeApproval(r.workers[i], seen, op, identity, approver, recheck)));
      Refusing(r.workers[i], seen, op, identity, approver, recheck);
    } else {
      assert d == r;
      Concludes(d.store, d.workers[i], h, f);
    }
    hide Next;
    ConclusionIsPlayed(d, i, h, f);
  }
}
