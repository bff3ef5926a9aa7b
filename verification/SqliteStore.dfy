/** The store object (governance/storage.py): each method is one transaction
    that is rolled back when its operation or its commit fails. */
module SqliteStore {
  import opened Text
  import opened DurableStore

  class SQLiteGovernanceStore {
    var rows: map<(Endpoint, string), IdempotencyRow>
    var claims: map<(Kind, string), ClaimRow>
    var state: Option<StateRow>

    function State(): Store
      reads this
    {
      Store(rows, claims, state)
    }

    constructor ()
      ensures State() == Store(map[], map[], None)
    {
      rows, claims, state := map[], map[], None;
    }

    method Rollback(begun: Store)
      modifies this
      ensures State() == begun
    {
      rows, claims, state := begun.rows, begun.claims, begun.state;
    }

    method BeginIdempotency(request: Request, fault: Fault) returns (res: Result<Reservation, StoreError>)
      modifies this
      ensures (State(), res) == Transact(old(State()), fault, BeginStep(old(State()), request))
    {
      if fault.AtBegin? { return Err(Unavailable); }
      var begun := State();
      var at := (request.endpoint, request.key);
      if at in rows {
        if rows[at].request != request { return Err(Conflict); }
        res := Ok(Reservation(rows[at], false));
      } else {
        rows := rows[at := InProgress(request)];
        res := Ok(Reservation(rows[at], true));
      }
      if fault.AtCommit? {
        Rollback(begun);
        res := Err(Unavailable);
      }
    }

    method CompleteIdempotency(scope: Endpoint, request: Request, response: Response, fault: Fault)
      returns (res: Result<Response, StoreError>)
      modifies this
      ensures (State(), res) == Transact(old(State()), fault, CompleteStep(old(State()), scope, request, response))
    {
      if fault.AtBegin? { return Err(Unavailable); }
      var begun := State();
      var at := (scope, request.key);
      var encoded := NormalResponse(response);
      if at !in rows { return Err(Unavailable); }
      if rows[at].request != request { return Err(Conflict); }
      if rows[at].Complete? {
        if rows[at].response != encoded { return Err(Conflict); }
      } else {
        rows := rows[at := Complete(request, encoded)];
      }
      res := Ok(encoded);
      if fault.AtCommit? {
        Rollback(begun);
        res := Err(Unavailable);
      }
    }

    method ClaimExecution(kind: Kind, key: string, claimId: ClaimId, fault: Fault) returns (res: Result<Claim, StoreError>)
      modifies this
      ensures (State(), res) == Transact(old(State()), fault, ClaimStep(old(State()), kind, key, claimId))
    {
      if fault.AtBegin? { return Err(Unavailable); }
      var begun := State();
      var at := (kind, key);
      if at in claims {
        if claims[at].claimId != claimId { return Err(Conflict); }
        res := Ok(Claim(claims[at], false));
      } else {
        if exists c :: c in claims && claims[c].claimId == claimId { return Err(Unavailable); }
        claims := claims[at := ClaimRow(claimId, Claimed, Null)];
        res := Ok(Claim(claims[at], true));
      }
      if fault.AtCommit? {
        Rollback(begun);
        res := Err(Unavailable);
      }
    }

    /** `load_execution`, of a decision: whether its claim is settled. */
    method DecisionIsSettled(key: string) returns (settled: bool)
      ensures settled == IsSettled(State(), key)
    {
      var at := (DecisionRun, key);
      if at !in claims { return false; }
      return !claims[at].status.Claimed?;
    }

    method CompleteExecution(kind: Kind, key: string, claimId: ClaimId, status: ClaimStatus, outcome: Json, fault: Fault)
      returns (res: Result<ClaimRow, StoreError>)
      modifies this
      ensures (State(), res) == Transact(old(State()), fault, SettleStep(old(State()), kind, key, claimId, status, outcome))
    {
      if fault.AtBegin? || status.Claimed? { return Err(Unavailable); }
      var begun := State();
      var at := (kind, key);
      var row := ClaimRow(claimId, status, Normal(outcome));
      if at !in claims || claims[at].claimId != claimId { return Err(Conflict); }
      if !claims[at].status.Claimed? {
        if claims[at] != row { return Err(Conflict); }
      } else {
        claims := claims[at := row];
      }
      res := Ok(row);
      if fault.AtCommit? {
        Rollback(begun);
        res := Err(Unavailable);
      }
    }

    method SaveState(payload: Payload, expected: Option<int>, fault: Fault) returns (res: Result<int, StoreError>)
      modifies this
      ensures (State(), res) == Transact(old(State()), fault, SaveStep(old(State()), payload, expected))
    {
      if fault.AtBegin? || (expected.Some? && expected.value < 1) { return Err(Unavailable); }
      var begun := State();
      var revision := 1;
      if expected.None? {
        if state.Some? { return Err(Conflict); }
      } else {
        if state.None? || state.value.revision != expected.value { return Err(Conflict); }
        revision := expected.value + 1;
      }
      state := Some(StateRow(revision, payload));
      res := Ok(revision);
      if fault.AtCommit? {
        Rollback(begun);
        res := Err(Unavailable);
      }
    }
  }
}
