/** The durable repository (governance/storage.py): idempotency rows, execution
    claims and revisioned state records behind all-or-nothing transactions. */
module DurableStore {
  import opened Text
  import opened Approval

  /** JSON-compatible values; a tuple is encoded as a list. */
  datatype Json =
    | Null | Flag(b: bool) | Num(n: real) | Str(s: string)
    | List(items: seq<Json>) | Tuple(items: seq<Json>) | Object(fields: map<string, Json>)

  /** What a value is after `json.loads(json.dumps(value))`. */
  function Normal(j: Json): Json {
    match j
    case List(items) => List(seq(|items|, i requires 0 <= i < |items| => Normal(items[i])))
    case Tuple(items) => List(seq(|items|, i requires 0 <= i < |items| => Normal(items[i])))
    case Object(fields) => Object(map k | k in fields :: Normal(fields[k]))
    case _ => j
  }

  lemma {:induction false} NormalIsIdempotent(j: Json)
    ensures Normal(Normal(j)) == Normal(j)
  {
    match j
    case List(items) =>
      forall i | 0 <= i < |items| { NormalIsIdempotent(items[i]); }
    case Tuple(items) =>
      forall i | 0 <= i < |items| { NormalIsIdempotent(items[i]); }
    case Object(fields) =>
      forall k | k in fields ensures Normal(Normal(fields[k])) == Normal(fields[k]) { NormalIsIdempotent(fields[k]); }
      assert Normal(Normal(j)).fields == Normal(j).fields;
    case _ =>
  }

  /** `k` is what is read back when `j` was stored: lists for tuples, and all else as it was. */
  predicate StoredAs(j: Json, k: Json) {
    match j
    case List(items) => k.List? && |k.items| == |items| && forall i :: 0 <= i < |items| ==> StoredAs(items[i], k.items[i])
    case Tuple(items) => k.List? && |k.items| == |items| && forall i :: 0 <= i < |items| ==> StoredAs(items[i], k.items[i])
    case Object(fields) => k.Object? && k.fields.Keys == fields.Keys && forall key :: key in fields ==> StoredAs(fields[key], k.fields[key])
    case _ => k == j
  }

  lemma {:induction false} NormalIsStored(j: Json, k: Json)
    ensures StoredAs(j, k) <==> k == Normal(j)
    decreases j, 1
  {
    var n := Normal(j);
    match j
    case List(items) => ItemsAreStored(j, k, items);
    case Tuple(items) => ItemsAreStored(j, k, items);
    case Object(fields) =>
      if k.Object? && k.fields.Keys == fields.Keys {
        forall key | key in fields { NormalIsStored(fields[key], k.fields[key]); }
        if StoredAs(j, k) { assert k.fields == n.fields; }
      }
    case _ =>
  }

  lemma {:induction false} ItemsAreStored(j: Json, k: Json, items: seq<Json>)
    requires j == List(items) || j == Tuple(items)
    ensures StoredAs(j, k) <==> k == Normal(j)
    decreases j, 0
  {
    var n := Normal(j);
    if k.List? && |k.items| == |items| {
      forall i | 0 <= i < |items| { NormalIsStored(items[i], k.items[i]); }
      if StoredAs(j, k) { assert k.items == n.items; }
    }
  }

  /** The request namespaces and the execution namespaces of one durable scope. */
  datatype Endpoint = Decisions | Votes | Resumes

  datatype Kind = DecisionRun | ApprovalRun

  datatype ClaimId = ClaimId(kind: Kind, decisionId: string)

  /** A request value, which stands for its own fingerprint; `target` is the approval
      that a vote or a resumption is for. */
  datatype Request = Request(endpoint: Endpoint, key: string, target: string, content: string)

  datatype Response = Response(
    status: int, executed: Option<bool>, approvalId: Option<string>, code: string, value: Json)

  function NormalResponse(r: Response): Response { r.(value := Normal(r.value)) }

  datatype IdempotencyRow = InProgress(request: Request) | Complete(request: Request, response: Response)

  datatype ClaimStatus = Claimed | Succeeded | Failed | Unknown

  datatype ClaimRow = ClaimRow(claimId: ClaimId, status: ClaimStatus, outcome: Json)

  /** The service's state record: the approval manager, and the decision id of
      every approval that can be resumed. */
  datatype Payload = Payload(manager: Manager, pending: map<string, string>)

  datatype StateRow = StateRow(revision: int, payload: Payload)

  datatype Store = Store(
    rows: map<(Endpoint, string), IdempotencyRow>,
    claims: map<(Kind, string), ClaimRow>,
    state: Option<StateRow>)

  /** `Conflict` is `ConcurrencyError`; `Unavailable` is any other `StoreError`. */
  datatype StoreError = Conflict | Unavailable

  datatype Reservation = Reservation(row: IdempotencyRow, acquired: bool)

  datatype Claim = Claim(row: ClaimRow, acquired: bool)

  // ------------------------------------------------------- table operations

  function BeginStep(s: Store, request: Request): (Store, Result<Reservation, StoreError>) {
    var at := (request.endpoint, request.key);
    if at in s.rows then
      if s.rows[at].request != request then (s, Err(Conflict)) else (s, Ok(Reservation(s.rows[at], false)))
    else
      (s.(rows := s.rows[at := InProgress(request)]), Ok(Reservation(InProgress(request), true)))
  }

  function CompleteStep(s: Store, scope: Endpoint, request: Request, response: Response): (Store, Result<Response, StoreError>) {
    var at := (scope, request.key);
    var encoded := NormalResponse(response);
    if at !in s.rows then (s, Err(Unavailable))
    else if s.rows[at].request != request then (s, Err(Conflict))
    else if s.rows[at].Complete? then
      if s.rows[at].response != encoded then (s, Err(Conflict)) else (s, Ok(encoded))
    else (s.(rows := s.rows[at := Complete(request, encoded)]), Ok(encoded))
  }

  function ClaimStep(s: Store, kind: Kind, key: string, claimId: ClaimId): (Store, Result<Claim, StoreError>) {
    var at := (kind, key);
    if at in s.claims then
      if s.claims[at].claimId != claimId then (s, Err(Conflict)) else (s, Ok(Claim(s.claims[at], false)))
    else if exists c :: c in s.claims && s.claims[c].claimId == claimId then (s, Err(Unavailable))
    else
      var row := ClaimRow(claimId, Claimed, Null);
      (s.(claims := s.claims[at := row]), Ok(Claim(row, true)))
  }

  function SettleStep(s: Store, kind: Kind, key: string, claimId: ClaimId, status: ClaimStatus, outcome: Json): (Store, Result<ClaimRow, StoreError>) {
    var at := (kind, key);
    var row := ClaimRow(claimId, status, Normal(outcome));
    if status.Claimed? then (s, Err(Unavailable))
    else if at !in s.claims || s.claims[at].claimId != claimId then (s, Err(Conflict))
    else if !s.claims[at].status.Claimed? then
      if s.claims[at] != row then (s, Err(Conflict)) else (s, Ok(row))
    else (s.(claims := s.claims[at := row]), Ok(row))
  }

  /** Compare-and-swap on the revision; no expected revision means create. */
  function SaveStep(s: Store, payload: Payload, expected: Option<int>): (Store, Result<int, StoreError>) {
    if expected.Some? && expected.value < 1 then (s, Err(Unavailable))
    else if expected.None? then
      if s.state.Some? then (s, Err(Conflict)) else (s.(state := Some(StateRow(1, payload))), Ok(1))
    else if s.state.None? || s.state.value.revision != expected.value then (s, Err(Conflict))
    else (s.(state := Some(StateRow(expected.value + 1, payload))), Ok(expected.value + 1))
  }

  /** The execution of this decision was claimed and its outcome is known or given up. */
  predicate IsSettled(s: Store, key: string) {
    (DecisionRun, key) in s.claims && !s.claims[(DecisionRun, key)].status.Claimed?
  }

  /** Where the database lets a transaction down, if it does. */
  datatype Fault = NoFault | AtBegin | AtCommit

  /** `_transaction`: an operation that fails, or that the database does not
      begin or commit, leaves the store as it was. */
  function Transact<R>(s: Store, fault: Fault, outcome: (Store, Result<R, StoreError>)): (Store, Result<R, StoreError>) {
    if fault.AtBegin? then (s, Err(Unavailable))
    else if outcome.1.Err? then (s, outcome.1)
    else if fault.AtCommit? then (s, Err(Unavailable))
    else outcome
  }

  // --------------------------------------------------------------- laws

  function Revision(s: Store): int {
    if s.state.Some? then s.state.value.revision else 0
  }

  predicate RowsSucceed(s: Store, t: Store) {
    forall at :: at in s.rows ==>
      && at in t.rows && t.rows[at].request == s.rows[at].request
      && (s.rows[at].Complete? ==> t.rows[at] == s.rows[at])
  }

  predicate ClaimsSucceed(s: Store, t: Store) {
    forall at :: at in s.claims ==>
      && at in t.claims && t.claims[at].claimId == s.claims[at].claimId
      && (!s.claims[at].status.Claimed? ==> t.claims[at] == s.claims[at])
  }

  /** Tables only grow, a complete row never changes, a claim keeps its id and a
      settled claim never changes, and state revisions count up by one. */
  predicate Succeeds(s: Store, t: Store) {
    && RowsSucceed(s, t) && ClaimsSucceed(s, t)
    && (t.state == s.state || (t.state.Some? && t.state.value.revision == Revision(s) + 1))
  }

  lemma RowOperationsSucceed(s: Store, request: Request, scope: Endpoint, response: Response, fault: Fault)
    ensures Succeeds(s, Transact(s, fault, BeginStep(s, request)).0)
    ensures Succeeds(s, Transact(s, fault, CompleteStep(s, scope, request, response)).0)
  {}

  lemma ClaimOperationsSucceed(s: Store, kind: Kind, key: string, claimId: ClaimId, status: ClaimStatus, outcome: Json, fault: Fault)
    ensures Succeeds(s, Transact(s, fault, ClaimStep(s, kind, key, claimId)).0)
    ensures Succeeds(s, Transact(s, fault, SettleStep(s, kind, key, claimId, status, outcome)).0)
  {}

  lemma SavesSucceed(s: Store, payload: Payload, expected: Option<int>, fault: Fault)
    ensures Succeeds(s, Transact(s, fault, SaveStep(s, payload, expected)).0)
  {}

  /** Completing twice is idempotent up to JSON encoding, and a different answer is refused. */
  lemma CompletionIsFinal(s: Store, scope: Endpoint, request: Request, first: Response, second: Response)
    requires CompleteStep(s, scope, request, first).1.Ok?
    ensures var t := CompleteStep(s, scope, request, first).0;
            && (CompleteStep(t, scope, request, second).1.Ok? <==> NormalResponse(second) == NormalResponse(first))
            && CompleteStep(t, scope, request, second).0 == t
            && CompleteStep(t, scope, request, NormalResponse(first)).1 == Ok(NormalResponse(first))
  {
    NormalIsIdempotent(first.value);
  }

  /** Of all the workers that claim one execution, however they are ordered
      and whatever their claim ids, only the first acquires it. */
  lemma OnlyOneAcquires(s: Store, t: Store, kind: Kind, key: string, first: ClaimId, second: ClaimId)
    requires ClaimStep(s, kind, key, first).1.Ok? && ClaimStep(s, kind, key, first).1.value.acquired
    requires Succeeds(ClaimStep(s, kind, key, first).0, t)
    ensures ClaimStep(t, kind, key, second).1.Ok? ==> !ClaimStep(t, kind, key, second).1.value.acquired
  {}
}
