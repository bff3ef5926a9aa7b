/** Delegated authority as values: grants, chains, proofs and their laws
    (governance/delegation.py). */
module Delegation {
  import opened Text
  import opened Walks
  import opened Capabilities

  datatype Grant = Grant(
    id: string, fromActor: string, toActor: string, capability: string, depth: int,
    expiresAt: Option<real>, parent: Option<string>, rule: Option<string>,
    identity: Option<string>)

  datatype Graph = Graph(
    intrinsic: map<string, set<string>>, grants: map<string, Grant>, revoked: set<string>,
    nextId: int)

  /** A clock reading; `BeforeAll` is the `-inf` of the snapshot loader. */
  datatype Instant = BeforeAll | At(time: real)

  predicate NotAfter(a: Instant, b: Instant) {
    a.BeforeAll? || (b.At? && a.time <= b.time)
  }

  predicate Expired(grant: Grant, now: Instant) {
    grant.expiresAt.Some? && now.At? && now.time >= grant.expiresAt.value
  }

  /** Who asks: a bare id, or an actor record with its own capabilities. */
  datatype Subject = ById(id: string) | ByRecord(id: string, capabilities: set<string>)

  predicate IntrinsicHas(g: Graph, actor: string, capability: string) {
    actor in g.intrinsic && exists held :: held in g.intrinsic[actor] && Descends(capability, held)
  }

  // ------------------------------------------------------ validity, as coded

  /** A non-root grant against its parent. */
  predicate Narrows(parent: Grant, child: Grant) {
    && parent.toActor == child.fromActor
    && Descends(child.capability, parent.capability)
    && child.depth <= parent.depth - 1
  }

  /** `_valid_grant`, with the `seen` guard it threads through the chain. */
  predicate ValidGrant(g: Graph, id: string, now: Instant, seen: set<string>)
    requires id in g.grants
    decreases |g.grants.Keys - seen|
  {
    var grant := g.grants[id];
    if id in seen || id in g.revoked || Expired(grant, now) then false
    else
      match grant.parent
      case None => IntrinsicHas(g, grant.fromActor, grant.capability)
      case Some(p) =>
        assert g.grants.Keys - (seen + {id}) < g.grants.Keys - seen by {
          assert id in g.grants.Keys - seen;
        }
        SubsetSize(g.grants.Keys - (seen + {id}), g.grants.Keys - seen);
        p in g.grants && Narrows(g.grants[p], grant) && ValidGrant(g, p, now, seen + {id})
  }

  predicate Active(g: Graph, id: string, now: Instant) {
    id in g.grants && ValidGrant(g, id, now, {})
  }

  // ------------------------------------------------------ chains, declaratively

  predicate Unspent(g: Graph, id: string, now: Instant) {
    id in g.grants && id !in g.revoked && !Expired(g.grants[id], now)
  }

  predicate RootGrant(g: Graph, id: string)
    requires id in g.grants
  {
    var grant := g.grants[id];
    grant.parent.None? && IntrinsicHas(g, grant.fromActor, grant.capability)
  }

  predicate Linked(g: Graph, parent: string, child: string)
    requires parent in g.grants && child in g.grants
  {
    g.grants[child].parent == Some(parent) && Narrows(g.grants[parent], g.grants[child])
  }

  /** A root-to-leaf chain of unrevoked, unexpired grants that starts at an
      intrinsic holder, matches endpoints, narrows scope and loses depth. */
  ghost predicate Chain(g: Graph, path: seq<string>, now: Instant) {
    && path != []
    && (forall i :: 0 <= i < |path| ==> Unspent(g, path[i], now))
    && RootGrant(g, path[0])
    && (forall i :: 0 < i < |path| ==> Linked(g, path[i - 1], path[i]))
  }

  function Last(path: seq<string>): string
    requires path != []
  {
    path[|path| - 1]
  }

  /** A chain that hands `capability` to `actor`. */
  ghost predicate AuthorityChain(g: Graph, path: seq<string>, actor: string, capability: string, now: Instant) {
    && Chain(g, path, now)
    && g.grants[Last(path)].toActor == actor
    && Descends(capability, g.grants[Last(path)].capability)
  }

  /** Depth is attenuated at every link, so no grant repeats on a chain and a
      chain is at most one longer than the depth of its root. */
  lemma {:induction false} ChainAttenuates(g: Graph, path: seq<string>, now: Instant, i: nat, j: nat)
    requires Chain(g, path, now) && i <= j < |path|
    ensures g.grants[path[j]].depth <= g.grants[path[i]].depth - (j - i)
    decreases j
  {
    if i < j {
      ChainAttenuates(g, path, now, i, j - 1);
      assert Linked(g, path[j - 1], path[j]);
    }
  }

  lemma ChainLength(g: Graph, path: seq<string>, now: Instant)
    requires Chain(g, path, now) && g.grants[Last(path)].depth >= 0
    ensures |path| <= g.grants[path[0]].depth + 1
  {
    ChainAttenuates(g, path, now, 0, |path| - 1);
  }

  /** Scope narrows along a chain, so its leaf is covered by its root. */
  lemma {:induction false} ChainNarrows(g: Graph, path: seq<string>, now: Instant, j: nat)
    requires Chain(g, path, now) && j < |path|
    ensures Descends(g.grants[path[j]].capability, g.grants[path[0]].capability)
  {
    if j > 0 {
      ChainNarrows(g, path, now, j - 1);
      assert Linked(g, path[j - 1], path[j]);
      DescentIsPartialOrder(
        g.grants[path[j]].capability, g.grants[path[j - 1]].capability, g.grants[path[0]].capability);
    } else {
      DescentIsPartialOrder(g.grants[path[0]].capability, "", "");
    }
  }

  lemma ChainPrefix(g: Graph, path: seq<string>, now: Instant)
    requires Chain(g, path, now) && |path| > 1
    ensures Chain(g, path[..|path| - 1], now)
  {
    var front := path[..|path| - 1];
    forall i | 0 < i < |front| ensures Linked(g, front[i - 1], front[i]) {
      assert Linked(g, path[i - 1], path[i]);
    }
  }

  lemma ChainExtend(g: Graph, path: seq<string>, id: string, now: Instant)
    requires Chain(g, path, now) && Unspent(g, id, now) && Linked(g, Last(path), id)
    ensures Chain(g, path + [id], now)
  {
    var longer := path + [id];
    forall i | 0 < i < |longer| ensures Linked(g, longer[i - 1], longer[i]) {
      if i < |path| { assert Linked(g, path[i - 1], path[i]); }
    }
  }

  /** A leaf determines its chain. */
  lemma {:induction false} ChainIsDetermined(g: Graph, p: seq<string>, q: seq<string>, now: Instant)
    requires Chain(g, p, now) && Chain(g, q, now) && Last(p) == Last(q)
    ensures p == q
    decreases |p|
  {
    if |p| > 1 { assert Linked(g, p[|p| - 2], p[|p| - 1]); }
    if |q| > 1 { assert Linked(g, q[|q| - 2], q[|q| - 1]); }
    if |p| > 1 && |q| > 1 {
      ChainPrefix(g, p, now);
      ChainPrefix(g, q, now);
      ChainIsDetermined(g, p[..|p| - 1], q[..|q| - 1], now);
      assert p == p[..|p| - 1] + [Last(p)] && q == q[..|q| - 1] + [Last(q)];
    } else {
      assert |p| == 1 && |q| == 1 && p == [Last(p)] && q == [Last(q)];
    }
  }

  lemma {:induction false} ValidHasChain(g: Graph, id: string, now: Instant, seen: set<string>)
    returns (path: seq<string>)
    requires id in g.grants && ValidGrant(g, id, now, seen)
    ensures Chain(g, path, now) && Last(path) == id
    decreases |g.grants.Keys - seen|
  {
    match g.grants[id].parent
    case None =>
      path := [id];
    case Some(p) =>
      SubsetSize(g.grants.Keys - (seen + {id}), g.grants.Keys - seen) by {
        assert id in g.grants.Keys - seen;
      }
      var front := ValidHasChain(g, p, now, seen + {id});
      ChainExtend(g, front, id, now);
      path := front + [id];
  }

  lemma {:induction false} ChainIsValid(g: Graph, path: seq<string>, now: Instant, seen: set<string>)
    requires Chain(g, path, now) && forall x :: x in path ==> x !in seen
    ensures ValidGrant(g, Last(path), now, seen)
    decreases |path|
  {
    if |path| > 1 {
      var front := path[..|path| - 1];
      ChainPrefix(g, path, now);
      assert Linked(g, Last(front), Last(path));
      forall x | x in front ensures x !in seen + {Last(path)} {
        var i :| 0 <= i < |front| && front[i] == x;
        ChainAttenuates(g, path, now, i, |path| - 1);
        assert path[i] == x;
      }
      ChainIsValid(g, front, now, seen + {Last(path)});
    }
  }

  /** The recursive check accepts a grant exactly when a chain ends in it. */
  lemma ActiveIffChain(g: Graph, id: string, now: Instant)
    ensures Active(g, id, now) <==> exists path :: Chain(g, path, now) && Last(path) == id
  {
    if Active(g, id, now) {
      var path := ValidHasChain(g, id, now, {});
    }
    if path :| Chain(g, path, now) && Last(path) == id {
      ChainIsValid(g, path, now, {});
    }
  }

  // --------------------------------------------------------------- proofs

  datatype Source = Intrinsic | Delegated | NoSource

  datatype AuthorityProof = AuthorityProof(
    allowed: bool, source: Source, path: seq<string>, identity: Option<string>)

  predicate HoldsIntrinsically(g: Graph, who: Subject, capability: string) {
    || (who.ByRecord? && exists held :: held in who.capabilities && Descends(capability, held))
    || IntrinsicHas(g, who.id, capability)
  }

  predicate Shorter(a: seq<string>, b: seq<string>) {
    |a| < |b| || (|a| == |b| && PathBefore(a, b))
  }

  /** The proof that an authority check must return. */
  ghost predicate IsProof(
    g: Graph, who: Subject, capability: string, now: Instant, identity: Option<string>, proof: AuthorityProof)
  {
    && proof.identity == identity
    && (proof.allowed <==> proof.source != NoSource)
    && (proof.source.Intrinsic? <==> HoldsIntrinsically(g, who, capability))
    && (proof.source.Intrinsic? ==> proof.path == ["actor:" + who.id])
    && (proof.source.Delegated? ==>
          && AuthorityChain(g, proof.path, who.id, capability, now)
          && forall q :: AuthorityChain(g, q, who.id, capability, now) && q != proof.path ==> Shorter(proof.path, q))
    && (proof.source.NoSource? ==>
          proof.path == [] && forall q :: !AuthorityChain(g, q, who.id, capability, now))
  }

  ghost predicate Authorized(g: Graph, who: Subject, capability: string, now: Instant) {
    HoldsIntrinsically(g, who, capability) || exists q :: AuthorityChain(g, q, who.id, capability, now)
  }

  /** Proofs are sound, complete and unique. */
  lemma ProofIsExact(g: Graph, who: Subject, capability: string, now: Instant, identity: Option<string>,
                     p: AuthorityProof, q: AuthorityProof)
    requires IsProof(g, who, capability, now, identity, p) && IsProof(g, who, capability, now, identity, q)
    ensures p.allowed <==> Authorized(g, who, capability, now)
    ensures p == q
  {
    if p.source.Delegated? && q.source.Delegated? && p.path != q.path {
      PathBeforeIsStrict(p.path, q.path);
    }
  }

  // ---------------------------------------------------------- transitions

  function LiveEdges(g: Graph, now: Instant): Edges {
    set id | id in g.grants && Active(g, id, now) :: (g.grants[id].fromActor, g.grants[id].toActor)
  }

  function GrantId(n: nat): string { "G-" + Pad4(n) }

  datatype GrantRequest = GrantRequest(
    grantor: Subject, grantee: string, capability: string, scope: Option<string>, depth: int,
    expiresAt: Option<real>, now: real, rule: Option<string>, identity: Option<string>)

  datatype DelegationError =
    | NegativeDepth | EmptyScope | WidensScope | CycleRejected | NoAuthority | DepthExceeded
    | ExpiryNotInFuture | UnknownGrant

  function ScopeOf(r: GrantRequest): string {
    if r.scope.Some? then r.scope.value else r.capability
  }

  /** `_intrinsic.setdefault(actor, set()).update(capabilities)`. */
  function AddIntrinsic(g: Graph, actor: string, capabilities: set<string>): Graph {
    var held := if actor in g.intrinsic then g.intrinsic[actor] else {};
    g.(intrinsic := g.intrinsic[actor := held + capabilities])
  }

  /** The candidates of `_source_grant`. */
  function SourceCandidates(g: Graph, grantor: string, capability: string, now: Instant): set<string> {
    set id | id in g.grants && g.grants[id].toActor == grantor && g.grants[id].depth > 0
             && Descends(capability, g.grants[id].capability) && Active(g, id, now)
  }

  /** A grantor record registers its capabilities before the grant is decided. */
  function WithGrantor(g: Graph, who: Subject): Graph {
    if who.ByRecord? then AddIntrinsic(g, who.id, who.capabilities) else g
  }

  lemma CandidatesAreGrants(g: Graph, grantor: string, capability: string, now: Instant)
    ensures SourceCandidates(g, grantor, capability, now) <= g.grants.Keys
  {}

  function Issued(g: Graph, r: GrantRequest, parent: Option<string>): Grant
    requires g.nextId > 0
  {
    Grant(GrantId(g.nextId), r.grantor.id, r.grantee, ScopeOf(r), r.depth, r.expiresAt, parent, r.rule, r.identity)
  }

  function Issue(g: Graph, r: GrantRequest, parent: Option<string>): (Graph, Result<Grant, DelegationError>)
    requires g.nextId > 0
  {
    if r.expiresAt.Some? && r.expiresAt.value <= r.now then (g, Err(ExpiryNotInFuture))
    else
      var grant := Issued(g, r, parent);
      (g.(grants := g.grants[grant.id := grant], nextId := g.nextId + 1), Ok(grant))
  }

  /** `grant`: the new graph and the grant or the refusal. A grantor record
      registers its capabilities even when the grant is then refused. */
  ghost function GrantStep(g: Graph, r: GrantRequest): (Graph, Result<Grant, DelegationError>)
    requires g.nextId > 0
  {
    var scope := ScopeOf(r);
    if r.depth < 0 then (g, Err(NegativeDepth))
    else if scope == "" then (g, Err(EmptyScope))
    else if !Descends(scope, r.capability) then (g, Err(WidensScope))
    else
      var h := WithGrantor(g, r.grantor);
      if Reaches(LiveEdges(h, At(r.now)), r.grantee, r.grantor.id) then (h, Err(CycleRejected))
      else if IntrinsicHas(h, r.grantor.id, scope) then Issue(h, r, None)
      else
        var candidates := SourceCandidates(h, r.grantor.id, scope, At(r.now));
        if candidates == {} then (h, Err(NoAuthority))
        else if r.depth > h.grants[Least(candidates)].depth - 1 then (h, Err(DepthExceeded))
        else Issue(h, r, Some(Least(candidates)))
  }

  datatype Op = Register(actor: string, capability: string) | Give(request: GrantRequest) | Revoke(id: string)

  ghost function Apply(g: Graph, op: Op): Graph
    requires g.nextId > 0
  {
    match op
    case Register(actor, capability) => AddIntrinsic(g, actor, {capability})
    case Give(request) => GrantStep(g, request).0
    case Revoke(id) => if id in g.grants then g.(revoked := g.revoked + {id}) else g
  }

  // ----------------------------------------------------------- invariant

  /** The number in an id this graph could have generated. */
  function GeneratedNumber(id: string): Option<nat> {
    if "G-" <= id && IsDigits(id[2..]) then Some(ValueOf(id[2..])) else None
  }

  predicate Grounded(g: Graph, id: string)
    requires id in g.grants
  {
    match g.grants[id].parent
    case None => RootGrant(g, id)
    case Some(p) => p in g.grants && Linked(g, p, id)
  }

  /** What every operation and every accepted snapshot keeps: ids are keys and
      never reused, revocations name grants, and every grant is grounded (GA3)
      by its parent or by an intrinsic holder. */
  predicate Valid(g: Graph) {
    && g.nextId > 0
    && g.revoked <= g.grants.Keys
    && (forall id :: id in g.grants ==>
          && g.grants[id].id == id
          && g.grants[id].depth >= 0
          && (GeneratedNumber(id).Some? ==> GeneratedNumber(id).value < g.nextId))
    && (forall id {:trigger Grounded(g, id)} :: id in g.grants ==> Grounded(g, id))
  }

  lemma FreshId(g: Graph)
    requires Valid(g)
    ensures GrantId(g.nextId) !in g.grants
    ensures GeneratedNumber(GrantId(g.nextId)) == Some(g.nextId)
  {
    PaddedRoundTrip(g.nextId);
    assert GrantId(g.nextId)[2..] == Pad4(g.nextId);
  }

  lemma IssueKeepsValid(g: Graph, r: GrantRequest, parent: Option<string>)
    requires Valid(g) && r.depth >= 0
    requires parent.None? ==> IntrinsicHas(g, r.grantor.id, ScopeOf(r))
    requires parent.Some? ==> parent.value in g.grants && Narrows(g.grants[parent.value], Issued(g, r, parent))
    ensures Valid(Issue(g, r, parent).0)
  {
    FreshId(g);
    hide GrantId, GeneratedNumber, Descends, IntrinsicHas, ScopeOf, Grounded, Narrows, Valid;
    var grant := Issued(g, r, parent);
    NewIsGrounded(g, grant);
    ValidGrows(g, grant);
  }

  lemma GroundedStays(g: Graph, grant: Grant, id: string)
    requires id in g.grants && Grounded(g, id) && grant.id !in g.grants
    ensures Grounded(g.(grants := g.grants[grant.id := grant], nextId := g.nextId + 1), id)
  {
    hide Descends;
  }

  lemma ValidGrows(g: Graph, grant: Grant)
    requires Valid(g) && grant.id !in g.grants && grant.depth >= 0 && GeneratedNumber(grant.id) == Some(g.nextId)
    requires Grounded(g.(grants := g.grants[grant.id := grant], nextId := g.nextId + 1), grant.id)
    ensures Valid(g.(grants := g.grants[grant.id := grant], nextId := g.nextId + 1))
  {
    hide GeneratedNumber, Grounded;
    var next := g.(grants := g.grants[grant.id := grant], nextId := g.nextId + 1);
    forall id | id in next.grants ensures Grounded(next, id) {
      if id != grant.id {
        assert Grounded(g, id);
        GroundedStays(g, grant, id);
      }
    }
  }

  lemma NewIsGrounded(g: Graph, grant: Grant)
    requires grant.id !in g.grants && g.nextId > 0
    requires grant.parent.None? ==> IntrinsicHas(g, grant.fromActor, grant.capability)
    requires grant.parent.Some? ==> grant.parent.value in g.grants && Narrows(g.grants[grant.parent.value], grant)
    ensures Grounded(g.(grants := g.grants[grant.id := grant], nextId := g.nextId + 1), grant.id)
  {}

  /** What a grant call comes to: a refusal, or one new grant whose parent, if
      any, is an active grant to the grantor that still has depth to give. */
  lemma GrantOutcome(g: Graph, r: GrantRequest) returns (parent: Option<string>)
    requires Valid(g)
    ensures GrantStep(g, r).1.Err? ==> GrantStep(g, r).0 in {g, WithGrantor(g, r.grantor)}
    ensures GrantStep(g, r).1.Ok? ==>
              var h := WithGrantor(g, r.grantor);
              && GrantStep(g, r) == Issue(h, r, parent)
              && r.depth >= 0
              && !Reaches(LiveEdges(h, At(r.now)), r.grantee, r.grantor.id)
              && (parent.None? ==> IntrinsicHas(h, r.grantor.id, ScopeOf(r)))
              && (parent.Some? ==> Active(h, parent.value, At(r.now)) && Narrows(h.grants[parent.value], Issued(h, r, parent)))
  {
    var h := WithGrantor(g, r.grantor);
    var candidates := SourceCandidates(h, r.grantor.id, ScopeOf(r), At(r.now));
    if IntrinsicHas(h, r.grantor.id, ScopeOf(r)) || candidates == {} {
      parent := None;
    } else {
      parent := Some(Least(candidates));
      assert Least(candidates) in candidates;
    }
  }

  lemma ApplyKeepsValid(g: Graph, op: Op)
    requires Valid(g)
    ensures Valid(Apply(g, op))
  {
    match op
    case Register(actor, capability) =>
      GrowingIntrinsicKeepsValid(g, actor, {capability});
    case Give(r) =>
      if r.grantor.ByRecord? { GrowingIntrinsicKeepsValid(g, r.grantor.id, r.grantor.capabilities); }
      var parent := GrantOutcome(g, r);
      if GrantStep(g, r).1.Ok? { IssueKeepsValid(WithGrantor(g, r.grantor), r, parent); }
    case Revoke(id) =>
      if id in g.grants {
        var next := Apply(g, op);
        forall k | k in next.grants ensures Grounded(next, k) { assert Grounded(g, k); }
      }
  }

  lemma GrowingIntrinsicKeepsValid(g: Graph, actor: string, capabilities: set<string>)
    requires Valid(g)
    ensures Valid(AddIntrinsic(g, actor, capabilities))
  {
    var next := AddIntrinsic(g, actor, capabilities);
    forall id | id in next.grants ensures Grounded(next, id) { assert Grounded(g, id); }
  }

  // ---------------------------------------------------------------- runs

  function Empty(intrinsic: map<string, set<string>>): Graph { Graph(intrinsic, map[], {}, 1) }

  ghost function Run(g: Graph, ops: seq<Op>): (h: Graph)
    requires Valid(g)
    ensures Valid(h)
  {
    if ops == [] then g
    else
      var before := Run(g, ops[..|ops| - 1]);
      ApplyKeepsValid(before, ops[|ops| - 1]);
      Apply(before, ops[|ops| - 1])
  }

  /** Later states of a graph: grants are kept, authority roots and revocations grow. */
  predicate Later(g: Graph, h: Graph) {
    && h.revoked >= g.revoked
    && (forall id :: id in g.grants ==> id in h.grants && h.grants[id] == g.grants[id])
    && (forall actor :: actor in g.intrinsic ==> actor in h.intrinsic && h.intrinsic[actor] >= g.intrinsic[actor])
  }

  lemma IssueIsLater(g: Graph, r: GrantRequest, parent: Option<string>)
    requires Valid(g)
    ensures Later(g, Issue(g, r, parent).0)
  {
    FreshId(g);
  }

  lemma ApplyIsLater(g: Graph, op: Op)
    requires Valid(g)
    ensures Later(g, Apply(g, op))
  {
    match op
    case Register(actor, capability) =>
    case Give(r) =>
      if r.grantor.ByRecord? { GrowingIntrinsicKeepsValid(g, r.grantor.id, r.grantor.capabilities); }
      var parent := GrantOutcome(g, r);
      IssueIsLater(WithGrantor(g, r.grantor), r, parent);
    case Revoke(id) =>
  }

  lemma {:induction false} RunIsLater(g: Graph, ops: seq<Op>, k: nat)
    requires Valid(g) && k <= |ops|
    ensures Later(Run(g, ops[..k]), Run(g, ops))
    decreases |ops|
  {
    if k < |ops| {
      var front := ops[..|ops| - 1];
      assert front[..k] == ops[..k];
      RunIsLater(g, front, k);
      ApplyIsLater(Run(g, front), ops[|ops| - 1]);
    } else {
      assert ops[..k] == ops;
    }
  }

  // --------------------------------------------- antitone validity, acyclicity

  /** Validity is antitone: a grant of `g` that is active later, after more
      revocations and more time, was active before. */
  lemma ActivityIsAntitone(g: Graph, h: Graph, id: string, now: Instant, later: Instant)
    requires Valid(g) && Later(g, h) && NotAfter(now, later)
    requires id in g.grants && Active(h, id, later)
    ensures Active(g, id, now)
  {
    var path := ValidHasChain(h, id, later, {});
    ChainWasKnown(g, h, path, later);
    assert Chain(g, path, now) by {
      assert Grounded(g, path[0]) && RootGrant(h, path[0]);
      forall i | 0 <= i < |path| ensures Unspent(g, path[i], now) { assert Unspent(h, path[i], later); }
      forall i | 0 < i < |path| ensures Linked(g, path[i - 1], path[i]) { assert Linked(h, path[i - 1], path[i]); }
    }
    ActiveIffChain(g, id, now);
  }

  /** A chain that ends in a grant of `g` lies in `g`: parents are kept. */
  lemma {:induction false} ChainWasKnown(g: Graph, h: Graph, path: seq<string>, later: Instant)
    requires Valid(g) && Later(g, h) && Chain(h, path, later) && Last(path) in g.grants
    ensures forall i :: 0 <= i < |path| ==> path[i] in g.grants
    decreases |path|
  {
    if |path| > 1 {
      assert Linked(h, path[|path| - 2], path[|path| - 1]) && Grounded(g, Last(path));
      ChainPrefix(h, path, later);
      ChainWasKnown(g, h, path[..|path| - 1], later);
      forall i | 0 <= i < |path| ensures path[i] in g.grants {
        if i < |path| - 1 { assert path[i] == path[..|path| - 1][i]; }
      }
    }
  }

  /** One step: the live actor graph stays acyclic from then on. */
  lemma StepStaysAcyclic(g: Graph, op: Op, before: Instant, now: Instant)
    requires Valid(g) && Acyclic(LiveEdges(g, before)) && NotAfter(before, now)
    requires op.Give? ==> before == At(op.request.now)
    ensures Acyclic(LiveEdges(Apply(g, op), now))
  {
    ApplyIsLater(g, op);
    if op.Give? && GrantStep(g, op.request).1.Ok? {
      var r := op.request;
      var parent := GrantOutcome(g, r);
      OnlyTheNewEdge(g, op, before, now, {(r.grantor.id, r.grantee)});
      LiveEdgesGrow(g, WithGrantor(g, r.grantor), before);
      if Reaches(LiveEdges(g, before), r.grantee, r.grantor.id) {
        var p :| WalkBetween(LiveEdges(g, before), p, r.grantee, r.grantor.id);
        assert WalkBetween(LiveEdges(WithGrantor(g, r.grantor), before), p, r.grantee, r.grantor.id);
      }
      NewEdgeKeepsAcyclic(LiveEdges(g, before), r.grantor.id, r.grantee);
      SubsetIsAcyclic(LiveEdges(Apply(g, op), now), LiveEdges(g, before) + {(r.grantor.id, r.grantee)});
    } else {
      if op.Give? { var parent := GrantOutcome(g, op.request); }
      OnlyTheNewEdge(g, op, before, now, {});
      SubsetIsAcyclic(LiveEdges(Apply(g, op), now), LiveEdges(g, before));
    }
  }

  /** After a step, what is live was live before or is the edge just granted. */
  lemma OnlyTheNewEdge(g: Graph, op: Op, before: Instant, now: Instant, granted: Edges)
    requires Valid(g) && NotAfter(before, now) && Later(g, Apply(g, op))
    requires forall id :: id in Apply(g, op).grants && id !in g.grants ==>
               (Apply(g, op).grants[id].fromActor, Apply(g, op).grants[id].toActor) in granted
    ensures LiveEdges(Apply(g, op), now) <= LiveEdges(g, before) + granted
  {
    var h := Apply(g, op);
    forall id | id in h.grants && Active(h, id, now)
      ensures (h.grants[id].fromActor, h.grants[id].toActor) in LiveEdges(g, before) + granted
    {
      if id in g.grants { ActivityIsAntitone(g, h, id, before, now); }
    }
  }

  /** More intrinsic authority, same grants: nothing live is lost. */
  lemma LiveEdgesGrow(g: Graph, h: Graph, now: Instant)
    requires Later(g, h) && h.grants == g.grants && h.revoked == g.revoked
    ensures LiveEdges(g, now) <= LiveEdges(h, now)
  {
    forall id | id in g.grants && Active(g, id, now) ensures Active(h, id, now) {
      var path := ValidHasChain(g, id, now, {});
      assert Chain(h, path, now) by {
        assert RootGrant(g, path[0]);
        forall i | 0 <= i < |path| ensures Unspent(h, path[i], now) { assert Unspent(g, path[i], now); }
        forall i | 0 < i < |path| ensures Linked(h, path[i - 1], path[i]) { assert Linked(g, path[i - 1], path[i]); }
      }
      ActiveIffChain(h, id, now);
    }
  }

  predicate TimesNonDecreasing(ops: seq<Op>) {
    forall i, j :: 0 <= i < j < |ops| && ops[i].Give? && ops[j].Give? ==> ops[i].request.now <= ops[j].request.now
  }

  predicate NoGrantAfter(ops: seq<Op>, now: Instant) {
    forall i :: 0 <= i < |ops| && ops[i].Give? ==> NotAfter(At(ops[i].request.now), now)
  }

  /** From any intrinsic assignment and under a clock that does not go back, the
      actor graph of live grants is acyclic at every time from the last grant on. */
  lemma {:induction false} DelegationStaysAcyclic(intrinsic: map<string, set<string>>, ops: seq<Op>, now: Instant)
    requires TimesNonDecreasing(ops) && NoGrantAfter(ops, now)
    ensures Acyclic(LiveEdges(Run(Empty(intrinsic), ops), now))
    decreases |ops|
  {
    if ops != [] {
      var front, op := ops[..|ops| - 1], ops[|ops| - 1];
      var before := if op.Give? then At(op.request.now) else now;
      DelegationStaysAcyclic(intrinsic, front, before);
      StepStaysAcyclic(Run(Empty(intrinsic), front), op, before, now);
    } else {
      assert LiveEdges(Empty(intrinsic), now) == {};
      NoEdgesIsAcyclic(LiveEdges(Empty(intrinsic), now));
    }
  }

  // ------------------------------------- revocation dominance, conservation

  /** GA4, T2: once a grant is revoked, no proof at any later state and time,
      for anyone and anything, has it on its path. */
  lemma RevocationDominates(g: Graph, ops: seq<Op>, k: nat, who: Subject, capability: string, now: Instant,
                            identity: Option<string>, proof: AuthorityProof)
    requires Valid(g) && k < |ops| && ops[k].Revoke? && ops[k].id in Run(g, ops[..k]).grants
    requires IsProof(Run(g, ops), who, capability, now, identity, proof)
    ensures proof.source.Delegated? ==> ops[k].id !in proof.path
  {
    var id := ops[k].id;
    RunIsLater(g, ops, k + 1);
    assert ops[..k + 1][..k] == ops[..k];
    assert id in Run(g, ops[..k + 1]).revoked;
    if proof.source.Delegated? {
      forall i | 0 <= i < |proof.path| ensures proof.path[i] != id {
        assert Unspent(Run(g, ops), proof.path[i], now);
      }
    }
  }

  predicate ByIdOnly(ops: seq<Op>) {
    forall i :: 0 <= i < |ops| ==> ops[i].Revoke? || (ops[i].Give? && ops[i].request.grantor.ById?)
  }

  lemma {:induction false} IdGrantsKeepRoots(g: Graph, ops: seq<Op>)
    requires Valid(g) && ByIdOnly(ops)
    ensures Run(g, ops).intrinsic == g.intrinsic
    decreases |ops|
  {
    if ops != [] {
      hide LiveEdges, Reaches, SourceCandidates;
      IdGrantsKeepRoots(g, ops[..|ops| - 1]);
    }
  }

  /** GA1, T1: grants by id, revocations and expiry create no authority. Whatever
      anyone may do afterwards was already covered by an intrinsic holder. */
  lemma AuthorityIsConserved(g: Graph, ops: seq<Op>, actor: string, capability: string, now: Instant)
    requires Valid(g) && ByIdOnly(ops)
    requires Authorized(Run(g, ops), ById(actor), capability, now)
    ensures exists holder :: IntrinsicHas(g, holder, capability)
  {
    IdGrantsKeepRoots(g, ops);
    var h := Run(g, ops);
    if q :| AuthorityChain(h, q, actor, capability, now) {
      ChainNarrows(h, q, now, |q| - 1);
      var root := h.grants[q[0]];
      var held :| held in h.intrinsic[root.fromActor] && Descends(root.capability, held);
      DescentIsPartialOrder(capability, h.grants[Last(q)].capability, root.capability);
      DescentIsPartialOrder(capability, root.capability, held);
      assert IntrinsicHas(g, root.fromActor, capability);
    } else {
      assert IntrinsicHas(g, actor, capability);
    }
  }
}
