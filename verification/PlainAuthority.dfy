/** Authority and delegation in plain terms: what a proof and a grant come to, said of
    the grants' own fields and of the segments of names (governance/delegation.py). */
module PlainAuthority {
  import opened Text
  import opened Walks
  import opened Capabilities
  import opened Delegation

  /** A holder of `held` may do what is named within it. */
  predicate Covers(held: string, wanted: string) { Segments(held) <= Segments(wanted) }

  predicate Holds(g: Graph, actor: string, wanted: string) {
    actor in g.intrinsic && exists held :: held in g.intrinsic[actor] && Covers(held, wanted)
  }

  /** Known, unrevoked, and before its expiry. */
  predicate InForce(g: Graph, id: string, t: real) {
    id in g.grants && id !in g.revoked && (g.grants[id].expiresAt.Some? ==> t < g.grants[id].expiresAt.value)
  }

  /** The grant hands on a part of what the one before it handed to its grantor. */
  predicate HandsOn(before: Grant, next: Grant) {
    next.parent == Some(before.id) && next.fromActor == before.toActor && Covers(before.capability, next.capability) && next.depth < before.depth
  }

  /** Grants in force that hand a capability down from an actor who holds it. */
  ghost predicate Handed(g: Graph, path: seq<string>, t: real) {
    && path != []
    && (forall i :: 0 <= i < |path| ==> InForce(g, path[i], t))
    && g.grants[path[0]].parent.None? && Holds(g, g.grants[path[0]].fromActor, g.grants[path[0]].capability)
    && (forall i :: 0 < i < |path| ==> HandsOn(g.grants[path[i - 1]], g.grants[path[i]]))
  }

  ghost predicate Entrusted(g: Graph, path: seq<string>, actor: string, wanted: string, t: real) {
    && Handed(g, path, t)
    && g.grants[path[|path| - 1]].toActor == actor && Covers(g.grants[path[|path| - 1]].capability, wanted)
  }

  lemma HoldsIsIntrinsic(g: Graph, actor: string, wanted: string)
    ensures Holds(g, actor, wanted) <==> IntrinsicHas(g, actor, wanted)
  {
    if actor in g.intrinsic {
      forall held | held in g.intrinsic[actor] { DescentBySegments(wanted, held); }
    }
  }

  lemma InForceIsUnspent(g: Graph, id: string, t: real)
    ensures InForce(g, id, t) <==> Unspent(g, id, At(t))
  {}

  lemma HandsOnIsLinked(g: Graph, a: string, b: string)
    requires a in g.grants && b in g.grants && g.grants[a].id == a
    ensures HandsOn(g.grants[a], g.grants[b]) <==> Linked(g, a, b)
  {
    DescentBySegments(g.grants[b].capability, g.grants[a].capability);
    hide Segments, Descends;
  }

  lemma HandedIsChain(g: Graph, path: seq<string>, t: real)
    requires Valid(g)
    ensures Handed(g, path, t) <==> Chain(g, path, At(t))
  {
    assert forall id :: id in g.grants ==> g.grants[id].id == id;
    forall i | 0 <= i < |path| { InForceIsUnspent(g, path[i], t); }
    if path != [] && path[0] in g.grants { HoldsIsIntrinsic(g, g.grants[path[0]].fromActor, g.grants[path[0]].capability); }
    hide Valid, InForce, Unspent, HandsOn, Linked, Holds, IntrinsicHas;
    if Handed(g, path, t) || Chain(g, path, At(t)) {
      forall i | 0 < i < |path| ensures HandsOn(g.grants[path[i - 1]], g.grants[path[i]]) <==> Linked(g, path[i - 1], path[i]) {
        PathIsKnown(g, path, t);
        HandsOnIsLinked(g, path[i - 1], path[i]);
      }
    }
  }

  lemma PathIsKnown(g: Graph, path: seq<string>, t: real)
    requires Handed(g, path, t) || Chain(g, path, At(t))
    ensures forall i :: 0 <= i < |path| ==> path[i] in g.grants
  {}

  lemma EntrustedIsChain(g: Graph, path: seq<string>, actor: string, wanted: string, t: real)
    requires Valid(g)
    ensures Entrusted(g, path, actor, wanted, t) <==> AuthorityChain(g, path, actor, wanted, At(t))
  {
    HandedIsChain(g, path, t);
    hide Valid, Handed, Chain;
    if Handed(g, path, t) {
      assert path[|path| - 1] in g.grants && path != [] by { PathEnds(g, path, t); }
      DescentBySegments(wanted, g.grants[path[|path| - 1]].capability);
    }
  }

  lemma PathEnds(g: Graph, path: seq<string>, t: real)
    requires Handed(g, path, t)
    ensures path != [] && path[|path| - 1] in g.grants
  {}

  /** The capability is the actor's own: carried by the record that asks, or registered. */
  predicate Own(g: Graph, who: Subject, wanted: string) {
    (who.ByRecord? && exists held :: held in who.capabilities && Covers(held, wanted)) || Holds(g, who.id, wanted)
  }

  lemma OwnIsIntrinsic(g: Graph, who: Subject, wanted: string)
    ensures Own(g, who, wanted) <==> HoldsIntrinsically(g, who, wanted)
  {
    HoldsIsIntrinsic(g, who.id, wanted);
    if who.ByRecord? {
      forall held | held in who.capabilities { DescentBySegments(wanted, held); }
    }
  }

  /** The shorter path, or of two as long the one that is lower where they first differ. */
  ghost predicate Sooner(a: seq<string>, b: seq<string>) {
    |a| < |b| || (|a| == |b| && exists k: nat :: LowerPathAt(a, b, k))
  }

  /** What an authority check answers: allowed exactly for the actor's own capabilities
      and for those that grants in force hand down to it; the path is the actor's name in
      the first case and the soonest such chain in the second. */
  lemma AuthorityInPlainTerms(g: Graph, who: Subject, wanted: string, t: real, identity: Option<string>, proof: AuthorityProof)
    requires Valid(g) && IsProof(g, who, wanted, At(t), identity, proof)
    ensures proof.identity == identity
    ensures proof.allowed <==> Own(g, who, wanted) || exists path :: Entrusted(g, path, who.id, wanted, t)
    ensures Own(g, who, wanted) ==> proof.source.Intrinsic? && proof.path == ["actor:" + who.id]
    ensures proof.allowed && !Own(g, who, wanted) ==>
              && proof.source.Delegated? && Entrusted(g, proof.path, who.id, wanted, t)
              && forall path :: Entrusted(g, path, who.id, wanted, t) && path != proof.path ==> Sooner(proof.path, path)
    ensures !proof.allowed ==> proof.source.NoSource? && proof.path == []
  {
    OwnIsIntrinsic(g, who, wanted);
    hide Valid, Entrusted, AuthorityChain, Own, HoldsIntrinsically, PathBefore;
    forall path ensures Entrusted(g, path, who.id, wanted, t) <==> AuthorityChain(g, path, who.id, wanted, At(t)) {
      EntrustedIsChain(g, path, who.id, wanted, t);
    }
    forall path | |path| == |proof.path| { PathBeforeExactly(proof.path, path); }
  }

  /** An actor that holds one capability, in a graph without grants, may do exactly what
      is named within it. */
  lemma HolderAlone(actor: string, held: string, wanted: string, t: real, identity: Option<string>, proof: AuthorityProof)
    requires IsProof(Empty(map[actor := {held}]), ById(actor), wanted, At(t), identity, proof)
    ensures proof.allowed <==> Segments(held) <= Segments(wanted)
  {
    var g := Empty(map[actor := {held}]);
    AuthorityInPlainTerms(g, ById(actor), wanted, t, identity, proof);
    assert g.intrinsic[actor] == {held};
    hide Segments;
  }

  // ------------------------------------------------------------------ grants

  /** The grant ends a chain that hands it down. */
  ghost predicate Standing(g: Graph, id: string, t: real) { exists path :: Handed(g, path, t) && path[|path| - 1] == id }

  ghost predicate Delegates(g: Graph, a: string, b: string, t: real) {
    exists id :: id in g.grants && Standing(g, id, t) && g.grants[id].fromActor == a && g.grants[id].toActor == b
  }

  /** Standing grants lead from one actor to the next. */
  ghost predicate Leads(g: Graph, actors: seq<string>, t: real) {
    forall i :: 0 < i < |actors| ==> Delegates(g, actors[i - 1], actors[i], t)
  }

  ghost predicate Connected(g: Graph, a: string, b: string, t: real) {
    exists actors :: |actors| > 0 && actors[0] == a && actors[|actors| - 1] == b && Leads(g, actors, t)
  }

  lemma StandingIsActive(g: Graph, id: string, t: real)
    requires Valid(g)
    ensures Standing(g, id, t) <==> Active(g, id, At(t))
  {
    ActiveIffChain(g, id, At(t));
    hide Valid, Handed, Chain, Active;
    forall path { HandedIsChain(g, path, t); }
    forall path | Handed(g, path, t) ensures path != [] { PathEnds(g, path, t); }
    forall path | Chain(g, path, At(t)) ensures path != [] && Handed(g, path, t) { PathEnds(g, path, t); }
  }

  lemma WalkLeads(g: Graph, actors: seq<string>, t: real)
    requires Valid(g) && actors != []
    ensures IsWalk(LiveEdges(g, At(t)), actors) <==> Leads(g, actors, t)
  {
    hide Valid, LiveEdges, Delegates;
    forall a, b { DelegatesIsEdge(g, a, b, t); }
    if IsWalk(LiveEdges(g, At(t)), actors) {
      forall i | 0 < i < |actors| ensures Delegates(g, actors[i - 1], actors[i], t) {
        assert (actors[i - 1], actors[i - 1 + 1]) in LiveEdges(g, At(t));
      }
    }
    if Leads(g, actors, t) {
      forall i | 0 <= i < |actors| - 1 ensures (actors[i], actors[i + 1]) in LiveEdges(g, At(t)) {
        assert Delegates(g, actors[i + 1 - 1], actors[i + 1], t);
      }
    }
  }

  lemma DelegatesIsEdge(g: Graph, a: string, b: string, t: real)
    requires Valid(g)
    ensures Delegates(g, a, b, t) <==> (a, b) in LiveEdges(g, At(t))
  {
    hide Valid, Active, Standing;
    forall id { StandingIsActive(g, id, t); }
  }

  lemma ReachingConnects(g: Graph, a: string, b: string, t: real)
    requires Valid(g)
    ensures Reaches(LiveEdges(g, At(t)), a, b) <==> Connected(g, a, b, t)
  {
    hide Valid, LiveEdges, Leads, IsWalk;
    if p :| WalkBetween(LiveEdges(g, At(t)), p, a, b) {
      assert p != [] by { WalkIsNotEmpty(LiveEdges(g, At(t)), p, a, b); }
      WalkLeads(g, p, t);
    }
    if actors :| |actors| > 0 && actors[0] == a && actors[|actors| - 1] == b && Leads(g, actors, t) {
      WalkLeads(g, actors, t);
      assert WalkBetween(LiveEdges(g, At(t)), actors, a, b);
    }
  }

  lemma WalkIsNotEmpty(e: Edges, p: seq<string>, a: string, b: string)
    requires WalkBetween(e, p, a, b)
    ensures p != []
  {}

  /** A standing grant to the grantor that has depth to give and covers the scope. */
  ghost predicate Source(g: Graph, id: string, grantor: string, scope: string, t: real) {
    id in g.grants && Standing(g, id, t) && g.grants[id].toActor == grantor && g.grants[id].depth >= 1 && Covers(g.grants[id].capability, scope)
  }

  /** The first of the grants that could be the source, by id. */
  ghost predicate FirstSource(g: Graph, id: string, grantor: string, scope: string, t: real) {
    Source(g, id, grantor, scope, t) && forall other :: Source(g, other, grantor, scope, t) && other != id ==> Before(id, other)
  }

  lemma SourcesAreCandidates(g: Graph, id: string, grantor: string, scope: string, t: real)
    requires Valid(g)
    ensures Source(g, id, grantor, scope, t) <==> id in SourceCandidates(g, grantor, scope, At(t))
  {
    StandingIsActive(g, id, t);
    if id in g.grants { DescentBySegments(scope, g.grants[id].capability); }
    hide Valid, Standing, Active, Segments, Descends;
  }

  lemma LeastIsFirst(g: Graph, grantor: string, scope: string, t: real)
    requires Valid(g) && SourceCandidates(g, grantor, scope, At(t)) != {}
    ensures FirstSource(g, Least(SourceCandidates(g, grantor, scope, At(t))), grantor, scope, t)
  {
    var candidates := SourceCandidates(g, grantor, scope, At(t));
    hide Valid, Source, SourceCandidates;
    forall id { SourcesAreCandidates(g, id, grantor, scope, t); }
    forall other | other in candidates && other != Least(candidates) ensures Before(Least(candidates), other) {
      BeforeIsStrict(Least(candidates), other);
    }
  }

  /** The graph once a grantor that is given as a record has registered its capabilities. */
  function Registered(g: Graph, who: Subject): Graph {
    match who
    case ById(_) => g
    case ByRecord(id, capabilities) => g.(intrinsic := g.intrinsic[id := capabilities + (if id in g.intrinsic then g.intrinsic[id] else {})])
  }

  /** The graph with one more grant, numbered next, to what the request asks for. */
  function WithGrant(g: Graph, r: GrantRequest, scope: string, parent: Option<string>): (Graph, Result<Grant, DelegationError>)
    requires g.nextId > 0
  {
    var id := "G-" + Pad4(g.nextId);
    var grant := Grant(id, r.grantor.id, r.grantee, scope, r.depth, r.expiresAt, parent, r.rule, r.identity);
    (Graph(g.intrinsic, g.grants[id := grant], g.revoked, g.nextId + 1), Ok(grant))
  }

  /** What a grant call comes to, refusal by refusal. */
  lemma GrantInPlainTerms(g: Graph, r: GrantRequest)
    requires Valid(g)
    ensures var scope := if r.scope.None? then r.capability else r.scope.value;
            var h := Registered(g, r.grantor);
            var outcome := GrantStep(g, r);
            if r.depth < 0 then outcome == (g, Err(NegativeDepth))
            else if |scope| == 0 then outcome == (g, Err(EmptyScope))
            else if !Covers(r.capability, scope) then outcome == (g, Err(WidensScope))
            else if Connected(h, r.grantee, r.grantor.id, r.now) then outcome == (h, Err(CycleRejected))
            else if !Holds(h, r.grantor.id, scope) && forall id :: !Source(h, id, r.grantor.id, scope, r.now) then outcome == (h, Err(NoAuthority))
            else if !Holds(h, r.grantor.id, scope) && forall id :: FirstSource(h, id, r.grantor.id, scope, r.now) ==> r.depth >= h.grants[id].depth
            then outcome == (h, Err(DepthExceeded))
            else if r.expiresAt.Some? && r.now >= r.expiresAt.value then outcome == (h, Err(ExpiryNotInFuture))
            else
              && outcome.1.Ok? && outcome == WithGrant(h, r, scope, outcome.1.value.parent)
              && (outcome.1.value.parent.None? <==> Holds(h, r.grantor.id, scope))
              && (outcome.1.value.parent.Some? ==> FirstSource(h, outcome.1.value.parent.value, r.grantor.id, scope, r.now))
  {
    var scope, h := ScopeOf(r), Registered(g, r.grantor);
    RegisteringIsValid(g, r.grantor);
    DescentBySegments(scope, r.capability);
    ReachingConnects(h, r.grantee, r.grantor.id, r.now);
    HoldsIsIntrinsic(h, r.grantor.id, scope);
    var candidates := SourceCandidates(h, r.grantor.id, scope, At(r.now));
    hide Valid, LiveEdges, Reaches, Connected, Holds, IntrinsicHas, Source, SourceCandidates, Segments, Descends, Pad4, WithGrantor;
    forall id { SourcesAreCandidates(h, id, r.grantor.id, scope, r.now); }
    if candidates != {} {
      LeastIsFirst(h, r.grantor.id, scope, r.now);
      FirstIsOne(h, Least(candidates), r.grantor.id, scope, r.now);
    }
    SameIssue(h, r, scope, None);
    if candidates != {} { SameIssue(h, r, scope, Some(Least(candidates))); }
  }

  lemma SameIssue(h: Graph, r: GrantRequest, scope: string, parent: Option<string>)
    requires h.nextId > 0 && scope == ScopeOf(r)
    ensures Issue(h, r, parent)
         == if r.expiresAt.Some? && r.now >= r.expiresAt.value then (h, Err(ExpiryNotInFuture)) else WithGrant(h, r, scope, parent)
  {
    hide Pad4;
  }

  lemma FirstIsOne(g: Graph, id: string, grantor: string, scope: string, t: real)
    requires FirstSource(g, id, grantor, scope, t)
    ensures forall other :: FirstSource(g, other, grantor, scope, t) ==> other == id
  {
    hide Source;
    forall other | FirstSource(g, other, grantor, scope, t) ensures other == id { BeforeIsStrict(id, other); }
  }

  lemma RegisteringIsValid(g: Graph, who: Subject)
    requires Valid(g)
    ensures Registered(g, who) == WithGrantor(g, who) && Valid(Registered(g, who))
  {
    if who.ByRecord? {
      GrowingIntrinsicKeepsValid(g, who.id, who.capabilities);
      var held := if who.id in g.intrinsic then g.intrinsic[who.id] else {};
      assert who.capabilities + held == held + who.capabilities;
    }
  }
}
