/** The mutable delegation graph (governance/delegation.py), proved against the
    transitions and proofs of module Delegation. */
module DelegationGraphs {
  import opened Text
  import opened Walks
  import opened Capabilities
  import opened Delegation
  import opened DelegationSnapshot
  import opened Model
  import opened Tables

  /** The unmoved part of a parent walk, root first; nothing when the walk loops. */
  function Trail(g: Graph, id: string, seen: set<string>): Option<seq<string>>
    requires id in g.grants
    decreases |g.grants.Keys - seen|
  {
    if id in seen then None
    else
      match g.grants[id].parent
      case None => Some([id])
      case Some(p) =>
        if p !in g.grants then Some([id])
        else
          assert g.grants.Keys - (seen + {id}) < g.grants.Keys - seen by {
            assert id in g.grants.Keys - seen;
          }
          SubsetSize(g.grants.Keys - (seen + {id}), g.grants.Keys - seen);
          match Trail(g, p, seen + {id})
          case None => None
          case Some(front) => Some(front + [id])
  }

  /** For a valid grant the parent walk is its authority chain. */
  lemma {:induction false} TrailIsChain(g: Graph, path: seq<string>, now: Instant, seen: set<string>)
    requires Chain(g, path, now) && forall x :: x in path ==> x !in seen
    ensures Trail(g, Last(path), seen) == Some(path)
    decreases |path|
  {
    if |path| > 1 {
      var front := path[..|path| - 1];
      ChainPrefix(g, path, now);
      assert Linked(g, Last(front), Last(path));
      forall x | x in front ensures x !in seen + {Last(path)} {
        var i :| 0 <= i < |front| && front[i] == x;
        ChainAttenuates(g, path, now, i, |path| - 1);
        assert path[i] == x;
      }
      TrailIsChain(g, front, now, seen + {Last(path)});
      assert path == front + [Last(path)];
    } else {
      assert path == [Last(path)];
    }
  }

  class DelegationGraph {
    var intrinsic: map<string, set<string>>
    var grants: map<string, Grant>
    var revoked: set<string>
    var nextId: int

    function State(): Graph
      reads this
    {
      Graph(intrinsic, grants, revoked, nextId)
    }

    constructor (roots: map<string, set<string>>)
      ensures State() == Empty(roots)
    {
      intrinsic, grants, revoked, nextId := roots, map[], {}, 1;
    }

    method RegisterIntrinsic(actor: string, capability: string)
      requires nextId > 0
      modifies this
      ensures State() == Apply(old(State()), Register(actor, capability))
    {
      var held := if actor in intrinsic then intrinsic[actor] else {};
      intrinsic := intrinsic[actor := held + {capability}];
    }

    /** `_source_grant`: the least candidate id. */
    method SourceGrant(grantor: string, capability: string, now: Instant) returns (r: Option<string>)
      ensures var candidates := SourceCandidates(State(), grantor, capability, now);
              r == if candidates == {} then None else Some(Least(candidates))
    {
      var candidates := SourceCandidates(State(), grantor, capability, now);
      if candidates == {} { return None; }
      var m := Minimum(candidates);
      return Some(m);
    }

    /** `_grant_path`: walk the parents, then turn the walk around. */
    method GrantPath(id: string) returns (path: seq<string>)
      requires id in grants
      ensures path == match Trail(State(), id, {}) case Some(p) => p case None => []
    {
      path := [];
      assert forall front: seq<string> :: front + [] == front;
      var current := Some(id);
      var seen := {};
      while current.Some?
        invariant current.Some? ==> current.value in grants
        invariant Trail(State(), id, {}) ==
                  if current.None? then Some(path)
                  else match Trail(State(), current.value, seen) case Some(front) => Some(front + path) case None => None
        decreases |grants.Keys - seen|, current.Some?
      {
        var at := current.value;
        if at in seen { return []; }
        assert grants.Keys - (seen + {at}) < grants.Keys - seen by {
          assert at in grants.Keys - seen;
        }
        SubsetSize(grants.Keys - (seen + {at}), grants.Keys - seen);
        var parent := grants[at].parent;
        assert forall front: seq<string> :: (front + [at]) + path == front + ([at] + path);
        seen := seen + {at};
        path := [at] + path;
        current := if parent.Some? && parent.value in grants then parent else None;
      }
    }

    /** The grantees of the live grants that `actor` made. */
    method LiveGrantees(actor: string, now: Instant) returns (next: seq<string>)
      ensures Successors(LiveEdges(State(), now), actor, next)
    {
      next := [];
      var rest := grants.Keys;
      while rest != {}
        invariant rest <= grants.Keys
        invariant forall a :: a in next ==> (actor, a) in LiveEdges(State(), now)
        invariant forall id :: id in grants.Keys - rest && grants[id].fromActor == actor && Active(State(), id, now)
                    ==> grants[id].toActor in next
        decreases rest
      {
        var id :| id in rest;
        if grants[id].fromActor == actor && Active(State(), id, now) {
          next := next + [grants[id].toActor];
        }
        rest := rest - {id};
      }
    }

    /** `_actor_reachable`: a worklist over the live grants, exact and terminating. */
    method ActorReachable(start: string, target: string, now: Instant) returns (r: bool)
      ensures r <==> Reaches(LiveEdges(State(), now), start, target)
    {
      hide Searching, LiveEdges, Reaches;
      ghost var edges := LiveEdges(State(), now);
      ghost var names := {start} + Heads(edges);
      var pending := [start];
      var visited: set<string> := {};
      SearchStarts(edges, start, target);
      while pending != []
        invariant Searching(edges, start, target, visited, pending)
        decreases |names - visited|, |pending|
      {
        var current := pending[|pending| - 1];
        var stack := pending[..|pending| - 1];
        assert pending == stack + [current];
        if current == target {
          SearchFinds(edges, start, target, visited, stack, current);
          return true;
        }
        var next := LiveGrantees(current, now);
        SearchAdvances(edges, start, target, visited, stack, current, next);
        if current in visited {
          pending := stack;
        } else {
          assert current in names - visited;
          SubsetSize(names - (visited + {current}), names - visited);
          pending, visited := stack + next, visited + {current};
        }
      }
      SearchEnds(edges, start, target, visited);
      return false;
    }

    /** The tail of `grant`: the expiry check, the next id and the new record. */
    method IssueGrant(r: GrantRequest, parent: Option<string>) returns (res: Result<Grant, DelegationError>)
      requires nextId > 0
      modifies this`nextId, this`grants
      ensures (State(), res) == Issue(old(State()), r, parent)
    {
      if r.expiresAt.Some? && r.expiresAt.value <= r.now { return Err(ExpiryNotInFuture); }
      var grant := Issued(State(), r, parent);
      nextId := nextId + 1;
      grants := grants[grant.id := grant];
      return Ok(grant);
    }

    /** `grant`, with every refusal in the order the source checks it. */
    method Grant(r: GrantRequest) returns (res: Result<Grant, DelegationError>)
      requires Valid(State())
      modifies this
      ensures (State(), res) == GrantStep(old(State()), r)
      ensures Valid(State())
    {
      assert nextId > 0;
      hide LiveEdges, Reaches, SourceCandidates, Active, Valid, IntrinsicHas, Descends, Issue;
      ApplyKeepsValid(State(), Give(r));
      var scope := ScopeOf(r);
      if r.depth < 0 { return Err(NegativeDepth); }
      if scope == "" { return Err(EmptyScope); }
      if !Descends(scope, r.capability) { return Err(WidensScope); }
      if r.grantor.ByRecord? {
        var held := if r.grantor.id in intrinsic then intrinsic[r.grantor.id] else {};
        intrinsic := intrinsic[r.grantor.id := held + r.grantor.capabilities];
      }
      var cyclic := ActorReachable(r.grantee, r.grantor.id, At(r.now));
      if cyclic { return Err(CycleRejected); }
      var parent := None;
      if !IntrinsicHas(State(), r.grantor.id, scope) {
        parent := SourceGrant(r.grantor.id, scope, At(r.now));
        if parent.None? { return Err(NoAuthority); }
        CandidatesAreGrants(State(), r.grantor.id, scope, At(r.now));
        if r.depth > grants[parent.value].depth - 1 { return Err(DepthExceeded); }
      }
      res := IssueGrant(r, parent);
    }

    method RevokeGrant(id: string) returns (res: Result<(), DelegationError>)
      requires nextId > 0
      modifies this
      ensures State() == Apply(old(State()), Revoke(id))
      ensures res.Ok? <==> id in old(grants)
    {
      if id !in grants { return Err(UnknownGrant); }
      revoked := revoked + {id};
      return Ok(());
    }

    /** `authority_proof`: allowed exactly when the capability is intrinsic or a
        chain hands it to the actor; the path is the least such chain. */
    method Authority(who: Subject, capability: string, now: Instant, identity: Option<string>)
      returns (proof: AuthorityProof)
      ensures IsProof(State(), who, capability, now, identity, proof)
      ensures proof.allowed <==> Authorized(State(), who, capability, now)
    {
      if HoldsIntrinsically(State(), who, capability) {
        return AuthorityProof(true, Intrinsic, ["actor:" + who.id], identity);
      }
      ghost var g := State();
      var best: seq<string> := [];
      var rest := grants.Keys;
      while rest != {}
        invariant rest <= grants.Keys
        invariant best != [] ==> AuthorityChain(g, best, who.id, capability, now)
        invariant forall q :: AuthorityChain(g, q, who.id, capability, now) && Last(q) !in rest ==>
                    best != [] && (q == best || Shorter(best, q))
        decreases rest
      {
        var id :| id in rest;
        if grants[id].toActor == who.id && Descends(capability, grants[id].capability) && Active(State(), id, now) {
          var path := GrantPath(id);
          ghost var chain := ValidHasChain(g, id, now, {});
          TrailIsChain(g, chain, now, {});
          assert path == chain;
          ghost var before := best;
          if best == [] || Shorter(path, best) { best := path; }
          BestSoFar(g, who.id, capability, now, id, path, before, best, rest);
        } else {
          forall q | AuthorityChain(g, q, who.id, capability, now) ensures Last(q) != id {
            if Last(q) == id { ActiveIffChain(g, id, now); }
          }
        }
        rest := rest - {id};
      }
      if best != [] {
        assert AuthorityChain(g, best, who.id, capability, now);
        return AuthorityProof(true, Delegated, best, identity);
      }
      return AuthorityProof(false, NoSource, [], identity);
    }

    method HasAuthority(who: Subject, capability: string, now: Instant) returns (r: bool)
      ensures r <==> Authorized(State(), who, capability, now)
    {
      var proof := Authority(who, capability, now, None);
      return proof.allowed;
    }

    method ListIntrinsic() returns (listed: map<string, seq<string>>)
      ensures listed == ListedRoots(State())
    {
      listed := map[];
      var actors := intrinsic.Keys;
      while actors != {}
        invariant actors <= intrinsic.Keys
        invariant listed.Keys == intrinsic.Keys - actors
        invariant forall actor :: actor in listed ==> listed[actor] == Sorted(intrinsic[actor])
        decreases actors
      {
        var actor :| actor in actors;
        var held := Listing(intrinsic[actor]);
        listed := listed[actor := held];
        actors := actors - {actor};
      }
    }

    /** `snapshot`. */
    method TakeSnapshot() returns (s: Snapshot)
      requires Valid(State())
      ensures s == SnapshotOf(State())
    {
      var listed := ListIntrinsic();
      var ids := Listing(grants.Keys);
      SnapshotListsGrants(State());
      ghost var target := ListedGrants(State());
      var records: seq<Delegation.Grant> := [];
      for i := 0 to |ids|
        invariant |target| == |ids| && records == target[..i]
      {
        records := records + [grants[ids[i]]];
      }
      var gone := Listing(revoked);
      s := Snapshot("1.0", listed, records, gone, nextId);
    }
  }

  /** Folding one more candidate into the running minimum. */
  lemma BestSoFar(g: Graph, actor: string, capability: string, now: Instant, id: string, path: seq<string>,
                  before: seq<string>, best: seq<string>, rest: set<string>)
    requires AuthorityChain(g, path, actor, capability, now) && Last(path) == id
    requires before != [] ==> AuthorityChain(g, before, actor, capability, now)
    requires best == if before == [] || Shorter(path, before) then path else before
    requires forall q :: AuthorityChain(g, q, actor, capability, now) && Last(q) !in rest ==>
               before != [] && (q == before || Shorter(before, q))
    ensures forall q :: AuthorityChain(g, q, actor, capability, now) && Last(q) !in rest - {id} ==>
              best != [] && (q == best || Shorter(best, q))
  {
    forall q | AuthorityChain(g, q, actor, capability, now) && Last(q) !in rest - {id}
      ensures q == best || Shorter(best, q)
    {
      if Last(q) == id { ChainIsDetermined(g, q, path, now); }
      if before != [] {
        PathBeforeIsStrict(path, before);
        if |path| == |before| == |q| && PathBefore(path, before) && PathBefore(before, q) {
          PathBeforeIsTransitive(path, before, q);
        }
      }
    }
  }

  /** The listed grants as a dictionary, or nothing when one is a duplicate or malformed. */
  method LoadGrants(listed: seq<Grant>) returns (r: Option<map<string, Grant>>)
    ensures r.Some? <==> Distinct(Ids(listed)) && forall i :: 0 <= i < |listed| ==> GrantFieldsOk(listed[i])
    ensures r.Some? ==> r.value == Table(Ids(listed), listed)
  {
    hide Table;
    var table: map<string, Grant> := map[];
    assert table == Table(Ids(listed)[..0], listed[..0]) by { NothingListed(listed); }
    for i := 0 to |listed|
      invariant table == Table(Ids(listed)[..i], listed[..i]) && Distinct(Ids(listed)[..i])
      invariant forall k :: 0 <= k < i ==> GrantFieldsOk(listed[k])
    {
      var grant := listed[i];
      TableGrows(Ids(listed), listed, i);
      if grant.id in table || !GrantFieldsOk(grant) { return None; }
      table := table[grant.id := grant];
    }
    assert Ids(listed)[..|listed|] == Ids(listed) && listed[..|listed|] == listed;
    return Some(table);
  }

  lemma NothingListed(listed: seq<Grant>)
    ensures Table(Ids(listed)[..0], listed[..0]) == map[]
  {}

  /** Every known parent must own, cover and outrank its child. */
  method CheckParents(g: Graph) returns (ok: bool)
    ensures ok <==> ParentsOk(g)
  {
    var rest := g.grants.Keys;
    while rest != {}
      invariant rest <= g.grants.Keys
      invariant forall id :: id in g.grants.Keys - rest ==> ParentOk(g, id)
      decreases rest
    {
      var id :| id in rest;
      if !ParentOk(g, id) { return false; }
      rest := rest - {id};
    }
    return true;
  }

  /** Every chain must reach an intrinsic holder when time and revocation are set aside. */
  method CheckChains(g: Graph) returns (ok: bool)
    ensures ok <==> forall id :: id in g.grants ==> Active(g, id, BeforeAll)
  {
    var rest := g.grants.Keys;
    while rest != {}
      invariant rest <= g.grants.Keys
      invariant forall id :: id in g.grants.Keys - rest ==> Active(g, id, BeforeAll)
      decreases rest
    {
      var id :| id in rest;
      if !Active(g, id, BeforeAll) { return false; }
      rest := rest - {id};
    }
    return true;
  }

  /** No generated id may reach the next counter. */
  method CheckCounter(g: Graph, nextId: int) returns (ok: bool)
    ensures ok <==> nextId > 0 && forall id :: id in g.grants && GeneratedNumber(id).Some? ==> GeneratedNumber(id).value < nextId
  {
    if nextId <= 0 { return false; }
    var rest := g.grants.Keys;
    while rest != {}
      invariant rest <= g.grants.Keys
      invariant forall id :: id in g.grants.Keys - rest && GeneratedNumber(id).Some? ==> GeneratedNumber(id).value < nextId
      decreases rest
    {
      var id :| id in rest;
      if GeneratedNumber(id).Some? && nextId <= GeneratedNumber(id).value { return false; }
      rest := rest - {id};
    }
    return true;
  }

  ghost predicate ParentsOk(g: Graph) {
    forall id {:trigger ParentOk(g, id)} :: id in g.grants ==> ParentOk(g, id)
  }

  lemma ParentsAsRestored(g: Graph)
    ensures ParentsOk(g.(revoked := {})) <==> ParentsOk(g)
  {
    forall id | id in g.grants ensures ParentOk(g.(revoked := {}), id) <==> ParentOk(g, id) {}
  }

  /** `from_snapshot`: a graph for exactly the snapshots that are accepted. */
  method FromSnapshot(s: Snapshot) returns (r: Result<DelegationGraph, string>)
    ensures r.Ok? <==> Accepts(s)
    ensures r.Ok? ==> fresh(r.value) && r.value.State() == Restored(s) && Valid(r.value.State())
  {
    hide ParentOk, Active, GrantFieldsOk, Distinct, Ids, Table, GeneratedNumber, Valid;
    if s.version != "1.0" { return Err("version"); }
    var roots := RestoredRoots(s.intrinsic);
    var table := LoadGrants(s.grants);
    if table.None? { return Err("grants"); }
    var revoked := ToSet(s.revoked);
    var loaded := Graph(roots, table.value, {}, s.nextId);
    assert loaded == Restored(s).(revoked := {});
    if !(revoked <= table.value.Keys) { return Err("revoked"); }
    var parents := CheckParents(loaded);
    ParentsAsRestored(Restored(s));
    if !parents { return Err("parent"); }
    var chains := CheckChains(loaded);
    if !chains { return Err("unrooted"); }
    var counter := CheckCounter(loaded, s.nextId);
    if !counter { return Err("next id"); }
    var graph := new DelegationGraph(roots);
    graph.grants, graph.revoked, graph.nextId := table.value, revoked, s.nextId;
    AcceptedIsGrounded(s);
    return Ok(graph);
  }
}
