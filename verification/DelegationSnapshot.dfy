/** The versioned snapshot of a delegation graph and its validating loader
    (governance/delegation.py). */
module DelegationSnapshot {
  import opened Text
  import opened Delegation
  import opened Model
  import opened Tables

  datatype Snapshot = Snapshot(
    version: string, intrinsic: map<string, seq<string>>, grants: seq<Grant>, revoked: seq<string>, nextId: int)

  ghost function ListedRoots(g: Graph): map<string, seq<string>> {
    map actor | actor in g.intrinsic :: Sorted(g.intrinsic[actor])
  }

  ghost function ListedGrants(g: Graph): seq<Grant> {
    var ids := Sorted(g.grants.Keys);
    assert forall i :: 0 <= i < |ids| ==> ids[i] in Members(ids);
    seq(|ids|, i requires 0 <= i < |ids| => g.grants[ids[i]])
  }

  /** `snapshot`: the complete state, every collection listed in ascending order. */
  ghost function SnapshotOf(g: Graph): Snapshot {
    Snapshot("1.0", ListedRoots(g), ListedGrants(g), Sorted(g.revoked), g.nextId)
  }

  function Ids(grants: seq<Grant>): seq<string> {
    seq(|grants|, i requires 0 <= i < |grants| => grants[i].id)
  }

  function ToSet(listed: seq<string>): set<string> {
    set x | x in listed
  }

  function RestoredRoots(listed: map<string, seq<string>>): map<string, set<string>> {
    map actor | actor in listed :: ToSet(listed[actor])
  }

  /** The graph a snapshot describes. */
  function Restored(s: Snapshot): Graph {
    Graph(RestoredRoots(s.intrinsic), Table(Ids(s.grants), s.grants), ToSet(s.revoked), s.nextId)
  }

  predicate GrantFieldsOk(grant: Grant) {
    grant.depth >= 0 && grant.fromActor != "" && grant.toActor != ""
  }

  predicate ParentOk(g: Graph, id: string)
    requires id in g.grants
  {
    match g.grants[id].parent
    case None => true
    case Some(p) => p in g.grants && Narrows(g.grants[p], g.grants[id])
  }

  /** The snapshots `from_snapshot` accepts, check by check. */
  predicate Accepts(s: Snapshot) {
    var g := Restored(s);
    && s.version == "1.0"
    && Distinct(Ids(s.grants))
    && (forall i :: 0 <= i < |s.grants| ==> GrantFieldsOk(s.grants[i]))
    && g.revoked <= g.grants.Keys
    && (forall id {:trigger ParentOk(g, id)} :: id in g.grants ==> ParentOk(g, id))
    && (forall id :: id in g.grants ==> Active(g.(revoked := {}), id, BeforeAll))
    && s.nextId > 0
    && (forall id :: id in g.grants && GeneratedNumber(id).Some? ==> GeneratedNumber(id).value < s.nextId)
  }

  /** An accepted snapshot satisfies the graph invariant, so its next id is
      unused, and every grant in it has a chain to an intrinsic holder when
      revocation and expiry are set aside. */
  lemma AcceptedIsGrounded(s: Snapshot)
    requires Accepts(s)
    ensures Valid(Restored(s)) && GrantId(s.nextId) !in Restored(s).grants
    ensures forall id :: id in Restored(s).grants ==>
              exists path :: Chain(Restored(s).(revoked := {}), path, BeforeAll) && Last(path) == id
  {
    var g := Restored(s);
    TableHolds(Ids(s.grants), s.grants);
    forall id | id in g.grants
      ensures Grounded(g, id) && g.grants[id].id == id && g.grants[id].depth >= 0
      ensures exists path :: Chain(g.(revoked := {}), path, BeforeAll) && Last(path) == id
    {
      var i :| 0 <= i < |s.grants| && Ids(s.grants)[i] == id;
      assert GrantFieldsOk(s.grants[i]) && ParentOk(g, id);
      assert ValidGrant(g.(revoked := {}), id, BeforeAll, {});
      ActiveIffChain(g.(revoked := {}), id, BeforeAll);
    }
    FreshId(g);
  }

  /** Without revocation and expiry, a grant of a valid graph always has a chain:
      depth grows towards the root, so the walk up the parents cannot repeat. */
  lemma {:induction false} GroundedHasChain(g: Graph, id: string, below: set<string>) returns (path: seq<string>)
    requires Valid(g) && id in g.grants
    requires forall x :: x in below ==> x in g.grants && g.grants[x].depth < g.grants[id].depth
    ensures Chain(g.(revoked := {}), path, BeforeAll) && Last(path) == id
    decreases |g.grants.Keys - below|
  {
    var free := g.(revoked := {});
    assert Grounded(g, id);
    match g.grants[id].parent
    case None =>
      path := [id];
    case Some(p) =>
      assert g.grants.Keys - (below + {id}) < g.grants.Keys - below by {
        assert id in g.grants.Keys - below;
      }
      SubsetSize(g.grants.Keys - (below + {id}), g.grants.Keys - below);
      var front := GroundedHasChain(g, p, below + {id});
      ChainExtend(free, front, id, BeforeAll);
      path := front + [id];
  }

  predicate NamedEndpoints(g: Graph) {
    forall id :: id in g.grants ==> g.grants[id].fromActor != "" && g.grants[id].toActor != ""
  }

  lemma RootsReadBack(g: Graph)
    ensures RestoredRoots(ListedRoots(g)) == g.intrinsic
  {
    forall actor | actor in g.intrinsic ensures RestoredRoots(ListedRoots(g))[actor] == g.intrinsic[actor] {
      assert Members(Sorted(g.intrinsic[actor])) == g.intrinsic[actor];
    }
  }

  lemma GrantsAreListed(g: Graph)
    requires Valid(g)
    ensures var ids, grants := Sorted(g.grants.Keys), ListedGrants(g);
            && |grants| == |ids| && Ids(grants) == ids && Distinct(ids)
            && (forall i :: 0 <= i < |ids| ==> ids[i] in g.grants && grants[i] == g.grants[ids[i]])
            && (forall id :: id in ids <==> id in g.grants)
  {
    SnapshotListsGrants(g);
    var ids, grants := Sorted(g.grants.Keys), ListedGrants(g);
    hide Valid, Grounded, Sorted, ListedGrants;
    assert Ids(grants) == ids;
    assert forall id :: id in ids <==> id in Members(ids);
  }

  lemma GrantsReadBack(g: Graph)
    requires Valid(g)
    ensures Table(Ids(ListedGrants(g)), ListedGrants(g)) == g.grants
  {
    var ids, grants := Sorted(g.grants.Keys), ListedGrants(g);
    GrantsAreListed(g);
    TableHolds(ids, grants);
    hide Table, Valid, Grounded, Sorted, ListedGrants, Ids, Distinct;
    forall id | id in g.grants ensures id in Table(ids, grants) && Table(ids, grants)[id] == g.grants[id] {
      var i :| 0 <= i < |ids| && ids[i] == id;
    }
  }

  /** The round trip, and exactly when the loader accepts what `snapshot` wrote:
      when every grant names both its actors. */
  lemma SnapshotRoundTrip(g: Graph)
    requires Valid(g)
    ensures Restored(SnapshotOf(g)) == g
    ensures Accepts(SnapshotOf(g)) <==> NamedEndpoints(g)
  {
    var s := SnapshotOf(g);
    RootsReadBack(g);
    GrantsReadBack(g);
    SnapshotListsGrants(g);
    assert ToSet(Sorted(g.revoked)) == Members(Sorted(g.revoked));
    forall id | id in g.grants ensures ParentOk(g, id) && Active(g.(revoked := {}), id, BeforeAll) {
      assert Grounded(g, id);
      var path := GroundedHasChain(g, id, {});
      ActiveIffChain(g.(revoked := {}), id, BeforeAll);
    }
    EndpointsListed(g);
    hide Valid, Grounded, Sorted;
  }

  lemma EndpointsListed(g: Graph)
    requires Valid(g)
    ensures (forall i :: 0 <= i < |ListedGrants(g)| ==> GrantFieldsOk(ListedGrants(g)[i])) <==> NamedEndpoints(g)
  {
    var ids, grants := Sorted(g.grants.Keys), ListedGrants(g);
    SnapshotListsGrants(g);
    if forall i :: 0 <= i < |grants| ==> GrantFieldsOk(grants[i]) {
      forall id | id in g.grants ensures g.grants[id].fromActor != "" && g.grants[id].toActor != "" {
        assert id in Members(ids);
        var i :| 0 <= i < |ids| && ids[i] == id;
        assert GrantFieldsOk(grants[i]);
      }
    }
  }

  lemma SnapshotListsGrants(g: Graph)
    requires Valid(g)
    ensures var ids, grants := Sorted(g.grants.Keys), ListedGrants(g);
            && Distinct(Ids(grants)) && |grants| == |ids|
            && forall i :: 0 <= i < |ids| ==> ids[i] in g.grants && grants[i] == g.grants[ids[i]] && grants[i].id == ids[i]
  {
    var ids, grants := Sorted(g.grants.Keys), ListedGrants(g);
    forall i | 0 <= i < |ids| ensures ids[i] in g.grants {
      assert ids[i] in Members(ids);
    }
    forall i, j | 0 <= i < j < |ids| ensures grants[i].id != grants[j].id {
      BeforeIsStrict(ids[i], ids[j]);
    }
  }

  /** A snapshot is accepted exactly when it is of this version, its ids differ, its grants
      name both their actors, and it gives a valid graph. */
  lemma AcceptanceInPlainTerms(s: Snapshot)
    ensures Accepts(s) <==>
              && s.version == "1.0"
              && (forall i, j :: 0 <= i < |s.grants| && 0 <= j < |s.grants| && i != j ==> s.grants[i].id != s.grants[j].id)
              && (forall i :: 0 <= i < |s.grants| ==> s.grants[i].fromActor != "" && s.grants[i].toActor != "")
              && Valid(Restored(s))
  {
    var ids := Ids(s.grants);
    assert forall i :: 0 <= i < |ids| ==> ids[i] == s.grants[i].id;
    if Accepts(s) { AcceptedIsGrounded(s); }
    hide Restored, Valid;
    if s.version == "1.0" && Distinct(ids) && NamesActors(s) && Valid(Restored(s)) { ValidIsAccepted(s); }
  }

  predicate NamesActors(s: Snapshot) { forall i :: 0 <= i < |s.grants| ==> s.grants[i].fromActor != "" && s.grants[i].toActor != "" }

  lemma ValidIsAccepted(s: Snapshot)
    requires s.version == "1.0" && Distinct(Ids(s.grants)) && NamesActors(s) && Valid(Restored(s))
    ensures Accepts(s)
  {
    var g, ids := Restored(s), Ids(s.grants);
    TableHolds(ids, s.grants);
    hide Table;
    forall i | 0 <= i < |s.grants| ensures GrantFieldsOk(s.grants[i]) { assert ids[i] in g.grants; }
    forall id | id in g.grants ensures ParentOk(g, id) && Active(g.(revoked := {}), id, BeforeAll) {
      assert Grounded(g, id);
      var path := GroundedHasChain(g, id, {});
      ActiveIffChain(g.(revoked := {}), id, BeforeAll);
    }
  }
}
