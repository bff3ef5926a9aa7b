/** Directed edges between names: walks, reachability and acyclicity. */
module Walks {
  type Edges = set<(string, string)>

  ghost predicate IsWalk(e: Edges, p: seq<string>) {
    p != [] && forall i :: 0 <= i < |p| - 1 ==> (p[i], p[i + 1]) in e
  }

  ghost predicate WalkBetween(e: Edges, p: seq<string>, a: string, b: string) {
    IsWalk(e, p) && p[0] == a && p[|p| - 1] == b
  }

  ghost predicate Reaches(e: Edges, a: string, b: string) {
    exists p :: WalkBetween(e, p, a, b)
  }

  ghost predicate Acyclic(e: Edges) {
    forall p :: IsWalk(e, p) && |p| > 1 ==> p[0] != p[|p| - 1]
  }

  lemma JoinWalks(e: Edges, a: string, b: string, c: string)
    requires Reaches(e, a, b) && Reaches(e, b, c)
    ensures Reaches(e, a, c)
  {
    var p :| WalkBetween(e, p, a, b);
    var q :| WalkBetween(e, q, b, c);
    assert WalkBetween(e, p + q[1..], a, c);
  }

  lemma StepThenReach(e: Edges, a: string, b: string, c: string)
    requires (a, b) in e && Reaches(e, b, c)
    ensures Reaches(e, a, c)
  {
    assert WalkBetween(e, [a, b], a, b);
    JoinWalks(e, a, b, c);
  }

  lemma NoEdgesIsAcyclic(e: Edges)
    requires e == {}
    ensures Acyclic(e)
  {
    forall p | |p| > 1 ensures !IsWalk(e, p) {
      assert (p[0], p[0 + 1]) !in e;
    }
  }

  lemma SubsetIsAcyclic(small: Edges, large: Edges)
    requires small <= large && Acyclic(large)
    ensures Acyclic(small)
  {
    forall p | IsWalk(small, p) && |p| > 1 ensures p[0] != p[|p| - 1] {
      assert IsWalk(large, p);
    }
  }

  /** A set that is closed under the edges is never left. */
  lemma {:induction false} ClosedIsNeverLeft(e: Edges, closed: set<string>, p: seq<string>)
    requires IsWalk(e, p) && p[0] in closed
    requires forall edge :: edge in e && edge.0 in closed ==> edge.1 in closed
    ensures p[|p| - 1] in closed
  {
    if |p| > 1 {
      assert (p[0], p[1]) in e;
      ClosedIsNeverLeft(e, closed, p[1..]);
    }
  }

  /** A walk over one more edge either avoids it or passes both its ends. */
  lemma {:induction false} SplitAtEdge(e: Edges, u: string, v: string, p: seq<string>)
    requires IsWalk(e + {(u, v)}, p)
    ensures IsWalk(e, p) || (Reaches(e, p[0], u) && Reaches(e, v, p[|p| - 1]))
  {
    if |p| > 1 {
      SplitAtEdge(e, u, v, p[1..]);
      assert (p[0], p[1]) in e + {(u, v)};
      if (p[0], p[1]) in e {
        if !IsWalk(e, p[1..]) { StepThenReach(e, p[0], p[1], u); }
      } else {
        assert WalkBetween(e, [u], u, u);
        if IsWalk(e, p[1..]) { assert WalkBetween(e, p[1..], v, p[|p| - 1]); }
      }
    }
  }

  /** An edge whose head does not reach its tail closes no cycle. */
  lemma NewEdgeKeepsAcyclic(e: Edges, u: string, v: string)
    requires Acyclic(e) && !Reaches(e, v, u)
    ensures Acyclic(e + {(u, v)})
  {
    forall p | IsWalk(e + {(u, v)}, p) && |p| > 1 ensures p[0] != p[|p| - 1] {
      SplitAtEdge(e, u, v, p);
      if p[0] == p[|p| - 1] && !IsWalk(e, p) {
        JoinWalks(e, v, p[0], u);
      }
    }
  }

  // ------------------------------------------------------------ worklist

  ghost function Heads(e: Edges): set<string> {
    set edge | edge in e :: edge.1
  }

  /** What a worklist search from `start` knows: everything found is reachable,
      and what was visited leads only to what is visited or still pending. */
  ghost predicate Searching(e: Edges, start: string, target: string, visited: set<string>, pending: seq<string>) {
    && (forall a :: a in pending ==> a in {start} + Heads(e) && Reaches(e, start, a))
    && visited <= {start} + Heads(e)
    && target !in visited
    && (start in visited || start in pending)
    && (forall edge :: edge in e && edge.0 in visited ==> edge.1 in visited || edge.1 in pending)
  }

  ghost predicate Successors(e: Edges, a: string, next: seq<string>) {
    forall b :: b in next <==> (a, b) in e
  }

  lemma SearchStarts(e: Edges, start: string, target: string)
    ensures Searching(e, start, target, {}, [start])
  {
    assert WalkBetween(e, [start], start, start);
  }

  lemma SearchFinds(e: Edges, start: string, target: string, visited: set<string>, stack: seq<string>, current: string)
    requires Searching(e, start, target, visited, stack + [current])
    ensures Reaches(e, start, current)
  {
    assert current in stack + [current];
  }

  /** Taking a name off the worklist: it was seen before, or it is expanded. */
  lemma SearchAdvances(e: Edges, start: string, target: string, visited: set<string>, stack: seq<string>,
                       current: string, next: seq<string>)
    requires Searching(e, start, target, visited, stack + [current]) && current != target
    requires Successors(e, current, next)
    ensures current in {start} + Heads(e)
    ensures current in visited ==> Searching(e, start, target, visited, stack)
    ensures current !in visited ==> Searching(e, start, target, visited + {current}, stack + next)
  {
    assert current in stack + [current];
    forall b | b in next ensures b in Heads(e) && Reaches(e, start, b) {
      assert (current, b) in e;
      assert (current, b).1 in Heads(e);
      assert WalkBetween(e, [current, b], current, b);
      JoinWalks(e, start, current, b);
    }
    forall edge | edge in e && edge.0 == current ensures edge.1 in next {
      assert (current, edge.1) in e;
    }
  }

  /** An exhausted worklist that missed the target proves it unreachable. */
  lemma SearchEnds(e: Edges, start: string, target: string, visited: set<string>)
    requires Searching(e, start, target, visited, [])
    ensures !Reaches(e, start, target)
  {
    forall p | IsWalk(e, p) && p[0] == start ensures p[|p| - 1] != target {
      ClosedIsNeverLeft(e, visited, p);
    }
  }
}
