/**
 * Directed graphs given by their edge relation: walks, cycles and reachability.
 * The dependency engines are stated against these definitions.
 */
module Digraph {

  /** A walk visits at least one node and follows an edge at every step. */
  ghost predicate IsWalk<T>(edges: set<(T, T)>, walk: seq<T>) {
    |walk| > 0 && forall i :: 0 <= i < |walk| - 1 ==> (walk[i], walk[i + 1]) in edges
  }

  /** A closed walk returns to its first node after one edge or more. */
  ghost predicate IsClosedWalk<T>(edges: set<(T, T)>, walk: seq<T>) {
    IsWalk(edges, walk) && |walk| >= 2 && walk[0] == walk[|walk| - 1]
  }

  ghost predicate HasCycle<T(!new)>(edges: set<(T, T)>) {
    exists walk: seq<T> :: IsClosedWalk(edges, walk)
  }

  ghost predicate Connects<T>(edges: set<(T, T)>, walk: seq<T>, source: T, target: T) {
    IsWalk(edges, walk) && walk[0] == source && walk[|walk| - 1] == target
  }

  ghost predicate Reaches<T(!new)>(edges: set<(T, T)>, source: T, target: T) {
    exists walk: seq<T> :: Connects(edges, walk, source, target)
  }

  /** Closed walks may be entered one node later. */
  lemma RotateClosedWalk<T>(edges: set<(T, T)>, walk: seq<T>)
    requires IsClosedWalk(edges, walk)
    ensures IsClosedWalk(edges, walk[1..] + [walk[1]])
    ensures (walk[0], walk[1]) in edges
  {
    var rotated := walk[1..] + [walk[1]];
    forall i | 0 <= i < |rotated| - 1
      ensures (rotated[i], rotated[i + 1]) in edges
    {
      if i < |walk| - 2 {
        assert rotated[i] == walk[i + 1] && rotated[i + 1] == walk[i + 2];
      } else {
        assert rotated[i] == walk[0] && rotated[i + 1] == walk[1];
      }
    }
  }

  /** Every node of a walk that starts inside a set closed under successors stays inside it. */
  lemma {:induction false} WalkStaysInside<T>(edges: set<(T, T)>, inside: set<T>, walk: seq<T>, k: nat)
    requires IsWalk(edges, walk) && walk[0] in inside && k < |walk|
    requires forall e :: e in edges && e.0 in inside ==> e.1 in inside
    ensures walk[k] in inside
  {
    if k > 0 {
      WalkStaysInside(edges, inside, walk, k - 1);
      assert (walk[k - 1], walk[k]) in edges;
    }
  }

  /** A repetition-free sequence is no longer than a set holding its elements. */
  lemma {:induction false} NoRepeatsFits<T>(s: seq<T>, all: set<T>)
    requires forall i, j :: 0 <= i < j < |s| ==> s[i] != s[j]
    requires forall x :: x in s ==> x in all
    ensures |s| <= |all|
    ensures |s| == |all| ==> forall x :: x in all ==> x in s
  {
    if s == [] {
      if |all| == 0 { assert all == {}; }
    } else {
      var last, init := s[|s| - 1], s[..|s| - 1];
      assert last !in init;
      NoRepeatsFits(init, all - {last});
      assert forall x :: x in init ==> x in s;
      assert last in s;
    }
  }

  ghost predicate HasPredecessorIn<T(!new)>(edges: set<(T, T)>, nodes: set<T>, v: T) {
    exists u :: u in nodes && (u, v) in edges
  }

  /** Each node of a finite nonempty set has a predecessor in the set: the set holds a cycle. */
  lemma PredecessorsForceCycle<T(!new)>(edges: set<(T, T)>, nodes: set<T>)
    requires nodes != {}
    requires forall v {:trigger HasPredecessorIn(edges, nodes, v)} :: v in nodes ==> HasPredecessorIn(edges, nodes, v)
    ensures HasCycle(edges)
  {
    var walk := WalkBackwards(edges, nodes, |nodes|);
    if forall i, j :: 0 <= i < j < |walk| ==> walk[i] != walk[j] {
      NoRepeatsFits(walk, nodes);
    } else {
      var i, j :| 0 <= i < j < |walk| && walk[i] == walk[j];
      var loop := walk[i..j + 1];
      assert forall k :: 0 <= k < |loop| - 1 ==> (loop[k], loop[k + 1]) == (walk[i + k], walk[i + k + 1]);
      assert IsClosedWalk(edges, loop);
    }
  }

  lemma {:induction false} WalkBackwards<T(!new)>(edges: set<(T, T)>, nodes: set<T>, steps: nat) returns (walk: seq<T>)
    requires nodes != {}
    requires forall v {:trigger HasPredecessorIn(edges, nodes, v)} :: v in nodes ==> HasPredecessorIn(edges, nodes, v)
    ensures |walk| == steps + 1 && IsWalk(edges, walk)
    ensures forall x :: x in walk ==> x in nodes
  {
    if steps == 0 {
      var v :| v in nodes;
      walk := [v];
    } else {
      var rest := WalkBackwards(edges, nodes, steps - 1);
      assert rest[0] in rest && HasPredecessorIn(edges, nodes, rest[0]);
      var u :| u in nodes && (u, rest[0]) in edges;
      walk := [u] + rest;
      assert forall k :: 1 <= k < |walk| - 1 ==> (walk[k], walk[k + 1]) == (rest[k - 1], rest[k]);
    }
  }

  /** A ranking that every edge increases rules out cycles. */
  lemma RankingForbidsCycles<T(!new)>(edges: set<(T, T)>, rank: T -> int)
    requires forall e :: e in edges ==> rank(e.0) < rank(e.1)
    ensures !HasCycle(edges)
  {
    if walk: seq<T> :| IsClosedWalk(edges, walk) {
      RankGrowsAlongWalk(edges, rank, walk, |walk| - 1);
    }
  }

  lemma {:induction false} RankGrowsAlongWalk<T(!new)>(edges: set<(T, T)>, rank: T -> int, walk: seq<T>, k: nat)
    requires forall e :: e in edges ==> rank(e.0) < rank(e.1)
    requires IsWalk(edges, walk) && k < |walk|
    ensures rank(walk[0]) + k <= rank(walk[k])
  {
    if k > 0 {
      RankGrowsAlongWalk(edges, rank, walk, k - 1);
      assert (walk[k - 1], walk[k]) in edges;
    }
  }

  ghost predicate HasPredecessor<T(!new)>(edges: set<(T, T)>, v: T) {
    exists u :: (u, v) in edges
  }

  /** Some node outside `dead` reaches `v`. */
  ghost predicate HasLiveAncestor<T(!new)>(edges: set<(T, T)>, dead: set<T>, v: T) {
    exists u :: u !in dead && Reaches(edges, u, v)
  }

  lemma ReachesFurther<T(!new)>(edges: set<(T, T)>, source: T, v: T, w: T)
    requires Reaches(edges, source, v) && (v, w) in edges
    ensures Reaches(edges, source, w)
  {
    var walk :| Connects(edges, walk, source, v);
    var longer := walk + [w];
    assert forall i :: 0 <= i < |longer| - 2 ==> (longer[i], longer[i + 1]) == (walk[i], walk[i + 1]);
    assert Connects(edges, longer, source, w);
  }

  /** Without cycles, nodes that all have predecessors descend from nodes outside their set. */
  lemma DeadHaveLiveAncestors<T(!new)>(edges: set<(T, T)>, dead: set<T>, v: T)
    requires !HasCycle(edges) && v in dead
    requires forall d {:trigger HasPredecessor(edges, d)} :: d in dead ==> HasPredecessor(edges, d)
    ensures HasLiveAncestor(edges, dead, v)
  {
    if !HasLiveAncestor(edges, dead, v) {
      var orphans := set d | d in dead && !HasLiveAncestor(edges, dead, d);
      forall d | d in orphans ensures HasPredecessorIn(edges, orphans, d) {
        assert HasPredecessor(edges, d);
        var u :| (u, d) in edges;
        if u !in dead {
          assert Connects(edges, [u], u, u);
          ReachesFurther(edges, u, u, d);
          assert false;
        }
        if HasLiveAncestor(edges, dead, u) {
          var a :| a !in dead && Reaches(edges, a, u);
          ReachesFurther(edges, a, u, d);
          assert false;
        }
      }
      assert v in orphans;
      PredecessorsForceCycle(edges, orphans);
    }
  }
}
