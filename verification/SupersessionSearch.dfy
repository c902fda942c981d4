/**
 * The depth-first search both registries use to reject supersession cycles.
 * Python keeps the two sets in the enclosing call and raises on a cycle; here
 * the search object holds the sets and a cycle is reported by the result.
 */
module SupersessionSearch {
  import opened Digraph

  /** The ids a record supersedes, as a dictionary from id to targets. */
  type Links = map<string, seq<string>>

  /** All targets are known ids: the registries check this before searching. */
  ghost predicate Resolved(links: Links) {
    forall id, target :: id in links && target in links[id] ==> target in links
  }

  ghost function Edges(links: Links): set<(string, string)> {
    set id, target | id in links && target in links[id] :: (id, target)
  }

  /** No closed walk enters the finished part. */
  ghost predicate CycleFree(links: Links, finished: set<string>) {
    forall walk :: IsClosedWalk(Edges(links), walk) ==> walk[0] !in finished
  }

  /** The open ids form a chain of supersessions that ends at the id being visited. */
  ghost predicate IsChain(links: Links, chain: seq<string>, id: string) {
    IsWalk(Edges(links), chain + [id])
  }

  class Search {
    const links: Links
    var visiting: set<string>
    var visited: set<string>

    constructor (links: Links)
      ensures this.links == links && visiting == {} && visited == {}
    {
      this.links, visiting, visited := links, {}, {};
    }

    /** Returns false where the original raises its cycle error. */
    method Visit(id: string, ghost chain: seq<string>) returns (ok: bool)
      requires Resolved(links) && id in links
      requires visiting <= links.Keys && visited <= links.Keys
      requires IsChain(links, chain, id) && visiting == set x | x in chain
      requires CycleFree(links, visited)
      modifies this
      ensures ok ==> visiting == old(visiting) && old(visited) + {id} <= visited <= links.Keys
      ensures ok ==> CycleFree(links, visited)
      ensures !ok ==> HasCycle(Edges(links))
      decreases links.Keys - visiting, 1
    {
      if id in visiting {
        ChainCloses(links, chain, id);
        return false;
      }
      if id in visited {
        return true;
      }
      visiting := visiting + {id};
      assert visiting == set x | x in chain + [id];
      ghost var open := visiting;
      var targets := links[id];
      for i := 0 to |targets|
        invariant visiting == open && old(visited) <= visited <= links.Keys
        invariant forall target :: target in targets[..i] ==> target in visited
        invariant CycleFree(links, visited)
      {
        assert targets[..i + 1] == targets[..i] + [targets[i]];
        assert targets[i] in targets && (id, targets[i]) in Edges(links);
        ChainGrows(links, chain, id, targets[i]);
        var fine := Visit(targets[i], chain + [id]);
        if !fine {
          return false;
        }
      }
      assert targets[..|targets|] == targets;
      FinishNode(links, visited, id);
      visiting := visiting - {id};
      visited := visited + {id};
      ok := true;
    }

    /** Visit every id; accept exactly the acyclic relations. */
    method Run(ids: seq<string>) returns (ok: bool)
      requires Resolved(links) && visiting == {} && visited == {}
      requires links.Keys == set id | id in ids
      modifies this
      ensures ok <==> !HasCycle(Edges(links))
    {
      for i := 0 to |ids|
        invariant visiting == {} && visited <= links.Keys && CycleFree(links, visited)
        invariant forall id :: id in ids[..i] ==> id in visited
      {
        assert ids[..i + 1] == ids[..i] + [ids[i]];
        assert ids[i] in ids;
        assert IsChain(links, [], ids[i]);
        var fine := Visit(ids[i], []);
        if !fine {
          return false;
        }
      }
      assert ids[..|ids|] == ids;
      EverythingFinished(links, visited);
      ok := true;
    }
  }

  /** Meeting an open id again closes a walk. */
  lemma ChainCloses(links: Links, chain: seq<string>, id: string)
    requires IsChain(links, chain, id) && id in chain
    ensures HasCycle(Edges(links))
  {
    var k :| 0 <= k < |chain| && chain[k] == id;
    var all := chain + [id];
    var loop := all[k..];
    assert forall i :: 0 <= i < |loop| - 1 ==> (loop[i], loop[i + 1]) == (all[k + i], all[k + i + 1]);
    assert IsClosedWalk(Edges(links), loop);
  }

  lemma ChainGrows(links: Links, chain: seq<string>, id: string, target: string)
    requires IsChain(links, chain, id) && (id, target) in Edges(links)
    ensures IsChain(links, chain + [id], target)
  {
    var shorter, longer := chain + [id], chain + [id] + [target];
    forall i | 0 <= i < |longer| - 1 ensures (longer[i], longer[i + 1]) in Edges(links) {
      if i < |chain| {
        assert (longer[i], longer[i + 1]) == (shorter[i], shorter[i + 1]);
      }
    }
  }

  /** Once all its targets are finished, an id may be finished too. */
  lemma FinishNode(links: Links, finished: set<string>, id: string)
    requires id in links && CycleFree(links, finished)
    requires forall target :: target in links[id] ==> target in finished
    ensures CycleFree(links, finished + {id})
  {
    forall walk | IsClosedWalk(Edges(links), walk) ensures walk[0] !in finished + {id} {
      RotateClosedWalk(Edges(links), walk);
      assert (walk[1..] + [walk[1]])[0] == walk[1];
      assert (walk[0], walk[1]) in Edges(links);
    }
  }

  lemma FirstStep<T(!new)>(edges: set<(T, T)>, walk: seq<T>)
    requires IsClosedWalk(edges, walk)
    ensures (walk[0], walk[1]) in edges
  {
  }

  lemma EverythingFinished(links: Links, finished: set<string>)
    requires CycleFree(links, finished) && links.Keys <= finished
    ensures !HasCycle(Edges(links))
  {
    forall walk ensures !IsClosedWalk(Edges(links), walk) {
      if IsClosedWalk(Edges(links), walk) { FirstStep(Edges(links), walk); }
    }
  }
}
