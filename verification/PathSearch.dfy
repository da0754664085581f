/**
 Path search in the forward dependency graph.

 The search is depth first and works on one shared path, one shared visited set and one result
 list, which the recursive calls update and restore.
 */
module PathSearch {
  import opened Keys

  type Graph = map<DynKey, seq<Dep>>

  /** The recursion stops at this depth. */
  const MAX_DEPTH: nat := 1000

  predicate Edge(graph: Graph, a: DynKey, b: DynKey) {
    a in graph && b in graph[a]
  }

  /** `p` follows edges from `start` to `end` and never repeats a node; the empty path ends where it starts. */
  ghost predicate IsPath(graph: Graph, start: DynKey, end: DynKey, p: seq<Dep>) {
    var nodes := [start] + p;
    && (forall i | 0 <= i < |p| :: Edge(graph, nodes[i], nodes[i + 1]))
    && (forall i, j | 0 <= i < j < |nodes| :: nodes[i] != nodes[j])
    && nodes[|p|] == end
  }

  ghost predicate Avoids(start: DynKey, p: seq<Dep>, visited: set<DynKey>) {
    start !in visited && forall i | 0 <= i < |p| :: p[i] !in visited
  }

  /** What a search from `current` may append: a short path that avoids the visited nodes. */
  ghost predicate IsTail(graph: Graph, current: DynKey, end: DynKey, visited: set<DynKey>, limit: int, q: seq<Dep>) {
    |q| <= limit && IsPath(graph, current, end, q) && Avoids(current, q, visited)
  }

  lemma {:induction false} TailAtEnd(graph: Graph, end: DynKey, visited: set<DynKey>, limit: nat, q: seq<Dep>)
    requires end !in visited
    ensures IsTail(graph, end, end, visited, limit, q) <==> q == []
  {
    var nodes := [end] + q;
    if q != [] && nodes[|q|] == end {
      assert nodes[0] == nodes[|q|];
      assert !IsPath(graph, end, end, q);
    }
  }

  lemma {:induction false} TailSplit(
    graph: Graph, current: DynKey, end: DynKey, visited: set<DynKey>, limit: int, d: Dep, q: seq<Dep>)
    requires IsTail(graph, current, end, visited, limit, [d] + q)
    ensures Edge(graph, current, d) && current !in visited
    ensures IsTail(graph, d, end, visited + {current}, limit - 1, q)
  {
    var long, short := [current] + ([d] + q), [d] + q;
    assert forall i | 0 <= i < |short| :: long[i + 1] == short[i];
    assert Edge(graph, long[0], long[1]) && short[0] == d;
    forall i | 0 <= i < |q| ensures Edge(graph, short[i], short[i + 1]) {
      assert Edge(graph, long[i + 1], long[i + 1 + 1]);
    }
    forall i, j | 0 <= i < j < |short| ensures short[i] != short[j] {
      assert long[i + 1] != long[j + 1];
    }
    forall i | 0 <= i < |q| ensures q[i] !in visited + {current} {
      assert short[i + 1] == q[i] && long[0] != long[i + 2];
    }
    assert long[0] != long[1];
  }

  lemma {:induction false} TailJoin(
    graph: Graph, current: DynKey, end: DynKey, visited: set<DynKey>, limit: int, d: Dep, q: seq<Dep>)
    requires Edge(graph, current, d) && current !in visited
    requires IsTail(graph, d, end, visited + {current}, limit - 1, q)
    ensures IsTail(graph, current, end, visited, limit, [d] + q)
  {
    var long, short := [current] + ([d] + q), [d] + q;
    assert forall i | 0 <= i < |short| :: long[i + 1] == short[i];
    forall i | 0 <= i < |short| ensures Edge(graph, long[i], long[i + 1]) {
      if 0 < i {
        assert Edge(graph, short[i - 1], short[i - 1 + 1]);
      }
    }
    forall i | 0 <= i < |short| ensures short[i] !in visited + {current} {
      assert i == 0 || short[i] == q[i - 1];
    }
    forall i, j | 0 <= i < j < |long| ensures long[i] != long[j] {
      if 0 < i {
        assert short[i - 1] != short[j - 1];
      } else {
        assert long[j] == short[j - 1];
      }
    }
  }

  lemma TailNeedsEdge(graph: Graph, current: DynKey, end: DynKey, visited: set<DynKey>, limit: int, q: seq<Dep>)
    requires current != end && IsTail(graph, current, end, visited, limit, q)
    ensures q != [] && q == [q[0]] + q[1..] && current !in visited
  {}

  /** The results added are exactly the extensions of the shared path by tails. */
  ghost predicate Complete(graph: Graph, current: DynKey, end: DynKey, path: seq<Dep>, visited: set<DynKey>,
                           limit: int, found: seq<seq<Dep>>) {
    && (forall r | r in found :: path <= r && IsTail(graph, current, end, visited, limit, r[|path|..]))
    && (forall q | IsTail(graph, current, end, visited, limit, q) :: path + q in found)
  }

  /** The same, for tails whose first edge is among the first `n` stored dependencies. */
  ghost predicate CompleteUpTo(graph: Graph, current: DynKey, end: DynKey, path: seq<Dep>, visited: set<DynKey>,
                               limit: int, n: nat, found: seq<seq<Dep>>)
    requires current in graph && n <= |graph[current]|
  {
    && (forall r | r in found :: path <= r && IsTail(graph, current, end, visited, limit, r[|path|..]))
    && (forall q | IsTail(graph, current, end, visited, limit, q) && q != [] && q[0] in graph[current][..n] ::
          path + q in found)
  }

  lemma {:induction false} CompleteNext(
    graph: Graph, current: DynKey, end: DynKey, path: seq<Dep>, visited: set<DynKey>, limit: int, n: nat,
    found: seq<seq<Dep>>, more: seq<seq<Dep>>)
    requires current in graph && n < |graph[current]| && current !in visited
    requires CompleteUpTo(graph, current, end, path, visited, limit, n, found)
    requires Complete(graph, graph[current][n], end, path + [graph[current][n]], visited + {current}, limit - 1, more)
    ensures CompleteUpTo(graph, current, end, path, visited, limit, n + 1, found + more)
  {
    var d := graph[current][n];
    var longer := path + [d];
    forall r | r in found + more
      ensures path <= r && IsTail(graph, current, end, visited, limit, r[|path|..])
    {
      if r in more {
        var q := r[|longer|..];
        assert r == longer + q;
        assert r[|path|..] == [d] + q;
        TailJoin(graph, current, end, visited, limit, d, q);
      }
    }
    forall q | IsTail(graph, current, end, visited, limit, q) && q != [] && q[0] in graph[current][..n + 1]
      ensures path + q in found + more
    {
      if q[0] !in graph[current][..n] {
        assert q[0] == d && q == [d] + q[1..];
        TailSplit(graph, current, end, visited, limit, d, q[1..]);
        assert longer + q[1..] == path + q;
      }
    }
  }

  // ---------------------------------------------------------------------------
  // Each path once
  // ---------------------------------------------------------------------------

  predicate NoRepeats<T(==)>(s: seq<T>) {
    forall i, j | 0 <= i < j < |s| :: s[i] != s[j]
  }

  ghost predicate NoRepeatedDeps(graph: Graph) {
    forall k | k in graph :: NoRepeats(graph[k])
  }

  /** Each of these goes on from `path` by one of `deps`. */
  ghost predicate GoesOnBy(path: seq<Dep>, deps: seq<Dep>, found: seq<seq<Dep>>) {
    forall r | r in found :: |path| < |r| && r[|path|] in deps
  }

  lemma {:induction false} OnceMore(
    path: seq<Dep>, deps: seq<Dep>, n: nat, found: seq<seq<Dep>>, more: seq<seq<Dep>>)
    requires n < |deps| && GoesOnBy(path, deps[..n], found) && forall r | r in more :: path + [deps[n]] <= r
    ensures GoesOnBy(path, deps[..n + 1], found + more)
    ensures NoRepeats(deps) && NoRepeats(found) && NoRepeats(more) ==> NoRepeats(found + more)
  {
    var longer := path + [deps[n]];
    forall r | r in more ensures |path| < |r| && r[|path|] == deps[n] {
      assert longer <= r && longer[|path|] == deps[n];
    }
    assert deps[..n + 1] == deps[..n] + [deps[n]];
    if NoRepeats(deps) && NoRepeats(found) && NoRepeats(more) {
      forall i, j | 0 <= i < |found| && 0 <= j < |more| ensures found[i] != more[j] {
        assert found[i] in found && more[j] in more;
        var m :| 0 <= m < n && deps[..n][m] == found[i][|path|];
        assert deps[m] != deps[n];
      }
    }
  }

  class Search {
    const graph: Graph
    const end: DynKey
    var path: seq<Dep>
    var visited: set<DynKey>
    var results: seq<seq<Dep>>

    constructor (graph: Graph, end: DynKey)
      ensures this.graph == graph && this.end == end && path == [] && visited == {} && results == []
    {
      this.graph, this.end := graph, end;
      path, visited, results := [], {}, [];
    }

    method Explore(current: DynKey, depth: nat) returns (ghost found: seq<seq<Dep>>)
      requires depth <= MAX_DEPTH && end !in visited
      modifies this
      ensures path == old(path) && visited == old(visited)
      ensures results == old(results) + found
      ensures Complete(graph, current, end, path, visited, MAX_DEPTH - 1 - depth, found)
      ensures NoRepeatedDeps(graph) ==> NoRepeats(found)
      decreases MAX_DEPTH - depth
    {
      found := [];
      if depth >= MAX_DEPTH {
        return;
      }
      ghost var limit := MAX_DEPTH - 1 - depth;
      if current == end {
        forall q ensures IsTail(graph, current, end, visited, limit, q) <==> q == [] {
          TailAtEnd(graph, end, visited, limit, q);
        }
        results := results + [path];
        assert path[|path|..] == [] && path + [] == path;
        return [path];
      }
      forall q | IsTail(graph, current, end, visited, limit, q) ensures q != [] && current !in visited {
        TailNeedsEdge(graph, current, end, visited, limit, q);
      }
      if current in visited {
        return;
      }
      visited := visited + {current};
      if current in graph {
        found := ExploreDeps(current, depth);
        assert graph[current][..|graph[current]|] == graph[current];
        forall q | IsTail(graph, current, end, old(visited), limit, q) ensures path + q in found {
          TailNeedsEdge(graph, current, end, old(visited), limit, q);
          TailSplit(graph, current, end, old(visited), limit, q[0], q[1..]);
        }
      } else {
        forall q ensures !IsTail(graph, current, end, old(visited), limit, q) {
          if IsTail(graph, current, end, old(visited), limit, q) {
            TailNeedsEdge(graph, current, end, old(visited), limit, q);
            TailSplit(graph, current, end, old(visited), limit, q[0], q[1..]);
          }
        }
      }
      visited := visited - {current};
      assert visited == old(visited);
    }

    /** The loop over the stored dependencies of `current`, which is already marked visited. */
    method ExploreDeps(current: DynKey, depth: nat) returns (ghost found: seq<seq<Dep>>)
      requires depth < MAX_DEPTH && end !in visited && current in visited && current in graph
      modifies this
      ensures path == old(path) && visited == old(visited)
      ensures results == old(results) + found
      ensures CompleteUpTo(graph, current, end, path, visited - {current}, MAX_DEPTH - 1 - depth, |graph[current]|,
                           found)
      ensures NoRepeatedDeps(graph) ==> NoRepeats(found)
      decreases MAX_DEPTH - depth, 0
    {
      found := [];
      var deps := graph[current];
      ghost var outer := visited - {current};
      assert outer + {current} == visited;
      for i := 0 to |deps|
        invariant path == old(path) && visited == old(visited)
        invariant results == old(results) + found
        invariant CompleteUpTo(graph, current, end, path, outer, MAX_DEPTH - 1 - depth, i, found)
        invariant GoesOnBy(path, deps[..i], found) && (NoRepeatedDeps(graph) ==> NoRepeats(found))
      {
        var dep := deps[i];
        path := path + [dep];
        ghost var more := Explore(dep, depth + 1);
        CompleteNext(graph, current, end, old(path), outer, MAX_DEPTH - 1 - depth, i, found, more);
        path := path[..|path| - 1];
        assert path == old(path);
        OnceMore(path, deps, i, found, more);
        found := found + more;
      }
    }
  }

  /** Finds every path without repeated nodes that the depth limit allows, once if no dependency is listed twice. */
  method FindPaths(graph: Graph, start: DynKey, end: DynKey) returns (paths: seq<seq<Dep>>)
    ensures forall p :: p in paths <==> IsPath(graph, start, end, p) && |p| <= 999
    ensures NoRepeatedDeps(graph) ==> NoRepeats(paths)
  {
    var search := new Search(graph, end);
    ghost var found := search.Explore(start, 0);
    paths := search.results;
    assert [] + found == found;
    forall p ensures p in paths <==> IsPath(graph, start, end, p) && |p| <= 999 {
      assert [] + p == p;
      assert p[|search.path|..] == p;
      assert IsTail(graph, start, end, {}, 999, p) <==> IsPath(graph, start, end, p) && |p| <= 999;
    }
  }
}
