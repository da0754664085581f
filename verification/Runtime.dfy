/**
 The runtime of one view: its revision counter, the forward and reverse dependency maps, and
 the events it emits. Events are kept as the sequence that was sent.
 */
module RuntimeState {
  import opened Keys

  datatype Event =
    | RevisionBumped(revision: Revision)
    | RevisionSet(revision: Revision)
    | InputSet(revision: Revision, key: DynKey)
    | InputRemoved(revision: Revision, key: DynKey)
    | QueryInvalidated(revision: Revision, query: DynKey, source: DynKey)
    | QueryChanged(revision: Revision, query: DynKey)

  type Forward = map<DynKey, seq<Dep>>
  type Reverse = map<DynKey, set<DynKey>>

  /** The queries whose recorded dependencies mention `d`. */
  ghost function Readers(forward: Forward, d: DynKey): set<DynKey> {
    set q | q in forward && d in forward[q]
  }

  function Dependents(reverse: Reverse, d: DynKey): set<DynKey> {
    if d in reverse then reverse[d] else {}
  }

  ghost predicate NoEmptySets(reverse: Reverse) {
    forall d | d in reverse :: reverse[d] != {}
  }

  /** The reverse map is the exact transpose of the forward map and stores no empty set. */
  ghost predicate Transposed(forward: Forward, reverse: Reverse) {
    && NoEmptySets(reverse)
    && forall d: DynKey :: Dependents(reverse, d) == Readers(forward, d)
  }

  /** The transpose is determined by the forward map: nothing else can be stored. */
  lemma {:induction false} TransposeIsUnique(forward: Forward, r1: Reverse, r2: Reverse)
    requires Transposed(forward, r1) && Transposed(forward, r2)
    ensures r1 == r2
  {
    forall d: DynKey ensures (d in r1 <==> d in r2) && (d in r1 ==> r1[d] == r2[d]) {
      assert Dependents(r1, d) == Dependents(r2, d);
    }
  }

  // ---------------------------------------------------------------------------
  // Reachability along reverse edges
  // ---------------------------------------------------------------------------

  ghost predicate IsWalk(reverse: Reverse, walk: seq<DynKey>) {
    && 0 < |walk|
    && forall i | 0 <= i < |walk| - 1 :: walk[i + 1] in Dependents(reverse, walk[i])
  }

  ghost predicate Reaches(reverse: Reverse, source: DynKey, target: DynKey) {
    exists walk: seq<DynKey> :: IsWalk(reverse, walk) && walk[0] == source && walk[|walk| - 1] == target
  }

  lemma {:induction false} ReachesSelf(reverse: Reverse, source: DynKey)
    ensures Reaches(reverse, source, source)
  {
    assert IsWalk(reverse, [source]) && [source][0] == source && [source][|[source]| - 1] == source;
  }

  lemma {:induction false} ReachesNext(reverse: Reverse, source: DynKey, mid: DynKey, target: DynKey)
    requires Reaches(reverse, source, mid) && target in Dependents(reverse, mid)
    ensures Reaches(reverse, source, target)
  {
    var walk :| IsWalk(reverse, walk) && walk[0] == source && walk[|walk| - 1] == mid;
    var longer := walk + [target];
    assert IsWalk(reverse, longer) && longer[0] == source && longer[|longer| - 1] == target;
  }

  /** A set closed under reverse edges holds everything reachable from its members. */
  lemma {:induction false} ClosedHoldsWalks(reverse: Reverse, closed: set<DynKey>, walk: seq<DynKey>)
    requires forall n | n in closed :: Dependents(reverse, n) <= closed
    requires IsWalk(reverse, walk) && walk[0] in closed
    ensures walk[|walk| - 1] in closed
    decreases |walk|
  {
    if 1 < |walk| {
      var rest := walk[1..];
      assert walk[0 + 1] in Dependents(reverse, walk[0]);
      forall i | 0 <= i < |rest| - 1 ensures rest[i + 1] in Dependents(reverse, rest[i]) {
        var j := i + 1;
        assert walk[j + 1] in Dependents(reverse, walk[j]);
      }
      ClosedHoldsWalks(reverse, closed, rest);
    }
  }

  /** `emitted` lists everything reachable from `source` except `source`, each key once. */
  ghost predicate Invalidates(reverse: Reverse, source: DynKey, emitted: seq<DynKey>) {
    && (forall i, j | 0 <= i < j < |emitted| :: emitted[i] != emitted[j])
    && (forall k: DynKey :: k in emitted <==> k != source && Reaches(reverse, source, k))
  }

  function Invalidation(revision: Revision, source: DynKey, query: DynKey): Event {
    QueryInvalidated(revision, query, source)
  }

  function Invalidations(revision: Revision, source: DynKey, emitted: seq<DynKey>): (events: seq<Event>)
    ensures |events| == |emitted|
    ensures forall i | 0 <= i < |emitted| :: events[i] == Invalidation(revision, source, emitted[i])
  {
    seq(|emitted|, i requires 0 <= i < |emitted| => Invalidation(revision, source, emitted[i]))
  }

  // ---------------------------------------------------------------------------
  // One edge at a time
  // ---------------------------------------------------------------------------

  function WithoutReader(reverse: Reverse, d: DynKey, query: DynKey): (r: Reverse)
    requires NoEmptySets(reverse)
    ensures NoEmptySets(r)
    ensures forall e: DynKey ::
              Dependents(r, e) == if e == d then Dependents(reverse, e) - {query} else Dependents(reverse, e)
  {
    if d !in reverse then reverse
    else if reverse[d] - {query} == {} then reverse - {d}
    else reverse[d := reverse[d] - {query}]
  }

  function WithReader(reverse: Reverse, d: DynKey, query: DynKey): (r: Reverse)
    requires NoEmptySets(reverse)
    ensures NoEmptySets(r)
    ensures forall e: DynKey ::
              Dependents(r, e) == if e == d then Dependents(reverse, e) + {query} else Dependents(reverse, e)
  {
    reverse[d := Dependents(reverse, d) + {query}]
  }

  lemma ReadersAfterUpdate(forward: Forward, query: DynKey, deps: seq<Dep>, d: DynKey)
    ensures Readers(forward[query := deps], d) ==
            if d in deps then Readers(forward, d) + {query} else Readers(forward, d) - {query}
  {}

  /** Mid-walk: everything in `seen` is reachable and `emitted` lists it once, bar the source. */
  ghost predicate Visited(reverse: Reverse, source: DynKey, seen: set<DynKey>, emitted: seq<DynKey>) {
    && source in seen
    && (forall n | n in seen :: Reaches(reverse, source, n))
    && (forall i, j | 0 <= i < j < |emitted| :: emitted[i] != emitted[j])
    && (forall n: DynKey :: n in emitted <==> n in seen && n != source)
  }

  lemma {:induction false} VisitedGrows(
    reverse: Reverse, source: DynKey, seen: set<DynKey>, emitted: seq<DynKey>, node: DynKey, next: DynKey)
    requires Visited(reverse, source, seen, emitted)
    requires node in seen && next in Dependents(reverse, node) && next !in seen
    ensures Visited(reverse, source, seen + {next}, emitted + [next])
  {
    ReachesNext(reverse, source, node, next);
  }

  /** Mid-walk: every seen node that is neither queued nor `current` has all its dependents seen. */
  ghost predicate Expanded(reverse: Reverse, seen: set<DynKey>, queue: seq<DynKey>, current: set<DynKey>) {
    && (forall n | n in queue :: n in seen)
    && (forall n | n in seen && n !in queue && n !in current :: Dependents(reverse, n) <= seen)
  }

  lemma {:induction false} VisitedStart(reverse: Reverse, source: DynKey)
    ensures Visited(reverse, source, {source}, [])
    ensures Expanded(reverse, {source}, [source], {})
  {
    ReachesSelf(reverse, source);
  }

  lemma {:induction false} ExpandedPop(reverse: Reverse, seen: set<DynKey>, queue: seq<DynKey>)
    requires Expanded(reverse, seen, queue, {}) && queue != []
    ensures queue[0] in seen && Expanded(reverse, seen, queue[1..], {queue[0]})
  {
    assert queue == [queue[0]] + queue[1..];
  }

  lemma {:induction false} VisitedAll(reverse: Reverse, source: DynKey, seen: set<DynKey>, emitted: seq<DynKey>)
    requires Visited(reverse, source, seen, emitted) && Expanded(reverse, seen, [], {})
    ensures Invalidates(reverse, source, emitted)
  {
    forall k: DynKey | Reaches(reverse, source, k) ensures k in seen {
      var walk :| IsWalk(reverse, walk) && walk[0] == source && walk[|walk| - 1] == k;
      ClosedHoldsWalks(reverse, seen, walk);
    }
  }

  ghost function AllDependents(reverse: Reverse): (all: set<DynKey>)
    ensures forall d: DynKey :: Dependents(reverse, d) <= all
  {
    set d, q | d in reverse && q in reverse[d] :: q
  }

  /** Midway through an update: sets in `pending` still describe `was`, all others `now`. */
  ghost predicate Updating(was: Forward, now: Forward, reverse: Reverse, pending: set<DynKey>) {
    && NoEmptySets(reverse)
    && forall d: DynKey :: Dependents(reverse, d) == if d in pending then Readers(was, d) else Readers(now, d)
  }

  method ForgetReader(reverse: Reverse, query: DynKey, gone: set<Dep>, ghost added: set<Dep>,
                      ghost was: Forward, ghost now: Forward) returns (r: Reverse)
    requires Updating(was, now, reverse, gone + added) && gone !! added
    requires forall d | d in gone :: Readers(now, d) == Readers(was, d) - {query}
    ensures Updating(was, now, r, added)
  {
    r := reverse;
    var pending := gone;
    assert Updating(was, now, r, pending + added);
    while pending != {}
      invariant pending <= gone
      invariant Updating(was, now, r, pending + added)
      decreases pending
    {
      var d :| d in pending;
      pending := pending - {d};
      r := WithoutReader(r, d, query);
    }
    assert pending + added == added;
  }

  method RecordReader(reverse: Reverse, query: DynKey, added: set<Dep>,
                      ghost was: Forward, ghost now: Forward) returns (r: Reverse)
    requires Updating(was, now, reverse, added)
    requires forall d | d in added :: Readers(now, d) == Readers(was, d) + {query}
    ensures Updating(was, now, r, {})
  {
    r := reverse;
    var pending := added;
    while pending != {}
      invariant pending <= added
      invariant Updating(was, now, r, pending)
      decreases pending
    {
      var d :| d in pending;
      pending := pending - {d};
      r := WithReader(r, d, query);
    }
  }

  /** Announces and enqueues the dependents of `node` that were not seen before. */
  method VisitDependents(
    reverse: Reverse, source: DynKey, node: DynKey, seen0: set<DynKey>, queue0: seq<DynKey>,
    ghost emitted0: seq<DynKey>)
    returns (seen: set<DynKey>, queue: seq<DynKey>, found: seq<DynKey>)
    requires Visited(reverse, source, seen0, emitted0) && node in seen0
    requires Expanded(reverse, seen0, queue0, {node})
    ensures Visited(reverse, source, seen, emitted0 + found)
    ensures Expanded(reverse, seen, queue, {})
    ensures seen0 <= seen <= seen0 + Dependents(reverse, node)
    ensures seen == seen0 ==> queue == queue0
  {
    seen, queue, found := seen0, queue0, [];
    assert emitted0 + found == emitted0;
    var dependents := Dependents(reverse, node);
    var pending := dependents;
    while pending != {}
      invariant pending <= dependents && dependents - pending <= seen
      invariant seen0 <= seen <= seen0 + dependents
      invariant seen == seen0 ==> queue == queue0
      invariant Visited(reverse, source, seen, emitted0 + found)
      invariant Expanded(reverse, seen, queue, {node})
      decreases pending
    {
      var dependent :| dependent in pending;
      pending := pending - {dependent};
      if dependent !in seen {
        VisitedGrows(reverse, source, seen, emitted0 + found, node, dependent);
        assert emitted0 + found + [dependent] == emitted0 + (found + [dependent]);
        seen := seen + {dependent};
        found := found + [dependent];
        queue := queue + [dependent];
      }
    }
  }

  /** Breadth-first walk over reverse edges, listing the nodes in the order they are announced. */
  method WalkDependents(reverse: Reverse, source: DynKey) returns (emitted: seq<DynKey>)
    ensures Invalidates(reverse, source, emitted)
  {
    var queue := [source];
    var seen := {source};
    emitted := [];
    VisitedStart(reverse, source);
    ghost var universe := {source} + AllDependents(reverse);
    while queue != []
      invariant seen <= universe
      invariant Visited(reverse, source, seen, emitted)
      invariant Expanded(reverse, seen, queue, {})
      decreases universe - seen, |queue|
    {
      var node := queue[0];
      ExpandedPop(reverse, seen, queue);
      var found;
      ghost var seenBefore := seen;
      seen, queue, found := VisitDependents(reverse, source, node, seen, queue[1..], emitted);
      assert seen <= universe;
      assert seen == seenBefore || universe - seen < universe - seenBefore;
      emitted := emitted + found;
    }
    VisitedAll(reverse, source, seen, emitted);
  }

  class Runtime {
    var currentRevision: Revision
    var depsByQuery: Forward
    var reverseDeps: Reverse
    var events: seq<Event>

    ghost predicate Valid()
      reads this
    {
      Transposed(depsByQuery, reverseDeps)
    }

    constructor ()
      ensures Valid() && currentRevision == 0 && depsByQuery == map[] && events == []
    {
      currentRevision, depsByQuery, reverseDeps, events := 0, map[], map[], [];
    }

    method BumpRevision() returns (revision: Revision)
      modifies this`currentRevision, this`events
      ensures revision == currentRevision == old(currentRevision) + 1
      ensures events == old(events) + [RevisionBumped(revision)]
    {
      currentRevision := currentRevision + 1;
      revision := currentRevision;
      events := events + [RevisionBumped(revision)];
    }

    method SetCurrentRevision(revision: Revision)
      modifies this`currentRevision, this`events
      ensures currentRevision == revision
      ensures events == old(events) + [RevisionSet(revision)]
    {
      currentRevision := revision;
      events := events + [RevisionSet(revision)];
    }

    /** Replaces the edges of `query`, touching only the reverse sets that can change. */
    method UpdateQueryDeps(query: DynKey, deps: seq<Dep>)
      requires Valid()
      modifies this`depsByQuery, this`reverseDeps
      ensures Valid()
      ensures depsByQuery == old(depsByQuery)[query := deps]
    {
      ghost var was := depsByQuery;
      var oldSet := if query in depsByQuery then set d | d in depsByQuery[query] else {};
      var newSet := set d | d in deps;
      depsByQuery := depsByQuery[query := deps];
      ghost var now := depsByQuery;

      forall d: DynKey {
        ReadersAfterUpdate(was, query, deps, d);
      }
      reverseDeps := ForgetReader(reverseDeps, query, oldSet - newSet, newSet, was, now);
      reverseDeps := RecordReader(reverseDeps, query, newSet, was, now);
    }

    method ClearDependencyGraph()
      modifies this`depsByQuery, this`reverseDeps
      ensures Valid() && depsByQuery == map[]
    {
      depsByQuery, reverseDeps := map[], map[];
    }

    method NotifyQueryChanged(revision: Revision, query: DynKey)
      modifies this`events
      ensures events == old(events) + [QueryChanged(revision, query)]
    {
      events := events + [QueryChanged(revision, query)];
    }

    method PropagateInvalidation(revision: Revision, source: DynKey) returns (emitted: seq<DynKey>)
      modifies this`events
      ensures Invalidates(reverseDeps, source, emitted)
      ensures events == old(events) + Invalidations(revision, source, emitted)
    {
      emitted := WalkDependents(reverseDeps, source);
      events := events + Invalidations(revision, source, emitted);
    }

    method NotifyInputSet(revision: Revision, key: DynKey) returns (emitted: seq<DynKey>)
      modifies this`events
      ensures Invalidates(reverseDeps, key, emitted)
      ensures events == old(events) + [InputSet(revision, key)] + Invalidations(revision, key, emitted)
    {
      events := events + [InputSet(revision, key)];
      emitted := PropagateInvalidation(revision, key);
    }

    method NotifyInputRemoved(revision: Revision, key: DynKey) returns (emitted: seq<DynKey>)
      modifies this`events
      ensures Invalidates(reverseDeps, key, emitted)
      ensures events == old(events) + [InputRemoved(revision, key)] + Invalidations(revision, key, emitted)
    {
      events := events + [InputRemoved(revision, key)];
      emitted := PropagateInvalidation(revision, key);
    }
  }
}
