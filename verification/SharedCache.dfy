/**
 The shared cache of completed results and its lazily cleaned order queue.

 Every put appends a pair (key, insert id) to the queue; pairs of overwritten records stay there
 and are skipped when eviction reaches them. `Live` is the queue without its stale pairs: the
 cache behaves as the list of its live keys, ordered by their latest put.
 */
module SharedCache {
  import opened Keys

  /** The key of a record: the cache scope, the query kind and the encoded key. */
  datatype CacheKey = CacheKey(scope: nat, dynKey: DynKey)

  datatype Record = Record(value: Value, deps: seq<Dep>, changedAt: Revision, verifiedAt: Revision)

  datatype Stored = Stored(record: Record, insertId: nat)

  datatype Ticket = Ticket(key: CacheKey, insertId: nat)

  type Table = map<CacheKey, Stored>

  predicate IsLive(table: Table, t: Ticket) {
    t.key in table && table[t.key].insertId == t.insertId
  }

  /** The keys whose latest ticket is still in the queue, oldest put first. */
  function Live(table: Table, order: seq<Ticket>): (keys: seq<CacheKey>)
    ensures forall k | k in keys :: k in table
  {
    if order == [] then []
    else (if IsLive(table, order[0]) then [order[0].key] else []) + Live(table, order[1..])
  }

  /** Tickets carry distinct ids, and every cached record has its ticket in the queue. */
  ghost predicate Ordered(table: Table, order: seq<Ticket>, nextId: nat) {
    && (forall i, j | 0 <= i < j < |order| :: order[i].insertId < order[j].insertId)
    && (forall t | t in order :: t.insertId < nextId)
    && (forall k | k in table :: table[k].insertId < nextId && Ticket(k, table[k].insertId) in order)
  }

  // ---------------------------------------------------------------------------
  // The abstract list
  // ---------------------------------------------------------------------------

  function Without(keys: seq<CacheKey>, k: CacheKey): (rest: seq<CacheKey>)
    ensures k !in rest
    ensures forall x | x != k :: x in rest <==> x in keys
    ensures |rest| <= |keys|
  {
    if keys == [] then []
    else (if keys[0] == k then [] else [keys[0]]) + Without(keys[1..], k)
  }

  function MoveToBack(keys: seq<CacheKey>, k: CacheKey): seq<CacheKey> {
    Without(keys, k) + [k]
  }

  /** What one put does to the list: evict from the front down to `max`, then move the key to the back. */
  function PutList(keys: seq<CacheKey>, max: nat, k: CacheKey): seq<CacheKey> {
    MoveToBack(if |keys| <= max then keys else keys[|keys| - max..], k)
  }

  ghost predicate Distinct(keys: seq<CacheKey>) {
    forall i, j | 0 <= i < j < |keys| :: keys[i] != keys[j]
  }

  // ---------------------------------------------------------------------------
  // Facts about live tickets
  // ---------------------------------------------------------------------------

  lemma {:induction false} LiveHasKeys(table: Table, order: seq<Ticket>, k: CacheKey)
    ensures k in Live(table, order) <==> k in table && Ticket(k, table[k].insertId) in order
    decreases |order|
  {
    if order != [] {
      LiveHasKeys(table, order[1..], k);
      assert order == [order[0]] + order[1..];
    }
  }

  lemma {:induction false} LiveDistinct(table: Table, order: seq<Ticket>)
    requires forall i, j | 0 <= i < j < |order| :: order[i].insertId < order[j].insertId
    ensures Distinct(Live(table, order))
    decreases |order|
  {
    if order != [] {
      var t, rest := order[0], order[1..];
      LiveDistinct(table, rest);
      if IsLive(table, t) {
        LiveHasKeys(table, rest, t.key);
        assert Live(table, order) == [t.key] + Live(table, rest);
      } else {
        assert Live(table, order) == Live(table, rest);
      }
    }
  }

  lemma {:induction false} DistinctSize(table: Table, keys: seq<CacheKey>)
    requires Distinct(keys) && forall k :: k in keys <==> k in table
    ensures |keys| == |table|
    decreases |keys|
  {
    if keys == [] {
      assert table == map[];
    } else {
      var k, rest := keys[0], keys[1..];
      assert keys == [k] + rest;
      DistinctTail(keys);
      var smaller := table - {k};
      assert table.Keys == smaller.Keys + {k};
      DistinctSize(smaller, rest);
    }
  }

  /** The cache holds exactly the live keys, so it is as large as the list. */
  lemma {:induction false} LiveIsTable(table: Table, order: seq<Ticket>, nextId: nat)
    requires Ordered(table, order, nextId)
    ensures forall k :: k in Live(table, order) <==> k in table
    ensures |Live(table, order)| == |table|
    ensures Distinct(Live(table, order))
  {
    LiveDistinct(table, order);
    forall k ensures k in Live(table, order) <==> k in table {
      LiveHasKeys(table, order, k);
    }
    DistinctSize(table, Live(table, order));
  }

  /** Two tables that agree on which tickets of the queue are live list the same keys. */
  lemma {:induction false} LiveSame(a: Table, b: Table, order: seq<Ticket>)
    requires forall t | t in order :: IsLive(a, t) <==> IsLive(b, t)
    ensures Live(a, order) == Live(b, order)
    decreases |order|
  {
    if order != [] {
      assert order == [order[0]] + order[1..];
      LiveSame(a, b, order[1..]);
    }
  }

  /** Overwriting a key makes its old ticket stale and no other. */
  lemma {:induction false} LiveOverwrite(table: Table, order: seq<Ticket>, k: CacheKey, s: Stored)
    requires forall t | t in order :: t.insertId != s.insertId
    ensures Live(table[k := s], order) == Without(Live(table, order), k)
    decreases |order|
  {
    if order != [] {
      assert order == [order[0]] + order[1..];
      LiveOverwrite(table, order[1..], k, s);
      WithoutConcat(if IsLive(table, order[0]) then [order[0].key] else [], Live(table, order[1..]), k);
    }
  }

  lemma {:induction false} WithoutConcat(a: seq<CacheKey>, b: seq<CacheKey>, k: CacheKey)
    ensures Without(a + b, k) == Without(a, k) + Without(b, k)
    decreases |a|
  {
    if a == [] {
      assert a + b == b;
    } else {
      assert (a + b)[1..] == a[1..] + b;
      WithoutConcat(a[1..], b, k);
    }
  }

  lemma {:induction false} LiveAppend(table: Table, order: seq<Ticket>, t: Ticket)
    ensures Live(table, order + [t]) == Live(table, order) + (if IsLive(table, t) then [t.key] else [])
    decreases |order|
  {
    if order == [] {
      assert order + [t] == [t];
    } else {
      assert (order + [t])[1..] == order[1..] + [t];
      LiveAppend(table, order[1..], t);
    }
  }

  // ---------------------------------------------------------------------------
  // The cache
  // ---------------------------------------------------------------------------

  class Cache {
    var table: Table
    var order: seq<Ticket>
    var nextId: nat

    ghost predicate Valid()
      reads this
    {
      Ordered(table, order, nextId)
    }

    /** The live keys, least recently put first. */
    ghost function Keys(): seq<CacheKey>
      reads this
    {
      Live(table, order)
    }

    constructor ()
      ensures Valid() && table == map[] && order == [] && Keys() == []
    {
      table, order, nextId := map[], [], 1;
    }

    method Get(k: CacheKey) returns (r: Option<Record>)
      requires Valid()
      ensures r.Some? <==> k in Keys()
      ensures r.Some? ==> k in table && r.value == table[k].record
    {
      LiveHasKeys(table, order, k);
      r := if k in table then Some(table[k].record) else None;
    }

    /** One put, with the size limit read at its start. */
    method Put(k: CacheKey, record: Record, max: nat)
      requires Valid()
      modifies this
      ensures Valid()
      ensures Keys() == PutList(old(Keys()), max, k)
      ensures k in table && table[k].record == record
      ensures forall x | x in table && x != k :: x in old(table) && table[x] == old(table)[x]
      ensures |table| == |Keys()|
    {
      var id := nextId;
      nextId := nextId + 1;
      IssueTicket(table, order, k, id);
      order := order + [Ticket(k, id)];
      table, order := Evict(table, order, nextId, max, Ticket(k, id));
      StoreOrdered(table, order, k, Stored(record, id), nextId);
      StoreLive(table, order, k, Stored(record, id));
      table := table[k := Stored(record, id)];
      LiveSize(table, order, nextId);
    }
  }

  lemma {:induction false} IssueTicket(table: Table, order: seq<Ticket>, k: CacheKey, id: nat)
    requires Ordered(table, order, id)
    ensures Ordered(table, order + [Ticket(k, id)], id + 1)
    ensures !IsLive(table, Ticket(k, id))
    ensures Live(table, order + [Ticket(k, id)]) == Live(table, order)
  {
    LiveAppend(table, order, Ticket(k, id));
  }

  lemma StoreOrdered(table: Table, order: seq<Ticket>, k: CacheKey, s: Stored, nextId: nat)
    requires Ordered(table, order, nextId) && s.insertId < nextId && Ticket(k, s.insertId) in order
    ensures Ordered(table[k := s], order, nextId)
  {}

  lemma {:induction false} StoreLive(table: Table, order: seq<Ticket>, k: CacheKey, s: Stored)
    requires forall i, j | 0 <= i < j < |order| :: order[i].insertId < order[j].insertId
    requires order != [] && order[|order| - 1] == Ticket(k, s.insertId) && !IsLive(table, Ticket(k, s.insertId))
    ensures Live(table[k := s], order) == MoveToBack(Live(table, order), k)
  {
    var init, last := order[..|order| - 1], order[|order| - 1];
    assert order == init + [last];
    LiveAppend(table, init, last);
    LiveAppend(table[k := s], init, last);
    forall t | t in init ensures t.insertId != s.insertId {
      var i :| 0 <= i < |init| && init[i] == t;
      assert order[i].insertId < order[|order| - 1].insertId;
    }
    LiveOverwrite(table, init, k, s);
    assert Live(table, order) == Live(table, init);
    assert IsLive(table[k := s], last);
  }

  /** Pops tickets until the cache has room; only live ones remove a record. */
  method Evict(table0: Table, order0: seq<Ticket>, ghost nextId: nat, max: nat, ghost last: Ticket)
    returns (table: Table, order: seq<Ticket>)
    requires Ordered(table0, order0, nextId)
    requires order0 != [] && order0[|order0| - 1] == last && !IsLive(table0, last)
    ensures Evicting(table0, Live(table0, order0), table, order, nextId, last)
    ensures var size := |Live(table0, order0)|; |table| == if size <= max then size else max
  {
    table, order := table0, order0;
    ghost var keys := Live(table0, order0);
    EvictStart(table, order, nextId, last);
    while |table| > max
      invariant Evicting(table0, keys, table, order, nextId, last)
      invariant |table| == |keys| || |table| >= max
      decreases |order|
    {
      table, order := EvictFront(table0, keys, table, order, nextId, last);
    }
  }

  method EvictFront(
    ghost table0: Table, ghost keys: seq<CacheKey>, table: Table, order: seq<Ticket>, ghost nextId: nat,
    ghost last: Ticket)
    returns (after: Table, rest: seq<Ticket>)
    requires Evicting(table0, keys, table, order, nextId, last) && table != map[]
    ensures Evicting(table0, keys, after, rest, nextId, last)
    ensures |table| - 1 <= |after| <= |table| && |rest| == |order| - 1
  {
    var t := order[0];
    after := if IsLive(table, t) then table - {t.key} else table;
    EvictStep(table0, keys, table, order, nextId, last, after);
    rest := order[1..];
  }

  /** Midway through eviction: a suffix of the keys is left, with its records untouched. */
  ghost predicate Evicting(
    table0: Table, keys: seq<CacheKey>, table: Table, order: seq<Ticket>, nextId: nat, last: Ticket)
  {
    && Ordered(table, order, nextId)
    && order != [] && order[|order| - 1] == last && !IsLive(table, last)
    && (forall x | x in table :: x in table0 && table[x] == table0[x])
    && |table| <= |keys| && Live(table, order) == keys[|keys| - |table|..]
  }

  lemma {:induction false} EvictStart(table: Table, order: seq<Ticket>, nextId: nat, last: Ticket)
    requires Ordered(table, order, nextId)
    requires order != [] && order[|order| - 1] == last && !IsLive(table, last)
    ensures Evicting(table, Live(table, order), table, order, nextId, last)
    ensures |table| == |Live(table, order)|
  {
    LiveSize(table, order, nextId);
  }

  lemma {:induction false} EvictStep(
    table0: Table, keys: seq<CacheKey>, table: Table, order: seq<Ticket>, nextId: nat, last: Ticket, after: Table)
    requires Evicting(table0, keys, table, order, nextId, last) && table != map[]
    requires after == if IsLive(table, order[0]) then table - {order[0].key} else table
    ensures Evicting(table0, keys, after, order[1..], nextId, last)
    ensures |table| - 1 <= |after| <= |table|
  {
    PopOrdered(table, order, nextId, after);
    PopLive(table, order, nextId, after);
    SuffixPop(keys, table, order[0], after, Live(table, order), Live(after, order[1..]));
    PopKeepsLast(table, order, nextId, after);
  }

  lemma {:induction false} SuffixPop(
    keys: seq<CacheKey>, table: Table, t: Ticket, after: Table, live: seq<CacheKey>, liveAfter: seq<CacheKey>)
    requires |table| <= |keys| && live == keys[|keys| - |table|..]
    requires after == if IsLive(table, t) then table - {t.key} else table
    requires IsLive(table, t) ==> live != [] && liveAfter == live[1..]
    requires !IsLive(table, t) ==> liveAfter == live
    ensures |table| - 1 <= |after| <= |table|
    ensures liveAfter == keys[|keys| - |after|..]
  {
    if IsLive(table, t) {
      assert table.Keys == after.Keys + {t.key};
      SuffixTail(keys, |table|);
    }
  }

  lemma SuffixTail(keys: seq<CacheKey>, n: nat)
    requires 0 < n <= |keys|
    ensures keys[|keys| - n..][1..] == keys[|keys| - (n - 1)..]
  {}

  lemma {:induction false} LiveSize(table: Table, order: seq<Ticket>, nextId: nat)
    requires Ordered(table, order, nextId)
    ensures |Live(table, order)| == |table|
  {
    LiveIsTable(table, order, nextId);
  }

  /** While the cache is not empty there is a ticket behind the one popped. */
  lemma {:induction false} PopKeepsLast(table: Table, order: seq<Ticket>, nextId: nat, after: Table)
    requires Ordered(table, order, nextId) && order != [] && table != map[]
    requires !IsLive(table, order[|order| - 1])
    ensures 1 < |order|
  {
    var k :| k in table;
    assert Ticket(k, table[k].insertId) in order;
    assert IsLive(table, Ticket(k, table[k].insertId));
  }

  lemma {:induction false} PopOrdered(table: Table, order: seq<Ticket>, nextId: nat, after: Table)
    requires Ordered(table, order, nextId) && order != []
    requires after == if IsLive(table, order[0]) then table - {order[0].key} else table
    ensures Ordered(after, order[1..], nextId)
  {
    assert order == [order[0]] + order[1..];
    forall k | k in after ensures Ticket(k, after[k].insertId) in order[1..] {
      assert Ticket(k, table[k].insertId) in order;
    }
  }

  lemma {:induction false} PopLive(table: Table, order: seq<Ticket>, nextId: nat, after: Table)
    requires Ordered(table, order, nextId) && order != []
    requires after == if IsLive(table, order[0]) then table - {order[0].key} else table
    ensures Live(after, order[1..]) == if IsLive(table, order[0]) then Live(table, order)[1..] else Live(table, order)
  {
    var rest := order[1..];
    forall u | u in rest ensures IsLive(after, u) <==> IsLive(table, u) {
      var i :| 0 <= i < |rest| && rest[i] == u;
      assert order[0].insertId < order[i + 1].insertId;
    }
    LiveSame(table, after, rest);
  }

  // ---------------------------------------------------------------------------
  // Runs of puts with one limit
  // ---------------------------------------------------------------------------

  /** Distinct keys of a run of puts, ordered by latest put. */
  function Recent(puts: seq<CacheKey>): seq<CacheKey> {
    if puts == [] then [] else MoveToBack(Recent(puts[..|puts| - 1]), puts[|puts| - 1])
  }

  function PutAll(max: nat, puts: seq<CacheKey>): seq<CacheKey> {
    if puts == [] then [] else PutList(PutAll(max, puts[..|puts| - 1]), max, puts[|puts| - 1])
  }

  ghost predicate IsSuffix(a: seq<CacheKey>, b: seq<CacheKey>) {
    |a| <= |b| && b[|b| - |a|..] == a
  }

  lemma {:induction false} DistinctTail(keys: seq<CacheKey>)
    requires Distinct(keys) && keys != []
    ensures Distinct(keys[1..]) && keys[0] !in keys[1..]
  {
    forall i, j | 0 <= i < j < |keys[1..]| ensures keys[1..][i] != keys[1..][j] {
      assert keys[i + 1] != keys[j + 1];
    }
    forall i | 0 <= i < |keys[1..]| ensures keys[1..][i] != keys[0] {
      assert keys[0] != keys[i + 1];
    }
  }

  lemma {:induction false} WithoutSize(keys: seq<CacheKey>, k: CacheKey)
    requires Distinct(keys)
    ensures |Without(keys, k)| == if k in keys then |keys| - 1 else |keys|
    ensures Distinct(Without(keys, k))
    decreases |keys|
  {
    if keys != [] {
      DistinctTail(keys);
      WithoutSize(keys[1..], k);
      var rest := Without(keys[1..], k);
      assert keys == [keys[0]] + keys[1..];
      assert Distinct([keys[0]] + rest);
    }
  }

  /** Moving a key to the back of a list moves it to the back of every suffix. */
  lemma {:induction false} SuffixMoves(kept: seq<CacheKey>, recent: seq<CacheKey>, k: CacheKey)
    requires IsSuffix(kept, recent) && Distinct(recent)
    ensures IsSuffix(MoveToBack(kept, k), MoveToBack(recent, k))
    ensures Distinct(MoveToBack(recent, k))
    ensures |kept| <= |MoveToBack(kept, k)| <= |kept| + 1
    ensures kept == recent ==> MoveToBack(kept, k) == MoveToBack(recent, k)
  {
    var front := recent[..|recent| - |kept|];
    assert recent == front + kept;
    WithoutConcat(front, kept, k);
    WithoutSize(recent, k);
    forall i, j | 0 <= i < j < |kept| ensures kept[i] != kept[j] {
      assert recent[|front| + i] != recent[|front| + j];
    }
    WithoutSize(kept, k);
    assert MoveToBack(recent, k) == Without(front, k) + MoveToBack(kept, k);
  }

  lemma SuffixOfSuffix(held: seq<CacheKey>, recent: seq<CacheKey>, n: nat)
    requires IsSuffix(held, recent) && n <= |held|
    ensures IsSuffix(held[n..], recent)
  {}

  ghost predicate HoldsRecent(max: nat, held: seq<CacheKey>, recent: seq<CacheKey>) {
    && IsSuffix(held, recent)
    && Distinct(recent)
    && |held| <= max + 1
    && (|held| >= max || held == recent)
  }

  lemma {:induction false} HoldsRecentStep(max: nat, held: seq<CacheKey>, recent: seq<CacheKey>, k: CacheKey)
    requires HoldsRecent(max, held, recent)
    ensures HoldsRecent(max, PutList(held, max, k), MoveToBack(recent, k))
  {
    if |held| <= max {
      SuffixMoves(held, recent, k);
    } else {
      SuffixOfSuffix(held, recent, |held| - max);
      SuffixMoves(held[|held| - max..], recent, k);
    }
  }

  /** Under one limit the cache holds the `max` most recently put keys, and at most one more. */
  lemma {:induction false} HoldsMostRecent(max: nat, puts: seq<CacheKey>)
    ensures HoldsRecent(max, PutAll(max, puts), Recent(puts))
    decreases |puts|
  {
    if puts != [] {
      var earlier, k := puts[..|puts| - 1], puts[|puts| - 1];
      HoldsMostRecent(max, earlier);
      HoldsRecentStep(max, PutAll(max, earlier), Recent(earlier), k);
    }
  }

  datatype PutCall = PutCall(key: CacheKey, record: Record)

  function KeysOf(calls: seq<PutCall>): seq<CacheKey> {
    seq(|calls|, i requires 0 <= i < |calls| => calls[i].key)
  }

  /** The record of the last put of `k`. */
  function LastRecord(calls: seq<PutCall>, k: CacheKey): Option<Record> {
    if calls == [] then None
    else if calls[|calls| - 1].key == k then Some(calls[|calls| - 1].record)
    else LastRecord(calls[..|calls| - 1], k)
  }

  /** Any run of puts on an empty cache leaves the latest records of the most recently put keys. */
  method PutEach(calls: seq<PutCall>, max: nat) returns (cache: Cache)
    ensures cache.Valid()
    ensures HoldsRecent(max, cache.Keys(), Recent(KeysOf(calls)))
    ensures forall k | k in cache.table :: Some(cache.table[k].record) == LastRecord(calls, k)
  {
    cache := new Cache();
    for i := 0 to |calls|
      invariant cache.Valid() && fresh(cache)
      invariant cache.Keys() == PutAll(max, KeysOf(calls[..i]))
      invariant forall k | k in cache.table :: Some(cache.table[k].record) == LastRecord(calls[..i], k)
    {
      OneMoreCall(calls, i, max);
      cache.Put(calls[i].key, calls[i].record, max);
    }
    assert calls[..|calls|] == calls;
    HoldsMostRecent(max, KeysOf(calls));
  }

  lemma {:induction false} OneMoreCall(calls: seq<PutCall>, i: nat, max: nat)
    requires i < |calls|
    ensures PutAll(max, KeysOf(calls[..i + 1])) == PutList(PutAll(max, KeysOf(calls[..i])), max, calls[i].key)
    ensures forall k :: LastRecord(calls[..i + 1], k) ==
                        if k == calls[i].key then Some(calls[i].record) else LastRecord(calls[..i], k)
  {
    var earlier, all := calls[..i], calls[..i + 1];
    assert all[..|all| - 1] == earlier && all[|all| - 1] == calls[i];
    assert KeysOf(all)[..|all| - 1] == KeysOf(earlier);
    forall k ensures LastRecord(all, k) == if k == calls[i].key then Some(calls[i].record) else LastRecord(earlier, k) {
      LastRecordOf(all, k);
    }
  }

  lemma LastRecordOf(calls: seq<PutCall>, k: CacheKey)
    requires calls != []
    ensures LastRecord(calls, k) == if calls[|calls| - 1].key == k then Some(calls[|calls| - 1].record)
                                    else LastRecord(calls[..|calls| - 1], k)
  {}
}
