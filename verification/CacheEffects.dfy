/** What each call of the cache leaves in its layers, in the index and in the counters, and where an
    answer comes from, for stores in any state, coherent or not. */
module CacheEffects {
  import opened Prelude
  import opened BaseCache
  import opened CacheCoherence

  /** The two layers agree on every key but one. */
  predicate SameBut<C(==)>(a: map<Key, C>, b: map<Key, C>, k: Key) { a - {k} == b - {k} }

  // ---------------------------------------------------------------- single lookups

  /** `get` asks memory, then Redis, then the table, and stops at the first that knows the key; what a
      lower layer answers it writes into the layers above. The request is counted once, and as a hit of
      the layer that answered. */
  lemma LookupGoesDownTheLayers<T, C>(cfg: Config<T, C>, s: Store<T, C>, k: Key, calls: GetCalls)
    ensures var a, s' := GetAnswer(cfg, s, k, calls), AfterGet(cfg, s, k, calls);
            var inMemory := cfg.l2 && k in s.memory;
            var inRedis := !inMemory && calls.redisRead && k in s.redis;
            var inTable := !inMemory && !inRedis && calls.rowRead && k.id in s.rows;
            && (inMemory ==> a == Some(Some(s.memory[k])))
            && (inRedis ==> a == Some(Some(s.redis[k])))
            && (inTable ==> a == Some(Some(cfg.transform(s.rows[k.id]))))
            && (!inMemory && !inRedis && !inTable && calls.rowRead ==> a == Some(None))
            && (a.None? <==> !inMemory && !inRedis && !calls.rowRead && !calls.secondRead)
            && s'.rows == s.rows && s'.index == s.index && SameBut(s'.redis, s.redis, k) && SameBut(s'.memory, s.memory, k)
            && (k in s'.redis <==> k in s.redis || (inTable && calls.redisWrite))
            && (k in s'.memory <==> k in s.memory || (cfg.l2 && (inRedis || inTable)))
            && (inTable && calls.redisWrite ==> a == Some(Some(s'.redis[k])))
            && (cfg.l2 && (inRedis || inTable) ==> a == Some(Some(s'.memory[k])))
    ensures var st, st' := s.stats, AfterGet(cfg, s, k, calls).stats;
            var inMemory := cfg.l2 && k in s.memory;
            var inRedis := !inMemory && calls.redisRead && k in s.redis;
            && st'.totalRequests == st.totalRequests + 1
            && st'.l2Hits == st.l2Hits + (if inMemory then 1 else 0)
            && st'.l2Misses == st.l2Misses + (if cfg.l2 && !inMemory then 1 else 0)
            && st'.l1Hits == st.l1Hits + (if inRedis then 1 else 0)
            && st'.l1Misses == st.l1Misses + (if !inMemory && !inRedis then 1 else 0)
            && st'.databaseHits == st.databaseHits + (if !inMemory && !inRedis && calls.rowRead && k.id in s.rows then 1 else 0)
  {
  }

  // ---------------------------------------------------------------- batches

  lemma {:induction false} ValuesCount<C>(layer: map<Key, C>, scope: Scope, ids: seq<Id>)
    ensures |Values(layer, scope, ids)| == |Held(layer, scope, ids)|
    decreases |ids|
  {
    if ids != [] { ValuesCount(layer, scope, ids[..|ids| - 1]); }
  }

  /** The ids of the request that are in the table and in no layer that was asked. */
  ghost function OnlyInTable<T, C>(cfg: Config<T, C>, s: Store<T, C>, scope: Scope, ids: seq<Id>): set<Id> {
    set id | id in ids && !(cfg.l2 && Key(scope, id) in s.memory) && Key(scope, id) !in s.redis && id in s.rows
  }

  lemma LastIsTheTable<T, C>(cfg: Config<T, C>, s: Store<T, C>, scope: Scope, ids: seq<Id>, calls: BatchCalls)
    requires Lists(calls.listing, s.rows)
    ensures var still := Missing(s.redis, scope, Missing(L2Of(cfg, s), scope, ids));
            |Select(calls.listing, still)| == |OnlyInTable(cfg, s, scope, ids)|
  {
    var rest := Missing(L2Of(cfg, s), scope, ids);
    var still := Missing(s.redis, scope, rest);
    HeldAndMissing(L2Of(cfg, s), scope, ids);
    HeldAndMissing(s.redis, scope, rest);
    SelectDistinct(calls.listing, still);
    SetSize(Select(calls.listing, still));
    assert Set(Select(calls.listing, still)) == OnlyInTable(cfg, s, scope, ids);
  }

  lemma BelowCounts<T, C>(cfg: Config<T, C>, s: Store<T, C>, scope: Scope, rest: seq<Id>, calls: BatchCalls)
    requires BelowAnswer(cfg, s, scope, rest, calls).Some? && Lists(calls.listing, s.rows)
    ensures var st, st' := s.stats, AfterBelow(cfg, s, scope, rest, calls).stats;
            var table := |Select(calls.listing, Missing(s.redis, scope, rest))|;
            && st' == st.(l1Hits := st'.l1Hits, l1Misses := st'.l1Misses, databaseHits := st.databaseHits + table)
            && st'.l1Hits - st.l1Hits + st'.l1Misses - st.l1Misses == |rest|
            && |BelowAnswer(cfg, s, scope, rest, calls).value| == st'.l1Hits - st.l1Hits + table
  {
    HeldAndMissing(s.redis, scope, rest);
    ValuesCount(s.redis, scope, rest);
    if rest == [] { SelectNone(calls.listing); }
  }

  /** The counters of a batch that answers: each requested id was a hit or a miss of memory, each miss a
      hit or a miss of Redis, and the table counts the rows it had to give; the answer has one value for
      each hit. */
  lemma BatchCountsItsHits<T, C>(cfg: Config<T, C>, s: Store<T, C>, scope: Scope, ids: seq<Id>, calls: BatchCalls)
    requires Lists(calls.listing, s.rows) && BatchAnswer(cfg, s, scope, ids, calls).Some?
    ensures var st, st' := s.stats, AfterBatch(cfg, s, scope, ids, calls).stats;
            && st'.totalRequests == st.totalRequests + |ids|
            && (if cfg.l2 then st'.l2Hits - st.l2Hits + st'.l2Misses - st.l2Misses == |ids|
                else st'.l2Hits == st.l2Hits && st'.l2Misses == st.l2Misses)
            && st'.l1Hits - st.l1Hits + st'.l1Misses - st.l1Misses == |ids| - (st'.l2Hits - st.l2Hits)
            && st'.databaseHits == st.databaseHits + |OnlyInTable(cfg, s, scope, ids)|
            && |BatchAnswer(cfg, s, scope, ids, calls).value| == Hits(st') - Hits(st)
  {
    var l2, s1 := L2Of(cfg, s), AfterMemory(cfg, s, scope, ids);
    var rest := Missing(l2, scope, ids);
    assert |Held(l2, scope, ids)| + |rest| == |ids| by { HeldAndMissing(l2, scope, ids); }
    assert !cfg.l2 ==> Held(l2, scope, ids) == [] by { NothingHeld<C>(scope, ids); }
    ValuesCount(l2, scope, ids);
    assert BelowAnswer(cfg, s1, scope, rest, calls) == BelowAnswer(cfg, s, scope, rest, calls);
    BelowCounts(cfg, s1, scope, rest, calls);
    LastIsTheTable(cfg, s, scope, ids, calls);
  }

  /** What a batch that answers has cached: what Redis knew is in memory as well, and what only the table
      knew is in both, save for Redis writes that were lost. Nothing else changes. */
  lemma BatchFillsTheLayers<T, C>(cfg: Config<T, C>, s: Store<T, C>, scope: Scope, ids: seq<Id>, calls: BatchCalls, k: Key)
    requires Lists(calls.listing, s.rows) && BatchAnswer(cfg, s, scope, ids, calls).Some?
    ensures var s' := AfterBatch(cfg, s, scope, ids, calls);
            var asked := k.scope == scope && k.id in ids && !(cfg.l2 && k in s.memory);
            var fromTable := asked && k !in s.redis && k.id in s.rows;
            && s'.rows == s.rows && s'.index == s.index
            && (k in s'.redis <==> k in s.redis || (fromTable && k.id !in calls.lost))
            && (k in s'.redis ==> s'.redis[k] == if k in s.redis then s.redis[k] else cfg.transform(s.rows[k.id]))
            && (k in s'.memory <==> k in s.memory || (cfg.l2 && asked && (k in s.redis || fromTable)))
            && (k in s'.memory && cfg.l2 && asked ==>
                  s'.memory[k] == if k in s.redis then s.redis[k] else cfg.transform(s.rows[k.id]))
            && (k in s'.memory && !(cfg.l2 && asked) ==> s'.memory[k] == s.memory[k])
  {
    var l2 := L2Of(cfg, s);
    var rest := Missing(l2, scope, ids);
    var still := Missing(s.redis, scope, rest);
    HeldAndMissing(l2, scope, ids);
    HeldAndMissing(s.redis, scope, rest);
    var found := Select(calls.listing, still);
    assert k.scope == scope ==> Key(scope, k.id) == k;
    LoadedAt(s.memory, s.redis, scope, rest, k);
    var memory := if cfg.l2 then Loaded(s.memory, s.redis, scope, rest) else s.memory;
    WithRowsAt(cfg, s.redis, s.rows, scope, found, calls.lost, k);
    WithRowsAt(cfg, memory, s.rows, scope, found, {}, k);
    if rest == [] { SelectNone(calls.listing); }
  }

  // ---------------------------------------------------------------- getAll

  /** How many of `n` ids a limit leaves; zero is no limit. */
  function Upto(n: nat, limit: nat): (m: nat)
    ensures m <= n && (limit > 0 ==> m <= limit)
  {
    if limit == 0 || n < limit then n else limit
  }

  /** `getAll` with a limit: the first so many ids of the index, as far as they exist, or if the index is
      empty the first so many rows of the table. */
  lemma LimitedAll<T, C>(cfg: Config<T, C>, s: Store<T, C>, scope: Scope, limit: nat, calls: AllCalls)
    returns (order: seq<Id>)
    requires Coherent(cfg, s, scope) && Legal(s, Call(scope, GetAll(limit, calls))) && AllWorks(cfg, s, scope, limit, calls)
    ensures AllAnswer(cfg, s, scope, limit, calls) == RowValues(cfg, s.rows, order)
    ensures if calls.members == [] then order == calls.batch.listing[..Upto(|calls.batch.listing|, limit)]
            else Distinct(order)
                 && forall x :: x in order <==> x in s.rows && x in calls.members[..Upto(|calls.members|, limit)]
  {
    if calls.members == [] {
      order := Fallback(s, limit, calls);
    } else {
      assert calls.members[0] in Set(calls.members);
      var ids := Limited(calls.members, limit);
      assert ids == calls.members[..Upto(|calls.members|, limit)];
      order := BatchIsComplete(cfg, s, scope, ids, calls.batch);
    }
  }

  /** When the index is empty, or its key was not a set and has been dropped, `getAll` makes it list the
      rows that it read, and caches them; the key that stood in its place is gone. */
  lemma FallingBackRefillsTheCache<T, C>(cfg: Config<T, C>, s: Store<T, C>, scope: Scope, calls: AllCalls, id: Id)
    requires Legal(s, Call(scope, GetAll(0, calls))) && calls.members == [] && AllWorks(cfg, s, scope, 0, calls)
    requires id in s.rows && id !in calls.batch.lost && id != "index"
    ensures var s' := AfterAll(cfg, s, scope, 0, calls);
            && s'.rows == s.rows
            && (forall x :: x in Indexed(s', scope) <==> x in s.rows)
            && Key(scope, id) in s'.redis && s'.redis[Key(scope, id)] == cfg.transform(s.rows[id])
            && (cfg.l2 ==> Key(scope, id) in s'.memory && s'.memory[Key(scope, id)] == cfg.transform(s.rows[id]))
            && (calls.smembers.WrongType? && "index" !in s.rows ==> Key(scope, "index") !in s'.redis)
  {
    var t := if calls.smembers.WrongType? then IndexKeyDropped(s, scope) else s;
    assert Set(calls.members) == {};
    assert Indexed(t, scope) == {};
    var ids := calls.batch.listing;
    assert Fallback(t, 0, calls) == ids && id in ids;
    WithRowsAt(cfg, t.redis, s.rows, scope, ids, calls.batch.lost, Key(scope, id));
    WithRowsAt(cfg, t.redis, s.rows, scope, ids, calls.batch.lost, Key(scope, "index"));
    WithRowsAt(cfg, t.memory, s.rows, scope, ids, {}, Key(scope, id));
  }

  /** A fallback that breaks off answers nothing. It has changed nothing if the read of the table or the
      index write failed; it has written the index, and neither layer, if only an acknowledgement or the
      expiry failed. A key of the wrong type is gone as soon as its delete arrives. */
  lemma BrokenFallback<T, C>(cfg: Config<T, C>, s: Store<T, C>, scope: Scope, calls: AllCalls)
    requires Legal(s, Call(scope, GetAll(0, calls))) && calls.members == [] && !AllWorks(cfg, s, scope, 0, calls)
    ensures var s' := AfterAll(cfg, s, scope, 0, calls);
            var dropped := calls.smembers.WrongType? && calls.smembers.del != Failed;
            var asked := calls.smembers.Listed? || calls.smembers == WrongType(Ok);
            && AllAnswer(cfg, s, scope, 0, calls) == []
            && s'.rows == s.rows && s'.memory == s.memory && s'.stats == s.stats
            && s'.redis == (if dropped then s.redis - {Key(scope, "index")} else s.redis)
            && (forall x :: x in Indexed(s', scope) <==> x in s.rows && asked && calls.rowRead && calls.sadd != Failed)
  {
    assert Set(calls.members) == {};
    assert calls.rowRead ==> Fallback(s, 0, calls) == calls.batch.listing;
    if calls.batch.listing != [] { assert calls.batch.listing[0] in s.rows; }
    assert forall x :: x in calls.batch.listing <==> x in s.rows;
  }

  // ---------------------------------------------------------------- writes

  /** A save writes the row; the copy goes into memory, and into Redis and the index as far as their
      writes arrive; nothing else changes. */
  lemma SaveWrites<T, C>(cfg: Config<T, C>, s: Store<T, C>, scope: Scope, row: T, calls: SetCalls)
    ensures var s', id := Step(cfg, s, Call(scope, Save(row, calls))), cfg.idOf(row);
            var k := Key(scope, id);
            && s'.rows == s.rows[id := row] && s'.stats == s.stats
            && SameBut(s'.redis, s.redis, k) && SameBut(s'.memory, s.memory, k)
            && (if calls.redisWrite then k in s'.redis && s'.redis[k] == cfg.transform(row) else s'.redis == s.redis)
            && (if cfg.l2 then k in s'.memory && s'.memory[k] == cfg.transform(row) else s'.memory == s.memory)
            && (forall x :: x in Indexed(s', scope) <==> x in Indexed(s, scope) || (x == id && calls.indexWrite))
  {
  }

  /** An invalidation drops the copies and the index entry of one id. When its delete throws nothing
      follows: memory and index stay, and Redis is without the copy only if the delete had arrived. */
  lemma InvalidationDrops<T, C>(cfg: Config<T, C>, s: Store<T, C>, k: Key, calls: InvalidateCalls)
    ensures var s' := AfterInvalidate(cfg, s, k, calls);
            && s'.rows == s.rows && s'.stats == s.stats
            && s'.redis == (if calls.del == Failed then s.redis else s.redis - {k})
            && s'.memory == (if calls.del == Ok && cfg.l2 then s.memory - {k} else s.memory)
            && (forall scope, x :: x in Indexed(s', scope) <==>
                  x in Indexed(s, scope) && !(scope == k.scope && x == k.id && calls.del == Ok && calls.srem))
  {
  }

  /** Invalidating a scope drops the copies of the ids that the index lists, and no others; the index goes
      last, and only if nothing threw before. */
  lemma ClearDrops<T, C>(cfg: Config<T, C>, s: Store<T, C>, scope: Scope, calls: ClearCalls, k: Key)
    ensures var s' := AfterClear(cfg, s, scope, calls);
            var listed := k.scope == scope && k.id in Indexed(s, scope);
            var reached := calls.smembers && (Indexed(s, scope) == {} || calls.delKeys == Ok);
            && s'.rows == s.rows && s'.stats == s.stats
            && (k in s'.redis <==> k in s.redis && !(listed && calls.smembers && calls.delKeys != Failed))
            && (k in s'.memory <==> k in s.memory && !(listed && reached && cfg.l2))
            && (k in s'.redis ==> s'.redis[k] == s.redis[k]) && (k in s'.memory ==> s'.memory[k] == s.memory[k])
            && Indexed(s', scope) == (if reached && calls.delIndex != Failed then {} else Indexed(s, scope))
  {
    assert k in KeysOf(scope, Indexed(s, scope)) <==> k.scope == scope && k.id in Indexed(s, scope);
  }
}
