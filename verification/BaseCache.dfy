/** The cache every entity service builds on: `BaseCacheService`. A memory layer local to the
    instance sits in front of a Redis layer, both in front of the table; an id index per scope
    lists what `getAll` serves. One operation runs at a time and one instance is modelled. */
module BaseCache {
  import opened Prelude

  type Id = string
  type Scope = string

  /** A value key. `CacheKeys` shows that its rendering as text loses nothing. */
  datatype Key = Key(scope: Scope, id: Id)

  datatype Stats = Stats(
    l1Hits: nat, l1Misses: nat,
    l2Hits: nat, l2Misses: nat,
    databaseHits: nat, totalRequests: nat)

  function Hits(st: Stats): nat { st.l1Hits + st.l2Hits + st.databaseHits }

  /** What a concrete service supplies: `transformToCached`, the id field, `enableL2Cache`. */
  datatype Config<!T, !C> = Config(transform: T -> C, idOf: T -> Id, l2: bool)

  datatype Store<T, C> = Store(
    rows: map<Id, T>,
    redis: map<Key, C>,
    memory: map<Key, C>,
    index: map<Scope, set<Id>>,
    stats: Stats)

  function Indexed<T, C>(s: Store<T, C>, scope: Scope): set<Id> {
    if scope in s.index then s.index[scope] else {}
  }

  /** What a reader should see. */
  function View<T, C>(cfg: Config<T, C>, rows: map<Id, T>, id: Id): Option<C> {
    if id in rows then Some(cfg.transform(rows[id])) else None
  }

  /** Every cached value of the scope is the current row, seen through the transformation. */
  ghost predicate Coherent<T, C>(cfg: Config<T, C>, s: Store<T, C>, scope: Scope) {
    && (forall k :: k in s.redis && k.scope == scope ==> View(cfg, s.rows, k.id) == Some(s.redis[k]))
    && (cfg.l2 ==> forall k :: k in s.memory && k.scope == scope ==> View(cfg, s.rows, k.id) == Some(s.memory[k]))
  }

  ghost predicate Keyed<T, C>(cfg: Config<T, C>, rows: map<Id, T>) {
    forall id :: id in rows ==> cfg.idOf(rows[id]) == id
  }

  // ---------------------------------------------------------------- get

  /** Which awaited calls of `get` work: the Redis read, the row read, the Redis write and the
      second row read, in the catch block. */
  datatype GetCalls = GetCalls(redisRead: bool, rowRead: bool, redisWrite: bool, secondRead: bool)

  datatype Origin = Memory | Redis | Database | Absent | Unreadable

  function OriginOf<T, C>(cfg: Config<T, C>, s: Store<T, C>, k: Key, calls: GetCalls): Origin {
    if cfg.l2 && k in s.memory then Memory
    else if calls.redisRead && k in s.redis then Redis
    else if !calls.rowRead then Unreadable
    else if k.id in s.rows then Database else Absent
  }

  /** The value `get` returns; no answer means it throws. */
  function GetAnswer<T, C>(cfg: Config<T, C>, s: Store<T, C>, k: Key, calls: GetCalls): Option<Option<C>> {
    match OriginOf(cfg, s, k, calls)
    case Memory => Some(Some(s.memory[k]))
    case Redis => Some(Some(s.redis[k]))
    case Database => Some(View(cfg, s.rows, k.id))
    case Absent => Some(None)
    case Unreadable => if calls.secondRead then Some(View(cfg, s.rows, k.id)) else None
  }

  function Counted(st: Stats, l2: bool, o: Origin): Stats {
    Stats(
      st.l1Hits + (if o == Redis then 1 else 0),
      st.l1Misses + (if o.Memory? || o.Redis? then 0 else 1),
      st.l2Hits + (if o == Memory then 1 else 0),
      st.l2Misses + (if l2 && o != Memory then 1 else 0),
      st.databaseHits + (if o == Database then 1 else 0),
      st.totalRequests + 1)
  }

  function AfterGet<T, C>(cfg: Config<T, C>, s: Store<T, C>, k: Key, calls: GetCalls): Store<T, C> {
    var o := OriginOf(cfg, s, k, calls);
    var a := GetAnswer(cfg, s, k, calls);
    s.(redis := if o == Database && calls.redisWrite then s.redis[k := a.value.value] else s.redis,
       memory := if cfg.l2 && (o == Redis || o == Database) then s.memory[k := a.value.value] else s.memory,
       stats := Counted(s.stats, cfg.l2, o))
  }

  // ---------------------------------------------------------------- getMultiple

  /** The ids of the list whose key the layer holds, and the others, both in order. */
  function Held<C>(layer: map<Key, C>, scope: Scope, ids: seq<Id>): seq<Id>
    decreases |ids|
  {
    if ids == [] then []
    else
      var x := ids[|ids| - 1];
      Held(layer, scope, ids[..|ids| - 1]) + if Key(scope, x) in layer then [x] else []
  }

  function Missing<C>(layer: map<Key, C>, scope: Scope, ids: seq<Id>): seq<Id>
    decreases |ids|
  {
    if ids == [] then []
    else
      var x := ids[|ids| - 1];
      Missing(layer, scope, ids[..|ids| - 1]) + if Key(scope, x) in layer then [] else [x]
  }

  /** The layer's values for the ids it holds, in order. */
  function Values<C>(layer: map<Key, C>, scope: Scope, ids: seq<Id>): seq<C>
    decreases |ids|
  {
    if ids == [] then []
    else
      var k := Key(scope, ids[|ids| - 1]);
      Values(layer, scope, ids[..|ids| - 1]) + if k in layer then [layer[k]] else []
  }

  /** `base` with the layer's values for the ids it holds. */
  function Loaded<C>(base: map<Key, C>, layer: map<Key, C>, scope: Scope, ids: seq<Id>): map<Key, C>
    decreases |ids|
  {
    if ids == [] then base
    else
      var k, m := Key(scope, ids[|ids| - 1]), Loaded(base, layer, scope, ids[..|ids| - 1]);
      if k in layer then m[k := layer[k]] else m
  }

  /** `base` with the rows of the ids as cached values, except those in `lost`. */
  function WithRows<T, C>(cfg: Config<T, C>, base: map<Key, C>, rows: map<Id, T>, scope: Scope, ids: seq<Id>, lost: set<Id>): map<Key, C>
    decreases |ids|
  {
    if ids == [] then base
    else
      var id, m := ids[|ids| - 1], WithRows(cfg, base, rows, scope, ids[..|ids| - 1], lost);
      if id in rows && id !in lost then m[Key(scope, id) := cfg.transform(rows[id])] else m
  }

  /** `listing` is some order in which the table returns its rows. */
  ghost predicate Lists<T>(listing: seq<Id>, rows: map<Id, T>) {
    Distinct(listing) && forall id :: id in listing <==> id in rows
  }

  /** The members of `wanted` in the order of the table. */
  function Select(listing: seq<Id>, wanted: seq<Id>): (r: seq<Id>)
    ensures forall x :: x in r <==> x in listing && x in wanted
    decreases |listing|
  {
    if listing == [] then []
    else
      var x := listing[|listing| - 1];
      Select(listing[..|listing| - 1], wanted) + if x in wanted then [x] else []
  }

  /** `lost` are the ids whose Redis write fails unnoticed. */
  datatype BatchCalls = BatchCalls(mget: bool, rowRead: bool, lost: set<Id>, listing: seq<Id>)

  /** The rows of the ids, transformed, in order; an id without a row has no value. */
  function RowValues<T, C>(cfg: Config<T, C>, rows: map<Id, T>, ids: seq<Id>): (r: seq<C>)
    ensures (forall id :: id in ids ==> id in rows) ==> |r| == |ids|
    decreases |ids|
  {
    if ids == [] then []
    else
      var id := ids[|ids| - 1];
      RowValues(cfg, rows, ids[..|ids| - 1]) + if id in rows then [cfg.transform(rows[id])] else []
  }

  function L2Of<T, C>(cfg: Config<T, C>, s: Store<T, C>): map<Key, C> {
    if cfg.l2 then s.memory else map[]
  }

  /** The last part of `getMultiple`, for the ids that neither layer holds. No answer means that the
      batch read of the table failed and the call throws. */
  function TableAnswer<T, C>(cfg: Config<T, C>, s: Store<T, C>, still: seq<Id>, calls: BatchCalls): Option<seq<C>> {
    if still != [] && !calls.rowRead then None else Some(RowValues(cfg, s.rows, Select(calls.listing, still)))
  }

  function AfterTable<T, C>(cfg: Config<T, C>, s: Store<T, C>, scope: Scope, still: seq<Id>, calls: BatchCalls): Store<T, C> {
    if still != [] && !calls.rowRead then s
    else
      var found := Select(calls.listing, still);
      s.(redis := WithRows(cfg, s.redis, s.rows, scope, found, calls.lost),
         memory := if cfg.l2 then WithRows(cfg, s.memory, s.rows, scope, found, {}) else s.memory,
         stats := s.stats.(databaseHits := s.stats.databaseHits + |found|))
  }

  function AfterRedis<T, C>(cfg: Config<T, C>, s: Store<T, C>, scope: Scope, rest: seq<Id>): Store<T, C> {
    s.(memory := if cfg.l2 then Loaded(s.memory, s.redis, scope, rest) else s.memory,
       stats := s.stats.(
         l1Hits := s.stats.l1Hits + |Held(s.redis, scope, rest)|,
         l1Misses := s.stats.l1Misses + |Missing(s.redis, scope, rest)|))
  }

  /** The part below memory, for the ids memory does not hold; the multi-get may throw as well. */
  function BelowAnswer<T, C>(cfg: Config<T, C>, s: Store<T, C>, scope: Scope, rest: seq<Id>, calls: BatchCalls): Option<seq<C>> {
    if rest == [] then Some([])
    else if !calls.mget then None
    else
      var rows := TableAnswer(cfg, AfterRedis(cfg, s, scope, rest), Missing(s.redis, scope, rest), calls);
      if rows.None? then None else Some(Values(s.redis, scope, rest) + rows.value)
  }

  function AfterBelow<T, C>(cfg: Config<T, C>, s: Store<T, C>, scope: Scope, rest: seq<Id>, calls: BatchCalls): Store<T, C> {
    if rest == [] || !calls.mget then s
    else AfterTable(cfg, AfterRedis(cfg, s, scope, rest), scope, Missing(s.redis, scope, rest), calls)
  }

  /** Looking the ids up in memory only counts. */
  function AfterMemory<T, C>(cfg: Config<T, C>, s: Store<T, C>, scope: Scope, ids: seq<Id>): Store<T, C> {
    s.(stats := s.stats.(
         l2Hits := s.stats.l2Hits + |Held(L2Of(cfg, s), scope, ids)|,
         l2Misses := s.stats.l2Misses + if cfg.l2 then |Missing(L2Of(cfg, s), scope, ids)| else 0))
  }

  function BatchAnswer<T, C>(cfg: Config<T, C>, s: Store<T, C>, scope: Scope, ids: seq<Id>, calls: BatchCalls): Option<seq<C>> {
    var below := BelowAnswer(cfg, s, scope, Missing(L2Of(cfg, s), scope, ids), calls);
    if below.None? then None else Some(Values(L2Of(cfg, s), scope, ids) + below.value)
  }

  /** The requests of a batch are counted only when it does not throw, its hits in any case. */
  function AfterBatch<T, C>(cfg: Config<T, C>, s: Store<T, C>, scope: Scope, ids: seq<Id>, calls: BatchCalls): Store<T, C> {
    var s' := AfterBelow(cfg, AfterMemory(cfg, s, scope, ids), scope, Missing(L2Of(cfg, s), scope, ids), calls);
    if BatchAnswer(cfg, s, scope, ids, calls).None? then s'
    else s'.(stats := s'.stats.(totalRequests := s'.stats.totalRequests + |ids|))
  }

  function Set<X>(s: seq<X>): set<X> { set x | x in s }

  // ---------------------------------------------------------------- writes

  /** Which writes of `set` arrive: the value and the index entry. Both fail unnoticed. */
  datatype SetCalls = SetCalls(redisWrite: bool, indexWrite: bool)

  function WithIndex<T, C>(s: Store<T, C>, scope: Scope, ids: set<Id>): Store<T, C> {
    if ids == {} then s else s.(index := s.index[scope := Indexed(s, scope) + ids])
  }

  function AfterSet<T, C>(cfg: Config<T, C>, s: Store<T, C>, scope: Scope, e: T, calls: SetCalls): Store<T, C> {
    var k, v := Key(scope, cfg.idOf(e)), cfg.transform(e);
    WithIndex(s.(redis := if calls.redisWrite then s.redis[k := v] else s.redis,
                 memory := if cfg.l2 then s.memory[k := v] else s.memory),
              scope, if calls.indexWrite then {k.id} else {})
  }

  datatype InvalidateCalls = InvalidateCalls(del: Outcome, srem: bool)

  /** `invalidate` throws when its delete does, and then touches neither memory nor index. */
  function AfterInvalidate<T, C>(cfg: Config<T, C>, s: Store<T, C>, k: Key, calls: InvalidateCalls): Store<T, C> {
    if calls.del == Failed then s
    else if calls.del == AckLost then s.(redis := s.redis - {k})
    else
      var left := Indexed(s, k.scope) - {k.id};
      s.(redis := s.redis - {k},
         memory := if cfg.l2 then s.memory - {k} else s.memory,
         index := if calls.srem && k.scope in s.index then s.index[k.scope := left] else s.index)
  }

  datatype ClearCalls = ClearCalls(smembers: bool, delKeys: Outcome, delIndex: Outcome)

  function KeysOf(scope: Scope, ids: set<Id>): set<Key> { set id | id in ids :: Key(scope, id) }

  /** `invalidateAll` drops what the index lists, then the index. */
  function AfterClear<T, C>(cfg: Config<T, C>, s: Store<T, C>, scope: Scope, calls: ClearCalls): Store<T, C> {
    var ids := Indexed(s, scope);
    var keys := KeysOf(scope, ids);
    if !calls.smembers then s
    else if ids != {} && calls.delKeys == Failed then s
    else if ids != {} && calls.delKeys == AckLost then s.(redis := s.redis - keys)
    else s.(redis := s.redis - keys,
            memory := if cfg.l2 then s.memory - keys else s.memory,
            index := if calls.delIndex == Failed then s.index else s.index - {scope})
  }

  // ---------------------------------------------------------------- getAll

  /** How reading the index goes. At its key Redis may find something that is not a set: the value of
      an entity called "index". That key is then deleted. */
  datatype IndexRead = Listed | WrongType(del: Outcome) | Unread

  /** `members` is the order in which Redis lists the index. */
  datatype AllCalls = AllCalls(
    smembers: IndexRead, members: seq<Id>, batch: BatchCalls, rowRead: bool, sadd: Outcome, expire: bool)

  function Limited(ids: seq<Id>, limit: nat): (r: seq<Id>)
    ensures |r| <= |ids|
  {
    if 0 < limit < |ids| then ids[..limit] else ids
  }

  /** The fallback branch reads the table only when the index is empty or gone. */
  function Fallback<T, C>(s: Store<T, C>, limit: nat, calls: AllCalls): seq<Id> {
    if calls.rowRead then Limited(calls.batch.listing, limit) else []
  }

  function FallbackAnswer<T, C>(cfg: Config<T, C>, s: Store<T, C>, limit: nat, calls: AllCalls): seq<C> {
    var ids := Fallback(s, limit, calls);
    if ids != [] && (calls.sadd != Ok || !calls.expire) then [] else RowValues(cfg, s.rows, ids)
  }

  function AfterFallback<T, C>(cfg: Config<T, C>, s: Store<T, C>, scope: Scope, limit: nat, calls: AllCalls): Store<T, C> {
    var ids := Fallback(s, limit, calls);
    if calls.sadd == Failed || ids == [] then s
    else if calls.sadd == AckLost || !calls.expire then WithIndex(s, scope, Set(ids))
    else
      WithIndex(s, scope, Set(ids)).(
        redis := WithRows(cfg, s.redis, s.rows, scope, ids, calls.batch.lost),
        memory := if cfg.l2 then WithRows(cfg, s.memory, s.rows, scope, ids, {}) else s.memory)
  }

  /** Without the key that stands where the index should be. */
  function IndexKeyDropped<T, C>(s: Store<T, C>, scope: Scope): Store<T, C> {
    s.(redis := s.redis - {Key(scope, "index")}, index := s.index - {scope})
  }

  function AllAnswer<T, C>(cfg: Config<T, C>, s: Store<T, C>, scope: Scope, limit: nat, calls: AllCalls): seq<C> {
    match calls.smembers
    case Unread => []
    case WrongType(del) => if del == Ok then FallbackAnswer(cfg, s, limit, calls) else []
    case Listed =>
      if calls.members == [] then FallbackAnswer(cfg, s, limit, calls)
      else
        var r := BatchAnswer(cfg, s, scope, Limited(calls.members, limit), calls.batch);
        if r.Some? then r.value else []
  }

  function AfterAll<T, C>(cfg: Config<T, C>, s: Store<T, C>, scope: Scope, limit: nat, calls: AllCalls): Store<T, C> {
    match calls.smembers
    case Unread => s
    case WrongType(del) =>
      if del == Failed then s
      else if del == AckLost then IndexKeyDropped(s, scope)
      else AfterFallback(cfg, IndexKeyDropped(s, scope), scope, limit, calls)
    case Listed =>
      if calls.members == [] then AfterFallback(cfg, s, scope, limit, calls)
      else AfterBatch(cfg, s, scope, Limited(calls.members, limit), calls.batch)
  }

  // ---------------------------------------------------------------- the service

  class Repository<T> {
    var rows: map<Id, T>
    constructor () ensures rows == map[] { rows := map[]; }
  }

  class BaseCacheService<T, C> {
    const cfg: Config<T, C>
    const repository: Repository<T>
    var redis: map<Key, C>
    var memory: map<Key, C>
    var index: map<Scope, set<Id>>
    var stats: Stats

    function Value(): Store<T, C>
      reads this, repository
    {
      Store(repository.rows, redis, memory, index, stats)
    }

    constructor (cfg: Config<T, C>, repository: Repository<T>)
      ensures this.cfg == cfg && this.repository == repository
      ensures Value() == Store(repository.rows, map[], map[], map[], Stats(0, 0, 0, 0, 0, 0))
    {
      this.cfg, this.repository := cfg, repository;
      redis, memory, index, stats := map[], map[], map[], Stats(0, 0, 0, 0, 0, 0);
    }

    method Get(scope: Scope, id: Id, calls: GetCalls) returns (answer: Option<Option<C>>)
      modifies this
      ensures answer == GetAnswer(cfg, old(Value()), Key(scope, id), calls)
      ensures Value() == AfterGet(cfg, old(Value()), Key(scope, id), calls)
    {
      var k := Key(scope, id);
      if cfg.l2 && k in memory {
        stats := stats.(totalRequests := stats.totalRequests + 1, l2Hits := stats.l2Hits + 1);
        return Some(Some(memory[k]));
      }
      if calls.redisRead && k in redis {
        CountMiss(1, 0, 0);
        Remember(k, redis[k]);
        return Some(Some(redis[k]));
      }
      if calls.rowRead && id in repository.rows {
        CountMiss(0, 1, 1);
        var v := cfg.transform(repository.rows[id]);
        if calls.redisWrite { redis := redis[k := v]; }
        Remember(k, v);
        return Some(Some(v));
      }
      CountMiss(0, 1, 0);
      return if calls.rowRead then Some(None)
             else if calls.secondRead then Some(View(cfg, repository.rows, id)) else None;
    }

    /** One request that memory did not answer. */
    method CountMiss(l1Hit: nat, l1Miss: nat, databaseHit: nat)
      modifies this`stats
      ensures stats == Stats(
                old(stats).l1Hits + l1Hit, old(stats).l1Misses + l1Miss,
                old(stats).l2Hits, old(stats).l2Misses + if cfg.l2 then 1 else 0,
                old(stats).databaseHits + databaseHit, old(stats).totalRequests + 1)
    {
      stats := stats.(
        l1Hits := stats.l1Hits + l1Hit, l1Misses := stats.l1Misses + l1Miss,
        l2Misses := stats.l2Misses + if cfg.l2 then 1 else 0,
        databaseHits := stats.databaseHits + databaseHit, totalRequests := stats.totalRequests + 1);
    }

    method Remember(k: Key, v: C)
      modifies this`memory
      ensures memory == if cfg.l2 then old(memory)[k := v] else old(memory)
    {
      if cfg.l2 { memory := memory[k := v]; }
    }

    /** The loop over memory, then the part below. */
    method GetMultiple(scope: Scope, ids: seq<Id>, calls: BatchCalls) returns (answer: Option<seq<C>>)
      requires Lists(calls.listing, repository.rows) && Keyed(cfg, repository.rows)
      modifies this
      ensures answer == BatchAnswer(cfg, old(Value()), scope, ids, calls)
      ensures Value() == AfterBatch(cfg, old(Value()), scope, ids, calls)
    {
      var results, uncached := FromMemory(scope, ids);
      assert Value() == AfterMemory(cfg, old(Value()), scope, ids);
      var below := BelowMemory(scope, uncached, calls);
      if below.None? { return None; }
      stats := stats.(totalRequests := stats.totalRequests + |ids|);
      answer := Some(results + below.value);
    }

    method BelowMemory(scope: Scope, rest: seq<Id>, calls: BatchCalls) returns (answer: Option<seq<C>>)
      requires Lists(calls.listing, repository.rows) && Keyed(cfg, repository.rows)
      modifies this
      ensures answer == BelowAnswer(cfg, old(Value()), scope, rest, calls)
      ensures Value() == AfterBelow(cfg, old(Value()), scope, rest, calls)
    {
      if |rest| == 0 { return Some([]); }
      if !calls.mget { return None; }
      var results, still := FromRedis(scope, rest);
      assert Value() == AfterRedis(cfg, old(Value()), scope, rest);
      var fromTable := FromTable(scope, still, calls);
      if fromTable.None? { return None; }
      answer := Some(results + fromTable.value);
    }

    method FromTable(scope: Scope, still: seq<Id>, calls: BatchCalls) returns (answer: Option<seq<C>>)
      requires Lists(calls.listing, repository.rows) && Keyed(cfg, repository.rows)
      modifies this
      ensures answer == TableAnswer(cfg, old(Value()), still, calls)
      ensures Value() == AfterTable(cfg, old(Value()), scope, still, calls)
    {
      if |still| == 0 {
        SelectNone(calls.listing);
        return Some([]);
      }
      if !calls.rowRead { return None; }
      var results := WriteBack(scope, Select(calls.listing, still), calls.lost);
      stats := stats.(databaseHits := stats.databaseHits + |results|);
      answer := Some(results);
    }

    method FromMemory(scope: Scope, ids: seq<Id>) returns (results: seq<C>, uncached: seq<Id>)
      modifies this`stats
      ensures var layer := L2Of(cfg, old(Value()));
              && results == Values(layer, scope, ids)
              && uncached == Missing(layer, scope, ids)
              && stats == old(stats).(
                   l2Hits := old(stats).l2Hits + |Held(layer, scope, ids)|,
                   l2Misses := old(stats).l2Misses + if cfg.l2 then |uncached| else 0)
    {
      results, uncached := [], [];
      if cfg.l2 {
        for i := 0 to |ids|
          invariant results == Values(memory, scope, ids[..i])
          invariant uncached == Missing(memory, scope, ids[..i])
          invariant stats == old(stats).(l2Hits := old(stats).l2Hits + |Held(memory, scope, ids[..i])|,
                                         l2Misses := old(stats).l2Misses + |uncached|)
        {
          HeldSnoc(memory, scope, ids, i);
          var k := Key(scope, ids[i]);
          if k in memory {
            results := results + [memory[k]];
            stats := stats.(l2Hits := stats.l2Hits + 1);
          } else {
            uncached := uncached + [ids[i]];
            stats := stats.(l2Misses := stats.l2Misses + 1);
          }
        }
        assert ids[..|ids|] == ids;
      } else {
        NothingHeld<C>(scope, ids);
        uncached := ids;
      }
    }

    method FromRedis(scope: Scope, ids: seq<Id>) returns (results: seq<C>, still: seq<Id>)
      modifies this`stats, this`memory
      ensures results == Values(redis, scope, ids)
      ensures still == Missing(redis, scope, ids)
      ensures memory == if cfg.l2 then Loaded(old(memory), redis, scope, ids) else old(memory)
      ensures stats == old(stats).(
                l1Hits := old(stats).l1Hits + |Held(redis, scope, ids)|,
                l1Misses := old(stats).l1Misses + |still|)
    {
      results, still := [], [];
      for i := 0 to |ids|
        invariant results == Values(redis, scope, ids[..i])
        invariant still == Missing(redis, scope, ids[..i])
        invariant memory == if cfg.l2 then Loaded(old(memory), redis, scope, ids[..i]) else old(memory)
        invariant stats == old(stats).(l1Hits := old(stats).l1Hits + |Held(redis, scope, ids[..i])|,
                                       l1Misses := old(stats).l1Misses + |still|)
      {
        HeldSnoc(redis, scope, ids, i);
        LoadedSnoc(old(memory), redis, scope, ids, i);
        var k := Key(scope, ids[i]);
        if k in redis {
          results := results + [redis[k]];
          if cfg.l2 { memory := memory[k := redis[k]]; }
          stats := stats.(l1Hits := stats.l1Hits + 1);
        } else {
          still := still + [ids[i]];
          stats := stats.(l1Misses := stats.l1Misses + 1);
        }
      }
      assert ids[..|ids|] == ids;
    }

    /** Writes the rows that a read of the table returned into both layers. */
    method WriteBack(scope: Scope, ids: seq<Id>, lost: set<Id>) returns (results: seq<C>)
      requires forall id :: id in ids ==> id in repository.rows
      requires Keyed(cfg, repository.rows)
      modifies this`memory, this`redis
      ensures results == RowValues(cfg, repository.rows, ids)
      ensures redis == WithRows(cfg, old(redis), repository.rows, scope, ids, lost)
      ensures memory == if cfg.l2 then WithRows(cfg, old(memory), repository.rows, scope, ids, {}) else old(memory)
    {
      var rows := repository.rows;
      results := [];
      for i := 0 to |ids|
        invariant results == RowValues(cfg, rows, ids[..i])
        invariant redis == WithRows(cfg, old(redis), rows, scope, ids[..i], lost)
        invariant memory == if cfg.l2 then WithRows(cfg, old(memory), rows, scope, ids[..i], {}) else old(memory)
      {
        RowsSnoc(cfg, old(redis), rows, scope, ids, i, lost);
        RowsSnoc(cfg, old(memory), rows, scope, ids, i, {});
        var row := rows[ids[i]];
        var v := cfg.transform(row);
        results := results + [v];
        var k := Key(scope, cfg.idOf(row));
        if k.id !in lost { redis := redis[k := v]; }
        if cfg.l2 { memory := memory[k := v]; }
      }
      assert ids[..|ids|] == ids;
    }

    method GetAll(scope: Scope, limit: nat, calls: AllCalls) returns (answer: seq<C>)
      requires Lists(calls.batch.listing, repository.rows) && Keyed(cfg, repository.rows)
      modifies this
      ensures answer == AllAnswer(cfg, old(Value()), scope, limit, calls)
      ensures Value() == AfterAll(cfg, old(Value()), scope, limit, calls)
    {
      var members: seq<Id> := [];
      match calls.smembers {
        case Unread => return [];
        case Listed => members := calls.members;
        case WrongType(del) =>
          if del == Failed { return []; }
          redis, index := redis - {Key(scope, "index")}, index - {scope};
          if del == AckLost { return []; }
      }
      if |members| > 0 {
        var batch := GetMultiple(scope, Limited(members, limit), calls.batch);
        return if batch.Some? then batch.value else [];
      }
      answer := FromWholeTable(scope, limit, calls);
    }

    method FromWholeTable(scope: Scope, limit: nat, calls: AllCalls) returns (answer: seq<C>)
      requires Lists(calls.batch.listing, repository.rows) && Keyed(cfg, repository.rows)
      modifies this
      ensures answer == FallbackAnswer(cfg, old(Value()), limit, calls)
      ensures Value() == AfterFallback(cfg, old(Value()), scope, limit, calls)
    {
      if !calls.rowRead { return []; }
      var ids := Limited(calls.batch.listing, limit);
      if |ids| == 0 { return []; }
      if calls.sadd == Failed { return []; }
      AddToIndex(scope, Set(ids));
      if calls.sadd == AckLost || !calls.expire { return []; }
      answer := WriteBack(scope, ids, calls.batch.lost);
    }

    method AddToIndex(scope: Scope, ids: set<Id>)
      modifies this`index
      ensures Value() == WithIndex(old(Value()), scope, ids)
    {
      if ids != {} {
        index := index[scope := (if scope in index then index[scope] else {}) + ids];
      }
    }

    /** `set`. */
    method Put(scope: Scope, e: T, calls: SetCalls)
      modifies this
      ensures Value() == AfterSet(cfg, old(Value()), scope, e, calls)
    {
      var k, v := Key(scope, cfg.idOf(e)), cfg.transform(e);
      if calls.redisWrite { redis := redis[k := v]; }
      Remember(k, v);
      if calls.indexWrite { AddToIndex(scope, {k.id}); }
    }

    /** False when the caller sees an exception. */
    method Invalidate(scope: Scope, id: Id, calls: InvalidateCalls) returns (ok: bool)
      modifies this
      ensures ok == (calls.del == Ok)
      ensures Value() == AfterInvalidate(cfg, old(Value()), Key(scope, id), calls)
    {
      var k := Key(scope, id);
      if calls.del == Failed { return false; }
      redis := redis - {k};
      if calls.del == AckLost { return false; }
      if cfg.l2 { memory := memory - {k}; }
      if calls.srem && scope in index { index := index[scope := index[scope] - {id}]; }
      ok := true;
    }

    method InvalidateAll(scope: Scope, calls: ClearCalls) returns (ok: bool)
      modifies this
      ensures ok == (calls.smembers && (Indexed(old(Value()), scope) == {} || calls.delKeys == Ok) && calls.delIndex == Ok)
      ensures Value() == AfterClear(cfg, old(Value()), scope, calls)
    {
      if !calls.smembers { return false; }
      var ids := Indexed(Value(), scope);
      if ids != {} {
        var keys := KeysOf(scope, ids);
        if calls.delKeys == Failed { return false; }
        redis := redis - keys;
        if calls.delKeys == AckLost { return false; }
        if cfg.l2 { memory := memory - keys; }
      }
      if calls.delIndex != Failed { index := index - {scope}; }
      ok := calls.delIndex == Ok;
    }
  }

  lemma HeldSnoc<C>(layer: map<Key, C>, scope: Scope, ids: seq<Id>, i: nat)
    requires i < |ids|
    ensures var k := Key(scope, ids[i]);
            && Held(layer, scope, ids[..i + 1]) == Held(layer, scope, ids[..i]) + (if k in layer then [ids[i]] else [])
            && Missing(layer, scope, ids[..i + 1]) == Missing(layer, scope, ids[..i]) + (if k in layer then [] else [ids[i]])
            && Values(layer, scope, ids[..i + 1]) == Values(layer, scope, ids[..i]) + (if k in layer then [layer[k]] else [])
  {
    assert ids[..i + 1][..i] == ids[..i];
  }

  lemma LoadedSnoc<C>(base: map<Key, C>, layer: map<Key, C>, scope: Scope, ids: seq<Id>, i: nat)
    requires i < |ids|
    ensures var m, k := Loaded(base, layer, scope, ids[..i]), Key(scope, ids[i]);
            Loaded(base, layer, scope, ids[..i + 1]) == if k in layer then m[k := layer[k]] else m
  {
    assert ids[..i + 1][..i] == ids[..i];
  }

  lemma RowsSnoc<T, C>(cfg: Config<T, C>, base: map<Key, C>, rows: map<Id, T>, scope: Scope, ids: seq<Id>, i: nat, lost: set<Id>)
    requires i < |ids| && ids[i] in rows
    ensures var m, id := WithRows(cfg, base, rows, scope, ids[..i], lost), ids[i];
            && WithRows(cfg, base, rows, scope, ids[..i + 1], lost) ==
                 (if id in lost then m else m[Key(scope, id) := cfg.transform(rows[id])])
            && RowValues(cfg, rows, ids[..i + 1]) == RowValues(cfg, rows, ids[..i]) + [cfg.transform(rows[id])]
  {
    assert ids[..i + 1][..i] == ids[..i];
  }

  lemma {:induction false} NothingHeld<C>(scope: Scope, ids: seq<Id>)
    ensures Held<C>(map[], scope, ids) == [] && Missing<C>(map[], scope, ids) == ids
    ensures Values<C>(map[], scope, ids) == []
    decreases |ids|
  {
    if ids != [] {
      NothingHeld<C>(scope, ids[..|ids| - 1]);
      assert ids == ids[..|ids| - 1] + [ids[|ids| - 1]];
    }
  }

  lemma {:induction false} SelectNone(listing: seq<Id>)
    ensures Select(listing, []) == []
    decreases |listing|
  {
    if listing != [] { SelectNone(listing[..|listing| - 1]); }
  }
}
