/** What runs of the cache guarantee: reads agree with the table under any expiry and eviction, a
    batch answers each existing id once, scopes do not disturb each other, and how far the hit
    counters can be trusted. */
module CacheCoherence {
  import opened Prelude
  import opened BaseCache

  /** What can happen to the cache. `Save` and `Remove` are the services' writers: they change the row
      and then tell the cache. `Expire` and `IndexExpires` are time and eviction at work. */
  datatype Op<!T> =
    | Get(id: Id, get: GetCalls)
    | GetMultiple(ids: seq<Id>, batch: BatchCalls)
    | GetAll(limit: nat, all: AllCalls)
    | Save(row: T, put: SetCalls)
    | Remove(id: Id, invalidate: InvalidateCalls)
    | Clear(clear: ClearCalls)
    | Expire(redisKeys: set<Key>, memoryKeys: set<Key>)
    | IndexExpires

  datatype Call<!T> = Call(scope: Scope, op: Op<T>)

  /** The table and the index answer with what they hold. */
  ghost predicate Legal<T, C>(s: Store<T, C>, call: Call<T>) {
    match call.op
    case GetMultiple(_, batch) => Lists(batch.listing, s.rows)
    case GetAll(_, all) =>
      && Lists(all.batch.listing, s.rows)
      && Distinct(all.members) && Set(all.members) == Indexed(s, call.scope)
      && (all.smembers.WrongType? ==> Indexed(s, call.scope) == {})
    case _ => true
  }

  function Step<T, C>(cfg: Config<T, C>, s: Store<T, C>, call: Call<T>): Store<T, C> {
    match call.op
    case Get(id, calls) => AfterGet(cfg, s, Key(call.scope, id), calls)
    case GetMultiple(ids, calls) => AfterBatch(cfg, s, call.scope, ids, calls)
    case GetAll(limit, calls) => AfterAll(cfg, s, call.scope, limit, calls)
    case Save(row, calls) => AfterSet(cfg, s.(rows := s.rows[cfg.idOf(row) := row]), call.scope, row, calls)
    case Remove(id, calls) => AfterInvalidate(cfg, s.(rows := s.rows - {id}), Key(call.scope, id), calls)
    case Clear(calls) => AfterClear(cfg, s, call.scope, calls)
    case Expire(redisKeys, memoryKeys) => s.(redis := s.redis - redisKeys, memory := s.memory - memoryKeys)
    case IndexExpires => s.(index := s.index - {call.scope})
  }

  ghost predicate CanRun<T, C>(cfg: Config<T, C>, s: Store<T, C>, run: seq<Call<T>>)
    decreases |run|
  {
    run == [] || (Legal(s, run[0]) && CanRun(cfg, Step(cfg, s, run[0]), run[1..]))
  }

  function Run<T, C>(cfg: Config<T, C>, s: Store<T, C>, run: seq<Call<T>>): Store<T, C>
    decreases |run|
  {
    if run == [] then s else Run(cfg, Step(cfg, s, run[0]), run[1..])
  }

  // ---------------------------------------------------------------- layers, key by key

  lemma {:induction false} LoadedAt<C>(base: map<Key, C>, layer: map<Key, C>, scope: Scope, ids: seq<Id>, k: Key)
    ensures var m := Loaded(base, layer, scope, ids);
            var hit := k.scope == scope && k.id in ids && k in layer;
            && (k in m <==> hit || k in base)
            && (k in m ==> m[k] == if hit then layer[k] else base[k])
    decreases |ids|
  {
    if ids != [] {
      var init, id := ids[..|ids| - 1], ids[|ids| - 1];
      assert ids == init + [id];
      LoadedAt(base, layer, scope, init, k);
    }
  }

  lemma {:induction false} WithRowsAt<T, C>(cfg: Config<T, C>, base: map<Key, C>, rows: map<Id, T>, scope: Scope, ids: seq<Id>, lost: set<Id>, k: Key)
    ensures var m := WithRows(cfg, base, rows, scope, ids, lost);
            var hit := k.scope == scope && k.id in ids && k.id in rows && k.id !in lost;
            && (k in m <==> hit || k in base)
            && (k in m ==> m[k] == if hit then cfg.transform(rows[k.id]) else base[k])
    decreases |ids|
  {
    if ids != [] {
      var init, id := ids[..|ids| - 1], ids[|ids| - 1];
      assert ids == init + [id];
      WithRowsAt(cfg, base, rows, scope, init, lost, k);
    }
  }

  /** One layer of the scope shows the rows. */
  ghost predicate Fresh<T, C>(cfg: Config<T, C>, layer: map<Key, C>, rows: map<Id, T>, scope: Scope) {
    forall k :: k in layer && k.scope == scope ==> View(cfg, rows, k.id) == Some(layer[k])
  }

  lemma WithRowsFresh<T, C>(cfg: Config<T, C>, base: map<Key, C>, rows: map<Id, T>, scope: Scope, ids: seq<Id>, lost: set<Id>, here: Scope)
    requires Fresh(cfg, base, rows, here)
    ensures Fresh(cfg, WithRows(cfg, base, rows, scope, ids, lost), rows, here)
  {
    var m := WithRows(cfg, base, rows, scope, ids, lost);
    forall k | k in m && k.scope == here ensures View(cfg, rows, k.id) == Some(m[k]) {
      WithRowsAt(cfg, base, rows, scope, ids, lost, k);
    }
  }

  lemma LoadedFresh<T, C>(cfg: Config<T, C>, base: map<Key, C>, layer: map<Key, C>, rows: map<Id, T>, scope: Scope, ids: seq<Id>, here: Scope)
    requires Fresh(cfg, base, rows, here) && Fresh(cfg, layer, rows, here)
    ensures Fresh(cfg, Loaded(base, layer, scope, ids), rows, here)
  {
    var m := Loaded(base, layer, scope, ids);
    forall k | k in m && k.scope == here ensures View(cfg, rows, k.id) == Some(m[k]) {
      LoadedAt(base, layer, scope, ids, k);
    }
  }

  // ---------------------------------------------------------------- coherence

  lemma TableKeepsCoherence<T, C>(cfg: Config<T, C>, s: Store<T, C>, scope: Scope, still: seq<Id>, calls: BatchCalls, here: Scope)
    requires Coherent(cfg, s, here)
    ensures Coherent(cfg, AfterTable(cfg, s, scope, still, calls), here)
  {
    WithRowsFresh(cfg, s.redis, s.rows, scope, Select(calls.listing, still), calls.lost, here);
    if cfg.l2 { WithRowsFresh(cfg, s.memory, s.rows, scope, Select(calls.listing, still), {}, here); }
  }

  lemma RedisKeepsCoherence<T, C>(cfg: Config<T, C>, s: Store<T, C>, scope: Scope, rest: seq<Id>, here: Scope)
    requires Coherent(cfg, s, here)
    ensures Coherent(cfg, AfterRedis(cfg, s, scope, rest), here)
  {
    if cfg.l2 { LoadedFresh(cfg, s.memory, s.redis, s.rows, scope, rest, here); }
  }

  lemma BatchKeepsCoherence<T, C>(cfg: Config<T, C>, s: Store<T, C>, scope: Scope, ids: seq<Id>, calls: BatchCalls, here: Scope)
    requires Coherent(cfg, s, here)
    ensures Coherent(cfg, AfterBatch(cfg, s, scope, ids, calls), here)
  {
    var rest := Missing(L2Of(cfg, s), scope, ids);
    var s1 := AfterMemory(cfg, s, scope, ids);
    assert Coherent(cfg, s1, here);
    RedisKeepsCoherence(cfg, s1, scope, rest, here);
    TableKeepsCoherence(cfg, AfterRedis(cfg, s1, scope, rest), scope, Missing(s1.redis, scope, rest), calls, here);
  }

  lemma FallbackKeepsCoherence<T, C>(cfg: Config<T, C>, s: Store<T, C>, scope: Scope, limit: nat, calls: AllCalls, here: Scope)
    requires Coherent(cfg, s, here)
    ensures Coherent(cfg, AfterFallback(cfg, s, scope, limit, calls), here)
  {
    var ids := Fallback(s, limit, calls);
    WithRowsFresh(cfg, s.redis, s.rows, scope, ids, calls.batch.lost, here);
    if cfg.l2 { WithRowsFresh(cfg, s.memory, s.rows, scope, ids, {}, here); }
  }

  lemma AllKeepsCoherence<T, C>(cfg: Config<T, C>, s: Store<T, C>, scope: Scope, limit: nat, calls: AllCalls, here: Scope)
    requires Coherent(cfg, s, here)
    ensures Coherent(cfg, AfterAll(cfg, s, scope, limit, calls), here)
  {
    match calls.smembers
    case Unread =>
    case Listed =>
      BatchKeepsCoherence(cfg, s, scope, Limited(calls.members, limit), calls.batch, here);
      FallbackKeepsCoherence(cfg, s, scope, limit, calls, here);
    case WrongType(_) =>
      assert Coherent(cfg, IndexKeyDropped(s, scope), here);
      FallbackKeepsCoherence(cfg, IndexKeyDropped(s, scope), scope, limit, calls, here);
  }

  lemma FreshAfterPut<T, C>(cfg: Config<T, C>, layer: map<Key, C>, rows: map<Id, T>, k: Key, row: T)
    requires Fresh(cfg, layer, rows, k.scope)
    ensures Fresh(cfg, layer[k := cfg.transform(row)], rows[k.id := row], k.scope)
    ensures Fresh(cfg, layer, rows[k.id := row], k.scope) <==> (k in layer ==> layer[k] == cfg.transform(row))
  {
    assert forall x: Key :: x.scope == k.scope && x != k ==> View(cfg, rows[k.id := row], x.id) == View(cfg, rows, x.id);
    assert View(cfg, rows[k.id := row], k.id) == Some(cfg.transform(row));
  }

  lemma FreshAfterDrop<T, C>(cfg: Config<T, C>, layer: map<Key, C>, rows: map<Id, T>, k: Key)
    requires Fresh(cfg, layer, rows, k.scope)
    ensures Fresh(cfg, layer - {k}, rows - {k.id}, k.scope)
    ensures Fresh(cfg, layer, rows - {k.id}, k.scope) <==> k !in layer
  {
    assert forall x: Key :: x.scope == k.scope && x != k ==> View(cfg, rows - {k.id}, x.id) == View(cfg, rows, x.id);
    assert View(cfg, rows - {k.id}, k.id) == None;
  }

  /** A save keeps the cache coherent exactly when its Redis write arrives, or Redis held nothing
      for the id, or held what the new row shows anyway. */
  lemma SaveKeepsCoherenceIff<T, C>(cfg: Config<T, C>, s: Store<T, C>, scope: Scope, row: T, calls: SetCalls)
    requires Coherent(cfg, s, scope)
    ensures var k := Key(scope, cfg.idOf(row));
            Coherent(cfg, Step(cfg, s, Call(scope, Save(row, calls))), scope) <==>
              calls.redisWrite || k !in s.redis || s.redis[k] == cfg.transform(row)
  {
    var k := Key(scope, cfg.idOf(row));
    FreshAfterPut(cfg, s.redis, s.rows, k, row);
    if cfg.l2 { FreshAfterPut(cfg, s.memory, s.rows, k, row); }
    ByLayer(cfg, Step(cfg, s, Call(scope, Save(row, calls))), scope);
  }

  lemma ByLayer<T, C>(cfg: Config<T, C>, s: Store<T, C>, scope: Scope)
    ensures Coherent(cfg, s, scope) <==>
              Fresh(cfg, s.redis, s.rows, scope) && (cfg.l2 ==> Fresh(cfg, s.memory, s.rows, scope))
  {
  }

  /** A removal keeps it coherent exactly when both deletions happen or had nothing to delete. */
  lemma RemoveKeepsCoherenceIff<T, C>(cfg: Config<T, C>, s: Store<T, C>, scope: Scope, id: Id, calls: InvalidateCalls)
    requires Coherent(cfg, s, scope)
    ensures var k := Key(scope, id);
            Coherent(cfg, Step(cfg, s, Call(scope, Remove(id, calls))), scope) <==>
              && (calls.del == Failed ==> k !in s.redis)
              && (calls.del != Ok ==> k !in L2Of(cfg, s))
  {
    var k := Key(scope, id);
    FreshAfterDrop(cfg, s.redis, s.rows, k);
    if cfg.l2 { FreshAfterDrop(cfg, s.memory, s.rows, k); }
    ByLayer(cfg, Step(cfg, s, Call(scope, Remove(id, calls))), scope);
  }

  /** Rows change under `scope` only, and their Redis writes and deletes arrive. */
  predicate Disciplined<T>(call: Call<T>, scope: Scope) {
    match call.op
    case Save(_, calls) => call.scope == scope && calls.redisWrite
    case Remove(_, calls) => call.scope == scope && calls.del == Ok
    case _ => true
  }

  lemma StepKeepsCoherence<T, C>(cfg: Config<T, C>, s: Store<T, C>, call: Call<T>, scope: Scope)
    requires Coherent(cfg, s, scope) && Disciplined(call, scope)
    ensures Coherent(cfg, Step(cfg, s, call), scope)
  {
    match call.op
    case Get(id, calls) =>
    case GetMultiple(ids, calls) => BatchKeepsCoherence(cfg, s, call.scope, ids, calls, scope);
    case GetAll(limit, calls) => AllKeepsCoherence(cfg, s, call.scope, limit, calls, scope);
    case Save(row, calls) => SaveKeepsCoherenceIff(cfg, s, scope, row, calls);
    case Remove(id, calls) => RemoveKeepsCoherenceIff(cfg, s, scope, id, calls);
    case Clear(calls) =>
    case Expire(_, _) =>
    case IndexExpires =>
  }

  lemma GetIsTransparent<T, C>(cfg: Config<T, C>, s: Store<T, C>, scope: Scope, id: Id, calls: GetCalls)
    requires Coherent(cfg, s, scope)
    ensures var a := GetAnswer(cfg, s, Key(scope, id), calls);
            && (a.Some? ==> a.value == View(cfg, s.rows, id))
            && (a.None? ==> !calls.rowRead && !calls.secondRead)
  {
  }

  /** Transparency: whatever was read, written, evicted or expired before, in this scope and in
      others, and whichever Redis reads fail, a lookup shows the row as it is now. */
  lemma {:induction false} LookupsAreTransparent<T, C>(cfg: Config<T, C>, s: Store<T, C>, run: seq<Call<T>>, scope: Scope, id: Id, calls: GetCalls)
    requires Coherent(cfg, s, scope)
    requires forall call :: call in run ==> Disciplined(call, scope)
    ensures var end := Run(cfg, s, run);
            && Coherent(cfg, end, scope)
            && var a := GetAnswer(cfg, end, Key(scope, id), calls);
               (a.Some? ==> a.value == View(cfg, end.rows, id)) && (a.None? ==> !calls.rowRead && !calls.secondRead)
    decreases |run|
  {
    if run == [] {
      GetIsTransparent(cfg, s, scope, id, calls);
    } else {
      StepKeepsCoherence(cfg, s, run[0], scope);
      LookupsAreTransparent(cfg, Step(cfg, s, run[0]), run[1..], scope, id, calls);
    }
  }

  // ---------------------------------------------------------------- batches

  lemma {:induction false} HeldAndMissing<C>(layer: map<Key, C>, scope: Scope, ids: seq<Id>)
    ensures forall x :: x in Held(layer, scope, ids) <==> x in ids && Key(scope, x) in layer
    ensures forall x :: x in Missing(layer, scope, ids) <==> x in ids && Key(scope, x) !in layer
    ensures |Held(layer, scope, ids)| + |Missing(layer, scope, ids)| == |ids|
    ensures Distinct(ids) ==> Distinct(Held(layer, scope, ids)) && Distinct(Missing(layer, scope, ids))
    decreases |ids|
  {
    if ids != [] {
      var init := ids[..|ids| - 1];
      HeldAndMissing(layer, scope, init);
      assert ids == init + [ids[|ids| - 1]];
    }
  }

  lemma {:induction false} SelectDistinct(listing: seq<Id>, wanted: seq<Id>)
    requires Distinct(listing)
    ensures Distinct(Select(listing, wanted))
    decreases |listing|
  {
    if listing != [] {
      SelectDistinct(listing[..|listing| - 1], wanted);
    }
  }

  lemma {:induction false} RowValuesConcat<T, C>(cfg: Config<T, C>, rows: map<Id, T>, a: seq<Id>, b: seq<Id>)
    ensures RowValues(cfg, rows, a + b) == RowValues(cfg, rows, a) + RowValues(cfg, rows, b)
    decreases |b|
  {
    if b == [] {
      assert a + b == a;
    } else {
      var init := b[..|b| - 1];
      assert (a + b)[..|a + b| - 1] == a + init;
      RowValuesConcat(cfg, rows, a, init);
    }
  }

  lemma {:induction false} ValuesAreRows<T, C>(cfg: Config<T, C>, layer: map<Key, C>, rows: map<Id, T>, scope: Scope, ids: seq<Id>)
    requires Fresh(cfg, layer, rows, scope)
    ensures Values(layer, scope, ids) == RowValues(cfg, rows, Held(layer, scope, ids))
    decreases |ids|
  {
    if ids != [] {
      var init, x := ids[..|ids| - 1], ids[|ids| - 1];
      ValuesAreRows(cfg, layer, rows, scope, init);
      var held := Held(layer, scope, init);
      if Key(scope, x) in layer {
        assert View(cfg, rows, Key(scope, x).id) == Some(layer[Key(scope, x)]);
        assert (held + [x])[..|held|] == held;
        assert Held(layer, scope, ids) == held + [x];
      } else {
        assert Held(layer, scope, ids) == held;
      }
    }
  }

  /** The ids a batch answers, in the order of its answer. */
  function Answered<T, C>(cfg: Config<T, C>, s: Store<T, C>, scope: Scope, ids: seq<Id>, calls: BatchCalls): seq<Id> {
    Held(L2Of(cfg, s), scope, ids) + AnsweredBelow(s, scope, Missing(L2Of(cfg, s), scope, ids), calls)
  }

  function AnsweredBelow<T, C>(s: Store<T, C>, scope: Scope, rest: seq<Id>, calls: BatchCalls): seq<Id> {
    Held(s.redis, scope, rest) + Select(calls.listing, Missing(s.redis, scope, rest))
  }

  lemma FreshHeld<T, C>(cfg: Config<T, C>, layer: map<Key, C>, rows: map<Id, T>, scope: Scope, ids: seq<Id>)
    requires Fresh(cfg, layer, rows, scope)
    ensures forall x :: x in Held(layer, scope, ids) ==> x in rows
  {
    HeldAndMissing(layer, scope, ids);
    forall x | x in Held(layer, scope, ids) ensures x in rows {
      assert View(cfg, rows, Key(scope, x).id) == Some(layer[Key(scope, x)]);
    }
  }

  lemma DistinctConcat(a: seq<Id>, b: seq<Id>)
    requires Distinct(a) && Distinct(b) && forall x :: x in a ==> x !in b
    ensures Distinct(a + b)
  {
    forall i, j | 0 <= i < j < |a + b| ensures (a + b)[i] != (a + b)[j] {
      if i < |a| <= j {
        assert a[i] in a && b[j - |a|] in b;
      }
    }
  }

  lemma AnsweredBelowExactly<T, C>(cfg: Config<T, C>, s: Store<T, C>, scope: Scope, rest: seq<Id>, calls: BatchCalls)
    requires Fresh(cfg, s.redis, s.rows, scope) && Lists(calls.listing, s.rows)
    ensures var order := AnsweredBelow(s, scope, rest, calls);
            && (forall x :: x in order <==> x in rest && x in s.rows)
            && (Distinct(rest) ==> Distinct(order))
  {
    HeldAndMissing(s.redis, scope, rest);
    var still := Missing(s.redis, scope, rest);
    SelectDistinct(calls.listing, still);
    FreshHeld(cfg, s.redis, s.rows, scope, rest);
    if Distinct(rest) { DistinctConcat(Held(s.redis, scope, rest), Select(calls.listing, still)); }
  }

  /** Each requested id that exists is answered, and once when the request names it once. */
  lemma AnsweredExactly<T, C>(cfg: Config<T, C>, s: Store<T, C>, scope: Scope, ids: seq<Id>, calls: BatchCalls)
    requires Coherent(cfg, s, scope) && Lists(calls.listing, s.rows)
    ensures var order := Answered(cfg, s, scope, ids, calls);
            && (forall x :: x in order <==> x in ids && x in s.rows)
            && (Distinct(ids) ==> Distinct(order))
  {
    var l2 := L2Of(cfg, s);
    var rest := Missing(l2, scope, ids);
    HeldAndMissing(l2, scope, ids);
    FreshHeld(cfg, l2, s.rows, scope, ids);
    AnsweredBelowExactly(cfg, s, scope, rest, calls);
    if Distinct(ids) { DistinctConcat(Held(l2, scope, ids), AnsweredBelow(s, scope, rest, calls)); }
  }

  lemma BelowAnswersRows<T, C>(cfg: Config<T, C>, s: Store<T, C>, scope: Scope, rest: seq<Id>, calls: BatchCalls)
    requires Fresh(cfg, s.redis, s.rows, scope)
    requires BelowAnswer(cfg, s, scope, rest, calls).Some?
    ensures BelowAnswer(cfg, s, scope, rest, calls).value ==
              RowValues(cfg, s.rows, AnsweredBelow(s, scope, rest, calls))
  {
    var b, c := Held(s.redis, scope, rest), Select(calls.listing, Missing(s.redis, scope, rest));
    if rest == [] {
      SelectNone(calls.listing);
      assert b + c == [];
    } else {
      ValuesAreRows(cfg, s.redis, s.rows, scope, rest);
      RowValuesConcat(cfg, s.rows, b, c);
    }
  }

  lemma BatchAnswersRows<T, C>(cfg: Config<T, C>, s: Store<T, C>, scope: Scope, ids: seq<Id>, calls: BatchCalls)
    requires Coherent(cfg, s, scope)
    requires BatchAnswer(cfg, s, scope, ids, calls).Some?
    ensures BatchAnswer(cfg, s, scope, ids, calls).value == RowValues(cfg, s.rows, Answered(cfg, s, scope, ids, calls))
  {
    var l2 := L2Of(cfg, s);
    var rest := Missing(l2, scope, ids);
    ValuesAreRows(cfg, l2, s.rows, scope, ids);
    BelowAnswersRows(cfg, s, scope, rest, calls);
    RowValuesConcat(cfg, s.rows, Held(l2, scope, ids), AnsweredBelow(s, scope, rest, calls));
  }

  /** A batch that does not throw answers with the rows, and when the requested ids are distinct,
      each id that exists is answered once. */
  lemma BatchIsComplete<T, C>(cfg: Config<T, C>, s: Store<T, C>, scope: Scope, ids: seq<Id>, calls: BatchCalls)
    returns (order: seq<Id>)
    requires Coherent(cfg, s, scope) && Lists(calls.listing, s.rows)
    requires BatchAnswer(cfg, s, scope, ids, calls).Some?
    ensures BatchAnswer(cfg, s, scope, ids, calls).value == RowValues(cfg, s.rows, order)
    ensures forall x :: x in order <==> x in ids && x in s.rows
    ensures Distinct(ids) ==> Distinct(order)
  {
    order := Answered(cfg, s, scope, ids, calls);
    AnsweredExactly(cfg, s, scope, ids, calls);
    BatchAnswersRows(cfg, s, scope, ids, calls);
  }

  /** `getAll` gets through: every call it makes on its way works. */
  predicate AllWorks<T, C>(cfg: Config<T, C>, s: Store<T, C>, scope: Scope, limit: nat, calls: AllCalls) {
    && (calls.smembers.Listed? || calls.smembers == WrongType(Ok))
    && (calls.members != [] ==> BatchAnswer(cfg, s, scope, Limited(calls.members, limit), calls.batch).Some?)
    && (calls.members == [] ==>
          calls.rowRead && (calls.batch.listing != [] ==> calls.sadd == Ok && calls.expire))
  }

  /** `getAll` without a limit answers the indexed rows, or every row when the index is empty; when a
      call fails it answers nothing. */
  lemma AllIsTheIndexOrEverything<T, C>(cfg: Config<T, C>, s: Store<T, C>, scope: Scope, calls: AllCalls)
    returns (order: seq<Id>)
    requires Coherent(cfg, s, scope) && Legal(s, Call(scope, GetAll(0, calls)))
    ensures !AllWorks(cfg, s, scope, 0, calls) ==> AllAnswer(cfg, s, scope, 0, calls) == []
    ensures AllWorks(cfg, s, scope, 0, calls) ==>
              && AllAnswer(cfg, s, scope, 0, calls) == RowValues(cfg, s.rows, order)
              && Distinct(order)
              && forall x :: x in order <==> x in s.rows && (Indexed(s, scope) == {} || x in Indexed(s, scope))
  {
    order := calls.batch.listing;
    if calls.members != [] {
      assert calls.members[0] in Set(calls.members);
      if AllWorks(cfg, s, scope, 0, calls) { order := BatchIsComplete(cfg, s, scope, calls.members, calls.batch); }
      assert forall x :: x in calls.members <==> x in Set(calls.members);
    } else {
      assert Set(calls.members) == {};
      assert calls.rowRead ==> Fallback(s, 0, calls) == order;
    }
  }

  // ---------------------------------------------------------------- the counters

  lemma {:induction false} SetSize(ids: seq<Id>)
    ensures |Set(ids)| <= |ids|
    ensures Distinct(ids) ==> |Set(ids)| == |ids|
    decreases |ids|
  {
    if ids != [] {
      var init, x := ids[..|ids| - 1], ids[|ids| - 1];
      SetSize(init);
      assert ids == init + [x];
      assert Set(ids) == Set(init) + {x};
    }
  }

  lemma SubsetSize(a: set<Id>, b: set<Id>)
    requires a <= b
    ensures |a| <= |b|
  {
    assert b == a + (b - a);
  }

  lemma SelectSize(listing: seq<Id>, wanted: seq<Id>)
    requires Distinct(listing)
    ensures |Select(listing, wanted)| <= |wanted|
  {
    SelectDistinct(listing, wanted);
    SetSize(Select(listing, wanted));
    SetSize(wanted);
    SubsetSize(Set(Select(listing, wanted)), Set(wanted));
  }

  /** Hits that no request stands for, so far. */
  function Surplus(st: Stats): int { Hits(st) - st.totalRequests }

  /** The hits a throwing batch has already counted. */
  function LayerHits<T, C>(cfg: Config<T, C>, s: Store<T, C>, scope: Scope, ids: seq<Id>, calls: BatchCalls): nat {
    |Held(L2Of(cfg, s), scope, ids)|
    + if calls.mget then |Held(s.redis, scope, Missing(L2Of(cfg, s), scope, ids))| else 0
  }

  lemma BelowSurplus<T, C>(cfg: Config<T, C>, s: Store<T, C>, scope: Scope, rest: seq<Id>, calls: BatchCalls)
    requires Lists(calls.listing, s.rows)
    ensures var st := AfterBelow(cfg, s, scope, rest, calls).stats;
            && st.totalRequests == s.stats.totalRequests
            && if BelowAnswer(cfg, s, scope, rest, calls).Some? then Hits(st) <= Hits(s.stats) + |rest|
               else Hits(st) == Hits(s.stats) + if calls.mget then |Held(s.redis, scope, rest)| else 0
  {
    HeldAndMissing(s.redis, scope, rest);
    SelectSize(calls.listing, Missing(s.redis, scope, rest));
  }

  /** An answered batch counts at most its requests; a throwing one counts its hits and no request. */
  lemma BatchSurplus<T, C>(cfg: Config<T, C>, s: Store<T, C>, scope: Scope, ids: seq<Id>, calls: BatchCalls)
    requires Lists(calls.listing, s.rows)
    ensures var s' := AfterBatch(cfg, s, scope, ids, calls);
            if BatchAnswer(cfg, s, scope, ids, calls).Some? then Surplus(s'.stats) <= Surplus(s.stats)
            else Surplus(s'.stats) == Surplus(s.stats) + LayerHits(cfg, s, scope, ids, calls)
  {
    var rest, s1 := Missing(L2Of(cfg, s), scope, ids), AfterMemory(cfg, s, scope, ids);
    HeldAndMissing(L2Of(cfg, s), scope, ids);
    BelowSurplus(cfg, s1, scope, rest, calls);
    assert BelowAnswer(cfg, s1, scope, rest, calls) == BelowAnswer(cfg, s, scope, rest, calls);
  }

  /** A batch throws when memory lacks some of its ids and the multi-get fails, or Redis lacks some of
      those and the batch read of the table fails. */
  predicate BatchThrows<T, C>(cfg: Config<T, C>, s: Store<T, C>, scope: Scope, ids: seq<Id>, calls: BatchCalls) {
    var rest := Missing(L2Of(cfg, s), scope, ids);
    rest != [] && (!calls.mget || (Missing(s.redis, scope, rest) != [] && !calls.rowRead))
  }

  /** From balanced counters, a batch leaves more hits than requests exactly when it throws after a
      layer has answered some of its ids. */
  lemma BatchBreaksTheCountIff<T, C>(cfg: Config<T, C>, s: Store<T, C>, scope: Scope, ids: seq<Id>, calls: BatchCalls)
    requires Lists(calls.listing, s.rows) && Hits(s.stats) == s.stats.totalRequests
    ensures var st := AfterBatch(cfg, s, scope, ids, calls).stats;
            Hits(st) > st.totalRequests <==> BatchThrows(cfg, s, scope, ids, calls) && LayerHits(cfg, s, scope, ids, calls) > 0
  {
    BatchSurplus(cfg, s, scope, ids, calls);
  }

  /** What a call adds to the surplus: the hits of a batch that throws. */
  function Uncounted<T, C>(cfg: Config<T, C>, s: Store<T, C>, call: Call<T>): nat {
    match call.op
    case GetMultiple(ids, calls) =>
      if BatchAnswer(cfg, s, call.scope, ids, calls).Some? then 0 else LayerHits(cfg, s, call.scope, ids, calls)
    case GetAll(limit, calls) =>
      var ids := Limited(calls.members, limit);
      if !calls.smembers.Listed? || calls.members == [] || BatchAnswer(cfg, s, call.scope, ids, calls.batch).Some? then 0
      else LayerHits(cfg, s, call.scope, ids, calls.batch)
    case _ => 0
  }

  function UncountedIn<T, C>(cfg: Config<T, C>, s: Store<T, C>, run: seq<Call<T>>): nat
    decreases |run|
  {
    if run == [] then 0 else Uncounted(cfg, s, run[0]) + UncountedIn(cfg, Step(cfg, s, run[0]), run[1..])
  }

  lemma StepSurplus<T, C>(cfg: Config<T, C>, s: Store<T, C>, call: Call<T>)
    requires Legal(s, call)
    ensures Surplus(Step(cfg, s, call).stats) <= Surplus(s.stats) + Uncounted(cfg, s, call)
  {
    match call.op
    case GetMultiple(ids, calls) => BatchSurplus(cfg, s, call.scope, ids, calls);
    case GetAll(limit, calls) =>
      if calls.smembers.Listed? && calls.members != [] {
        BatchSurplus(cfg, s, call.scope, Limited(calls.members, limit), calls.batch);
      }
    case _ =>
  }

  /** Over any run, hits exceed requests by no more than the hits of the batches that threw; so a run
      in which no batch threw after a hit reports at most as many hits as requests. */
  lemma {:induction false} HitsWithinRequests<T, C>(cfg: Config<T, C>, s: Store<T, C>, run: seq<Call<T>>)
    requires CanRun(cfg, s, run)
    ensures Surplus(Run(cfg, s, run).stats) <= Surplus(s.stats) + UncountedIn(cfg, s, run)
    decreases |run|
  {
    if run != [] {
      StepSurplus(cfg, s, run[0]);
      HitsWithinRequests(cfg, Step(cfg, s, run[0]), run[1..]);
    }
  }

  // ---------------------------------------------------------------- scopes

  ghost predicate SameLayer<C>(a: map<Key, C>, b: map<Key, C>, scope: Scope) {
    forall k: Key :: k.scope == scope ==> (k in a <==> k in b) && (k in a ==> a[k] == b[k])
  }

  ghost predicate SameFor<T, C>(s: Store<T, C>, s': Store<T, C>, scope: Scope) {
    SameLayer(s.redis, s'.redis, scope) && SameLayer(s.memory, s'.memory, scope)
    && Indexed(s, scope) == Indexed(s', scope)
  }

  lemma WithRowsElsewhere<T, C>(cfg: Config<T, C>, base: map<Key, C>, rows: map<Id, T>, scope: Scope, ids: seq<Id>, lost: set<Id>, other: Scope)
    requires scope != other
    ensures SameLayer(base, WithRows(cfg, base, rows, scope, ids, lost), other)
  {
    forall k: Key | k.scope == other
      ensures var m := WithRows(cfg, base, rows, scope, ids, lost);
              (k in base <==> k in m) && (k in base ==> base[k] == m[k])
    {
      WithRowsAt(cfg, base, rows, scope, ids, lost, k);
    }
  }

  lemma LoadedElsewhere<C>(base: map<Key, C>, layer: map<Key, C>, scope: Scope, ids: seq<Id>, other: Scope)
    requires scope != other
    ensures SameLayer(base, Loaded(base, layer, scope, ids), other)
  {
    forall k: Key | k.scope == other
      ensures var m := Loaded(base, layer, scope, ids);
              (k in base <==> k in m) && (k in base ==> base[k] == m[k])
    {
      LoadedAt(base, layer, scope, ids, k);
    }
  }

  lemma RedisElsewhere<T, C>(cfg: Config<T, C>, s: Store<T, C>, scope: Scope, rest: seq<Id>, other: Scope)
    requires scope != other
    ensures SameFor(s, AfterRedis(cfg, s, scope, rest), other)
  {
    LoadedElsewhere(s.memory, s.redis, scope, rest, other);
  }

  lemma TableElsewhere<T, C>(cfg: Config<T, C>, s: Store<T, C>, scope: Scope, still: seq<Id>, calls: BatchCalls, other: Scope)
    requires scope != other
    ensures SameFor(s, AfterTable(cfg, s, scope, still, calls), other)
  {
    WithRowsElsewhere(cfg, s.redis, s.rows, scope, Select(calls.listing, still), calls.lost, other);
    WithRowsElsewhere(cfg, s.memory, s.rows, scope, Select(calls.listing, still), {}, other);
  }

  lemma BatchElsewhere<T, C>(cfg: Config<T, C>, s: Store<T, C>, scope: Scope, ids: seq<Id>, calls: BatchCalls, other: Scope)
    requires scope != other
    ensures SameFor(s, AfterBatch(cfg, s, scope, ids, calls), other)
  {
    var rest := Missing(L2Of(cfg, s), scope, ids);
    var s1 := AfterMemory(cfg, s, scope, ids);
    var s2 := AfterRedis(cfg, s1, scope, rest);
    RedisElsewhere(cfg, s1, scope, rest, other);
    TableElsewhere(cfg, s2, scope, Missing(s1.redis, scope, rest), calls, other);
    var s3 := AfterBelow(cfg, s1, scope, rest, calls);
    assert SameFor(s1, s3, other);
    assert AfterBatch(cfg, s, scope, ids, calls).(stats := s3.stats) == s3;
  }

  lemma FallbackElsewhere<T, C>(cfg: Config<T, C>, s: Store<T, C>, scope: Scope, limit: nat, calls: AllCalls, other: Scope)
    requires scope != other
    ensures SameFor(s, AfterFallback(cfg, s, scope, limit, calls), other)
  {
    WithRowsElsewhere(cfg, s.redis, s.rows, scope, Fallback(s, limit, calls), calls.batch.lost, other);
    WithRowsElsewhere(cfg, s.memory, s.rows, scope, Fallback(s, limit, calls), {}, other);
  }

  lemma AllElsewhere<T, C>(cfg: Config<T, C>, s: Store<T, C>, scope: Scope, limit: nat, calls: AllCalls, other: Scope)
    requires scope != other
    ensures SameFor(s, AfterAll(cfg, s, scope, limit, calls), other)
  {
    match calls.smembers
    case Unread =>
    case Listed =>
      BatchElsewhere(cfg, s, scope, Limited(calls.members, limit), calls.batch, other);
      FallbackElsewhere(cfg, s, scope, limit, calls, other);
    case WrongType(_) =>
      assert SameFor(s, IndexKeyDropped(s, scope), other);
      FallbackElsewhere(cfg, IndexKeyDropped(s, scope), scope, limit, calls, other);
  }

  /** Scope isolation: what one scope does, failures included, leaves every other scope's cached
      values and index as they were. */
  lemma {:induction false} ScopesAreIsolated<T, C>(cfg: Config<T, C>, s: Store<T, C>, run: seq<Call<T>>, other: Scope)
    requires forall call :: call in run ==> call.scope != other && !call.op.Expire?
    ensures SameFor(s, Run(cfg, s, run), other)
    decreases |run|
  {
    if run != [] {
      StepElsewhere(cfg, s, run[0], other);
      ScopesAreIsolated(cfg, Step(cfg, s, run[0]), run[1..], other);
    }
  }

  lemma GetElsewhere<T, C>(cfg: Config<T, C>, s: Store<T, C>, k: Key, calls: GetCalls, other: Scope)
    requires k.scope != other
    ensures SameFor(s, AfterGet(cfg, s, k, calls), other)
  {
  }

  lemma SaveElsewhere<T, C>(cfg: Config<T, C>, s: Store<T, C>, scope: Scope, row: T, calls: SetCalls, other: Scope)
    requires scope != other
    ensures SameFor(s, AfterSet(cfg, s, scope, row, calls), other)
  {
  }

  lemma RemoveElsewhere<T, C>(cfg: Config<T, C>, s: Store<T, C>, k: Key, calls: InvalidateCalls, other: Scope)
    requires k.scope != other
    ensures SameFor(s, AfterInvalidate(cfg, s, k, calls), other)
  {
  }

  lemma ClearElsewhere<T, C>(cfg: Config<T, C>, s: Store<T, C>, scope: Scope, calls: ClearCalls, other: Scope)
    requires scope != other
    ensures SameFor(s, AfterClear(cfg, s, scope, calls), other)
  {
  }

  lemma StepElsewhere<T, C>(cfg: Config<T, C>, s: Store<T, C>, call: Call<T>, other: Scope)
    requires call.scope != other && !call.op.Expire?
    ensures SameFor(s, Step(cfg, s, call), other)
  {
    match call.op
    case Get(id, calls) => GetElsewhere(cfg, s, Key(call.scope, id), calls, other);
    case GetMultiple(ids, calls) => BatchElsewhere(cfg, s, call.scope, ids, calls, other);
    case GetAll(limit, calls) => AllElsewhere(cfg, s, call.scope, limit, calls, other);
    case Save(row, calls) =>
      SaveElsewhere(cfg, s.(rows := s.rows[cfg.idOf(row) := row]), call.scope, row, calls, other);
    case Remove(id, calls) =>
      RemoveElsewhere(cfg, s.(rows := s.rows - {id}), Key(call.scope, id), calls, other);
    case Clear(calls) => ClearElsewhere(cfg, s, call.scope, calls, other);
    case IndexExpires =>
  }
}
