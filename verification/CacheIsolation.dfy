/** Scope isolation at the level of the names that Redis compares. `CacheCoherence` keeps scopes apart
    by structured keys; here the values are looked up by the text of their key, and nothing is assumed
    of that text but that scopes and ids contain no colon. */
module CacheIsolation {
  import opened Prelude
  import opened BaseCache
  import opened CacheCoherence
  import K = CacheKeys

  function Name(service: K.Service, k: Key): string { K.Text(K.Value(service, k.scope, k.id)) }

  function IndexName(service: K.Service, scope: Scope): string { K.Text(K.Index(service, scope)) }

  predicate PlainKey(k: Key) { K.Plain(k.scope) && K.Plain(k.id) }

  ghost predicate PlainLayer<C>(layer: map<Key, C>) { forall k :: k in layer ==> PlainKey(k) }

  ghost predicate PlainStore<T, C>(s: Store<T, C>) {
    PlainLayer(s.redis) && PlainLayer(s.memory) && forall id :: id in s.rows ==> K.Plain(id)
  }

  ghost predicate PlainCall<T, C>(cfg: Config<T, C>, call: Call<T>) {
    K.Plain(call.scope) && (call.op.Save? ==> K.Plain(cfg.idOf(call.op.row)))
  }

  /** Under this name the layer holds this value. */
  ghost predicate Holds<C>(service: K.Service, layer: map<Key, C>, name: string, v: C) {
    exists k :: k in layer && Name(service, k) == name && layer[k] == v
  }

  // ---------------------------------------------------------------- keys stay plain

  lemma WithRowsPlain<T, C>(cfg: Config<T, C>, base: map<Key, C>, rows: map<Id, T>, scope: Scope, ids: seq<Id>, lost: set<Id>)
    requires PlainLayer(base) && K.Plain(scope) && forall id :: id in rows ==> K.Plain(id)
    ensures PlainLayer(WithRows(cfg, base, rows, scope, ids, lost))
  {
    forall k | k in WithRows(cfg, base, rows, scope, ids, lost) ensures PlainKey(k) {
      WithRowsAt(cfg, base, rows, scope, ids, lost, k);
    }
  }

  lemma LoadedPlain<C>(base: map<Key, C>, layer: map<Key, C>, scope: Scope, ids: seq<Id>)
    requires PlainLayer(base) && PlainLayer(layer)
    ensures PlainLayer(Loaded(base, layer, scope, ids))
  {
    forall k | k in Loaded(base, layer, scope, ids) ensures PlainKey(k) {
      LoadedAt(base, layer, scope, ids, k);
    }
  }

  lemma BatchPlain<T, C>(cfg: Config<T, C>, s: Store<T, C>, scope: Scope, ids: seq<Id>, calls: BatchCalls)
    requires PlainStore(s) && K.Plain(scope)
    ensures PlainStore(AfterBatch(cfg, s, scope, ids, calls))
  {
    var rest, s1 := Missing(L2Of(cfg, s), scope, ids), AfterMemory(cfg, s, scope, ids);
    LoadedPlain(s.memory, s.redis, scope, rest);
    TablePlain(cfg, AfterRedis(cfg, s1, scope, rest), scope, Missing(s.redis, scope, rest), calls);
    assert PlainStore(AfterBelow(cfg, s1, scope, rest, calls));
  }

  lemma TablePlain<T, C>(cfg: Config<T, C>, s: Store<T, C>, scope: Scope, still: seq<Id>, calls: BatchCalls)
    requires PlainStore(s) && K.Plain(scope)
    ensures PlainStore(AfterTable(cfg, s, scope, still, calls))
  {
    WithRowsPlain(cfg, s.redis, s.rows, scope, Select(calls.listing, still), calls.lost);
    WithRowsPlain(cfg, s.memory, s.rows, scope, Select(calls.listing, still), {});
  }

  lemma AllPlain<T, C>(cfg: Config<T, C>, s: Store<T, C>, scope: Scope, limit: nat, calls: AllCalls)
    requires PlainStore(s) && K.Plain(scope)
    ensures PlainStore(AfterAll(cfg, s, scope, limit, calls))
  {
    BatchPlain(cfg, s, scope, Limited(calls.members, limit), calls.batch);
    FallbackPlain(cfg, s, scope, limit, calls);
    FallbackPlain(cfg, IndexKeyDropped(s, scope), scope, limit, calls);
  }

  lemma FallbackPlain<T, C>(cfg: Config<T, C>, s: Store<T, C>, scope: Scope, limit: nat, calls: AllCalls)
    requires PlainStore(s) && K.Plain(scope)
    ensures PlainStore(AfterFallback(cfg, s, scope, limit, calls))
  {
    WithRowsPlain(cfg, s.redis, s.rows, scope, Fallback(s, limit, calls), calls.batch.lost);
    WithRowsPlain(cfg, s.memory, s.rows, scope, Fallback(s, limit, calls), {});
  }

  lemma GetPlain<T, C>(cfg: Config<T, C>, s: Store<T, C>, k: Key, calls: GetCalls)
    requires PlainStore(s) && K.Plain(k.scope)
    ensures PlainStore(AfterGet(cfg, s, k, calls))
  {
  }

  lemma SavePlain<T, C>(cfg: Config<T, C>, s: Store<T, C>, scope: Scope, row: T, calls: SetCalls)
    requires PlainStore(s) && K.Plain(scope) && K.Plain(cfg.idOf(row))
    ensures PlainStore(AfterSet(cfg, s, scope, row, calls))
  {
  }

  lemma RemovePlain<T, C>(cfg: Config<T, C>, s: Store<T, C>, k: Key, calls: InvalidateCalls)
    requires PlainStore(s)
    ensures PlainStore(AfterInvalidate(cfg, s, k, calls))
  {
  }

  lemma ClearPlain<T, C>(cfg: Config<T, C>, s: Store<T, C>, scope: Scope, calls: ClearCalls)
    requires PlainStore(s)
    ensures PlainStore(AfterClear(cfg, s, scope, calls))
  {
  }

  lemma StepPlain<T, C>(cfg: Config<T, C>, s: Store<T, C>, call: Call<T>)
    requires PlainStore(s) && PlainCall(cfg, call)
    ensures PlainStore(Step(cfg, s, call))
  {
    match call.op
    case Get(id, calls) => GetPlain(cfg, s, Key(call.scope, id), calls);
    case GetMultiple(ids, calls) => BatchPlain(cfg, s, call.scope, ids, calls);
    case GetAll(limit, calls) => AllPlain(cfg, s, call.scope, limit, calls);
    case Save(row, calls) => SavePlain(cfg, s.(rows := s.rows[cfg.idOf(row) := row]), call.scope, row, calls);
    case Remove(id, calls) => RemovePlain(cfg, s.(rows := s.rows - {id}), Key(call.scope, id), calls);
    case Clear(calls) => ClearPlain(cfg, s, call.scope, calls);
    case Expire(_, _) =>
    case IndexExpires =>
  }

  lemma {:induction false} RunPlain<T, C>(cfg: Config<T, C>, s: Store<T, C>, run: seq<Call<T>>)
    requires PlainStore(s) && forall call :: call in run ==> PlainCall(cfg, call)
    ensures PlainStore(Run(cfg, s, run))
    decreases |run|
  {
    if run != [] {
      StepPlain(cfg, s, run[0]);
      RunPlain(cfg, Step(cfg, s, run[0]), run[1..]);
    }
  }

  // ---------------------------------------------------------------- isolation by name

  lemma SameByName<C>(service: K.Service, a: map<Key, C>, b: map<Key, C>, k: Key, v: C)
    requires PlainLayer(a) && PlainLayer(b) && PlainKey(k) && SameLayer(a, b, k.scope)
    ensures Holds(service, a, Name(service, k), v) <==> Holds(service, b, Name(service, k), v)
  {
    forall layer | layer == a || layer == b ensures Holds(service, layer, Name(service, k), v) <==> k in layer && layer[k] == v {
      forall j | j in layer && Name(service, j) == Name(service, k) ensures j == k {
        K.ValueKeysAreDistinct(service, j, k);
      }
    }
  }

  /** What one scope does, failures included, changes no value that another scope finds under its names,
      in Redis or in memory; and it writes to no name of that scope, value or index. */
  lemma ScopesAreIsolatedByName<T, C>(cfg: Config<T, C>, service: K.Service, s: Store<T, C>, run: seq<Call<T>>, other: Scope)
    requires PlainStore(s) && K.Plain(other)
    requires forall call :: call in run ==> PlainCall(cfg, call) && call.scope != other && !call.op.Expire?
    ensures var end := Run(cfg, s, run);
            forall id, v :: K.Plain(id) ==>
              var name := Name(service, Key(other, id));
              && (Holds(service, s.redis, name, v) <==> Holds(service, end.redis, name, v))
              && (Holds(service, s.memory, name, v) <==> Holds(service, end.memory, name, v))
    ensures var end := Run(cfg, s, run);
            && (forall k :: k in end.redis && k !in s.redis ==> Name(service, k) != IndexName(service, other))
            && (forall call :: call in run ==> IndexName(service, call.scope) != IndexName(service, other))
            && (forall call, id :: call in run && K.Plain(id) ==> IndexName(service, call.scope) != Name(service, Key(other, id)))
            && Indexed(s, other) == Indexed(end, other)
  {
    var end := Run(cfg, s, run);
    RunPlain(cfg, s, run);
    ScopesAreIsolated(cfg, s, run, other);
    forall id, v | K.Plain(id)
      ensures Holds(service, s.redis, Name(service, Key(other, id)), v) <==> Holds(service, end.redis, Name(service, Key(other, id)), v)
      ensures Holds(service, s.memory, Name(service, Key(other, id)), v) <==> Holds(service, end.memory, Name(service, Key(other, id)), v)
    {
      SameByName(service, s.redis, end.redis, Key(other, id), v);
      SameByName(service, s.memory, end.memory, Key(other, id), v);
    }
    forall k | k in end.redis && k !in s.redis ensures Name(service, k) != IndexName(service, other) {
      K.ValueKeysAreDistinct(service, k, Key(other, "index"));
    }
    forall call | call in run ensures IndexName(service, call.scope) != IndexName(service, other) {
      K.PlainNames();
      K.SameTextIff(K.Index(service, call.scope), K.Index(service, other));
    }
    forall call, id | call in run && K.Plain(id) ensures IndexName(service, call.scope) != Name(service, Key(other, id)) {
      K.ValueKeysAreDistinct(service, Key(other, id), Key(call.scope, id));
    }
  }
}
