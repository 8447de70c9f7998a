/** Journeys and their cache: `JourneysService` over `JourneyCacheService`. The question throughout is
    whether `findActive`, which feeds every event to the active journeys, misses one. */
module Journeys {
  import opened Prelude
  import opened BaseCache
  import opened CacheCoherence

  /** The trigger column: a list, text that parses to a list, other text, or nothing. */
  datatype Triggers = List(items: seq<string>) | Json(items: seq<string>) | Broken | Unset

  /** `body` stands for the fields that are only carried along. */
  datatype Journey = Journey(
    id: Id, name: string, isActive: bool, flowTriggers: Triggers, variables: Option<seq<string>>, body: string)

  datatype CachedJourney = CachedJourney(
    id: Id, name: string, isActive: bool, flowTriggers: seq<string>, variables: seq<string>, body: string)

  /** `transformToCached`. */
  function ToCached(j: Journey): CachedJourney {
    CachedJourney(
      j.id, j.name, j.isActive,
      match j.flowTriggers { case List(ts) => ts case Json(ts) => ts case Broken => [] case Unset => [] },
      if j.variables.Some? then j.variables.value else [],
      j.body)
  }

  /** The journey that the service rebuilds from a cached one. */
  function FromCached(c: CachedJourney): Journey {
    Journey(c.id, c.name, c.isActive, List(c.flowTriggers), Some(c.variables), c.body)
  }

  /** The journey cache has no memory layer. */
  const CFG: Config<Journey, CachedJourney> := Config(ToCached, (j: Journey) => j.id, false)

  type Journal = Store<Journey, CachedJourney>

  // ---------------------------------------------------------------- requests

  /** The three ways to change a journey that exists. */
  datatype Change =
    | Patch(name: Option<string>, isActive: Option<bool>, flowTriggers: Option<Triggers>)
    | Toggle
    | Variables(variables: seq<string>)

  function Applied(change: Change, j: Journey): Journey {
    match change
    case Patch(name, active, triggers) =>
      j.(name := if name.Some? then name.value else j.name,
         isActive := if active.Some? then active.value else j.isActive,
         flowTriggers := if triggers.Some? then triggers.value else j.flowTriggers)
    case Toggle => j.(isActive := !j.isActive)
    case Variables(vs) => j.(variables := Some(vs))
  }

  /** The journey a change answers with, or why there is none. */
  function Changed(f: Found, change: Change, table: Outcome): Found {
    if !f.Here? then f else if table == Ok then Here(Applied(change, f.journey)) else Thrown
  }

  function Removed(f: Found, calls: Calls): Found {
    if f.Here? && (calls.table != Ok || calls.invalidate.del != Ok) then Thrown else f
  }

  function Copied(f: Found, copy: Id, table: Outcome): Found {
    if !f.Here? then f else if table == Ok then Here(Copy(f.journey, copy)) else Thrown
  }

  /** How the awaited calls of a request end: the cached lookup, the row lookup that may follow it,
      the table write, and the cache write or invalidation after it. */
  datatype Calls = Calls(
    get: GetCalls, rowRead: bool, table: Outcome, put: SetCalls, invalidate: InvalidateCalls)

  datatype Found = Here(journey: Journey) | NotFound | Thrown

  /** What `findOne` answers. After a lookup that found no row, its own read of the table finds none
      either. */
  function Lookup(s: Journal, scope: Scope, id: Id, calls: Calls): Found {
    match GetAnswer(CFG, s, Key(scope, id), calls.get)
    case None => Thrown
    case Some(Some(c)) => Here(FromCached(c))
    case Some(None) => if calls.rowRead then NotFound else Thrown
  }

  function AfterLookup(s: Journal, scope: Scope, id: Id, calls: Calls): Journal {
    AfterGet(CFG, s, Key(scope, id), calls.get)
  }

  /** Saving a row and then the cache; an exception from the table skips the cache. */
  function AfterSaving(s: Journal, scope: Scope, j: Journey, calls: Calls): Journal {
    match calls.table
    case Failed => s
    case AckLost => s.(rows := s.rows[j.id := j])
    case Ok => Step(CFG, s, Call(scope, Save(j, calls.put)))
  }

  function AfterRemoving(s: Journal, scope: Scope, id: Id, calls: Calls): Journal {
    match calls.table
    case Failed => s
    case AckLost => s.(rows := s.rows - {id})
    case Ok => Step(CFG, s, Call(scope, Remove(id, calls.invalidate)))
  }

  /** Caching rows one after another; `lost` names the ids whose writes do not arrive. */
  function AfterPuts(s: Journal, scope: Scope, ids: seq<Id>, lost: map<Id, SetCalls>): Journal
    decreases |ids|
  {
    if ids == [] then s
    else
      var s', id := AfterPuts(s, scope, ids[..|ids| - 1], lost), ids[|ids| - 1];
      if id in s.rows
      then AfterSet(CFG, s', scope, s.rows[id], if id in lost then lost[id] else SetCalls(true, true)) else s'
  }

  datatype Request =
    | Create(journey: Journey, calls: Calls)
    | Modify(id: Id, change: Change, calls: Calls)
    | Delete(id: Id, calls: Calls)
    | Duplicate(id: Id, copy: Id, calls: Calls)
    | FindOne(id: Id, calls: Calls)
    | FindActive(all: AllCalls, rowRead: bool, lost: map<Id, SetCalls>)
    | Warm(listing: seq<Id>, rowRead: bool, lost: map<Id, SetCalls>)
    | ValuesExpire(keys: set<Key>)

  function Copy(j: Journey, id: Id): Journey {
    j.(id := id, name := j.name + " (Copy)", isActive := false)
  }

  function After(s: Journal, scope: Scope, r: Request): Journal {
    match r
    case Create(j, calls) => AfterSaving(s, scope, j, calls)
    case Modify(id, change, calls) =>
      var f, s' := Lookup(s, scope, id, calls), AfterLookup(s, scope, id, calls);
      if f.Here? then AfterSaving(s', scope, Applied(change, f.journey), calls) else s'
    case Delete(id, calls) =>
      var f, s' := Lookup(s, scope, id, calls), AfterLookup(s, scope, id, calls);
      if f.Here? then AfterRemoving(s', scope, id, calls) else s'
    case Duplicate(id, copy, calls) =>
      var f, s' := Lookup(s, scope, id, calls), AfterLookup(s, scope, id, calls);
      if f.Here? && calls.table != Failed then s'.(rows := s'.rows[copy := Copy(f.journey, copy)]) else s'
    case FindOne(id, calls) => AfterLookup(s, scope, id, calls)
    case FindActive(all, rowRead, lost) =>
      var s' := AfterAll(CFG, s, scope, 0, all);
      if ActiveOf(AllAnswer(CFG, s, scope, 0, all)) == [] && rowRead
      then AfterPuts(s', scope, ActiveIn(s.rows, all.batch.listing), lost) else s'
    case Warm(listing, rowRead, lost) =>
      if rowRead then AfterPuts(s, scope, ActiveIn(s.rows, listing), lost) else s
    case ValuesExpire(keys) => Step(CFG, s, Call(scope, Expire(keys, {})))
  }

  /** `getActiveJourneys`: the active ones among the cached. */
  function ActiveOf(cs: seq<CachedJourney>): seq<CachedJourney>
    decreases |cs|
  {
    if cs == [] then []
    else ActiveOf(cs[..|cs| - 1]) + if cs[|cs| - 1].isActive then [cs[|cs| - 1]] else []
  }

  /** The table's active rows, in the order it lists them. */
  function ActiveIn(rows: map<Id, Journey>, listing: seq<Id>): seq<Id>
    decreases |listing|
  {
    if listing == [] then []
    else
      var id := listing[|listing| - 1];
      ActiveIn(rows, listing[..|listing| - 1]) + if id in rows && rows[id].isActive then [id] else []
  }

  function Restored(cs: seq<CachedJourney>): (js: seq<Journey>)
    ensures |js| == |cs| && forall i :: 0 <= i < |cs| ==> js[i] == FromCached(cs[i])
    decreases |cs|
  {
    if cs == [] then [] else Restored(cs[..|cs| - 1]) + [FromCached(cs[|cs| - 1])]
  }

  function RowsOf(rows: map<Id, Journey>, ids: seq<Id>): seq<Journey>
    decreases |ids|
  {
    if ids == [] then []
    else
      var id := ids[|ids| - 1];
      RowsOf(rows, ids[..|ids| - 1]) + if id in rows then [rows[id]] else []
  }

  /** `findActive`: what the cache lists as active, or the table when it lists nothing. */
  function ActiveAnswer(s: Journal, scope: Scope, all: AllCalls, rowRead: bool): Option<seq<Journey>> {
    var cached := ActiveOf(AllAnswer(CFG, s, scope, 0, all));
    if cached != [] then Some(Restored(cached))
    else if rowRead then Some(RowsOf(s.rows, ActiveIn(s.rows, all.batch.listing)))
    else None
  }

  // ---------------------------------------------------------------- the service

  class JourneysService {
    const repository: Repository<Journey>
    const cache: BaseCacheService<Journey, CachedJourney>

    constructor (repository: Repository<Journey>)
      ensures this.repository == repository && Wired()
    {
      this.repository := repository;
      this.cache := new BaseCacheService(CFG, repository);
    }

    ghost predicate Wired()
    {
      cache.repository == repository && cache.cfg == CFG
    }

    function Value(): Journal
      reads cache, repository, cache.repository
    {
      cache.Value()
    }

    /** `findOne`. */
    method FindOne(scope: Scope, id: Id, calls: Calls) returns (found: Found)
      requires Wired()
      modifies cache
      ensures found == Lookup(old(Value()), scope, id, calls)
      ensures Value() == AfterLookup(old(Value()), scope, id, calls)
    {
      var cached := cache.Get(scope, id, calls.get);
      match cached
      case None => found := Thrown;
      case Some(Some(c)) => found := Here(FromCached(c));
      case Some(None) =>
        found := if calls.rowRead then NotFound else Thrown;
    }

    /** `save` followed by the cache write; false when the table throws. */
    method SaveAndCache(scope: Scope, j: Journey, calls: Calls) returns (saved: bool)
      requires Wired()
      modifies cache, repository
      ensures saved == (calls.table == Ok)
      ensures Value() == AfterSaving(old(Value()), scope, j, calls)
    {
      if calls.table == Failed { return false; }
      repository.rows := repository.rows[j.id := j];
      if calls.table == AckLost { return false; }
      cache.Put(scope, j, calls.put);
      saved := true;
    }

    method Create(scope: Scope, j: Journey, calls: Calls) returns (saved: bool)
      requires Wired()
      modifies cache, repository
      ensures saved == (calls.table == Ok)
      ensures Value() == After(old(Value()), scope, Request.Create(j, calls))
    {
      saved := SaveAndCache(scope, j, calls);
    }

    method Update(scope: Scope, id: Id, patch: Change, calls: Calls) returns (found: Found)
      requires Wired() && patch.Patch?
      modifies cache, repository
      ensures Value() == After(old(Value()), scope, Modify(id, patch, calls))
      ensures found == Changed(Lookup(old(Value()), scope, id, calls), patch, calls.table)
    {
      found := FindOne(scope, id, calls);
      if found.Here? {
        var j := found.journey;
        if patch.name.Some? { j := j.(name := patch.name.value); }
        if patch.isActive.Some? { j := j.(isActive := patch.isActive.value); }
        if patch.flowTriggers.Some? { j := j.(flowTriggers := patch.flowTriggers.value); }
        var saved := SaveAndCache(scope, j, calls);
        found := if saved then Here(j) else Thrown;
      }
    }

    method ToggleActive(scope: Scope, id: Id, calls: Calls) returns (found: Found)
      requires Wired()
      modifies cache, repository
      ensures Value() == After(old(Value()), scope, Modify(id, Toggle, calls))
      ensures found == Changed(Lookup(old(Value()), scope, id, calls), Toggle, calls.table)
    {
      found := FindOne(scope, id, calls);
      if found.Here? {
        var j := found.journey.(isActive := !found.journey.isActive);
        var saved := SaveAndCache(scope, j, calls);
        found := if saved then Here(j) else Thrown;
      }
    }

    method UpdateJourneyVariables(scope: Scope, id: Id, variables: seq<string>, calls: Calls) returns (found: Found)
      requires Wired()
      modifies cache, repository
      ensures found == Changed(Lookup(old(Value()), scope, id, calls), Variables(variables), calls.table)
      ensures Value() == After(old(Value()), scope, Modify(id, Variables(variables), calls))
    {
      found := FindOne(scope, id, calls);
      if found.Here? {
        var j := found.journey.(variables := Some(variables));
        var saved := SaveAndCache(scope, j, calls);
        found := if saved then Here(j) else Thrown;
      }
    }

    method Remove(scope: Scope, id: Id, calls: Calls) returns (found: Found)
      requires Wired()
      modifies cache, repository
      ensures found == Removed(Lookup(old(Value()), scope, id, calls), calls)
      ensures Value() == After(old(Value()), scope, Delete(id, calls))
    {
      found := FindOne(scope, id, calls);
      if found.Here? {
        if calls.table == Failed { return Thrown; }
        repository.rows := repository.rows - {id};
        if calls.table == AckLost { return Thrown; }
        var dropped := cache.Invalidate(scope, id, calls.invalidate);
        if !dropped { found := Thrown; }
      }
    }

    /** The copy gets a fresh id and is not cached. */
    method Duplicate(scope: Scope, id: Id, copy: Id, calls: Calls) returns (found: Found)
      requires Wired()
      modifies cache, repository
      ensures found == Copied(Lookup(old(Value()), scope, id, calls), copy, calls.table)
      ensures Value() == After(old(Value()), scope, Request.Duplicate(id, copy, calls))
    {
      found := FindOne(scope, id, calls);
      if found.Here? {
        var j := found.journey.(id := copy, name := found.journey.name + " (Copy)", isActive := false);
        if calls.table == Failed { return Thrown; }
        repository.rows := repository.rows[copy := j];
        found := if calls.table == Ok then Here(j) else Thrown;
      }
    }

    method PutAll(scope: Scope, ids: seq<Id>, lost: map<Id, SetCalls>)
      requires Wired() && forall id :: id in ids ==> id in repository.rows
      modifies cache
      ensures Value() == AfterPuts(old(Value()), scope, ids, lost)
    {
      ghost var s := Value();
      for i := 0 to |ids|
        invariant repository.rows == s.rows
        invariant Value() == AfterPuts(s, scope, ids[..i], lost)
      {
        assert ids[..i + 1][..i] == ids[..i];
        cache.Put(scope, repository.rows[ids[i]], if ids[i] in lost then lost[ids[i]] else SetCalls(true, true));
      }
      assert ids[..|ids|] == ids;
    }

    /** `warmActiveJourneysCache`: no answer when the table read throws. */
    method WarmActiveJourneysCache(scope: Scope, listing: seq<Id>, rowRead: bool, lost: map<Id, SetCalls>)
      returns (count: Option<nat>)
      requires Wired() && Lists(listing, repository.rows)
      modifies cache
      ensures count == if rowRead then Some(|RowsOf(old(repository.rows), ActiveIn(old(repository.rows), listing))|) else None
      ensures Value() == After(old(Value()), scope, Warm(listing, rowRead, lost))
    {
      if !rowRead { return None; }
      var active := Repopulate(scope, listing, lost);
      count := Some(|active|);
    }

    method FindActive(scope: Scope, all: AllCalls, rowRead: bool, lost: map<Id, SetCalls>)
      returns (answer: Option<seq<Journey>>)
      requires Wired() && Lists(all.batch.listing, repository.rows) && Keyed(CFG, repository.rows)
      modifies cache
      ensures answer == ActiveAnswer(old(Value()), scope, all, rowRead)
      ensures Value() == After(old(Value()), scope, Request.FindActive(all, rowRead, lost))
    {
      var everything := cache.GetAll(scope, 0, all);
      var cached := ActiveOf(everything);
      if |cached| > 0 { return Some(Restored(cached)); }
      if !rowRead { return None; }
      var journeys := Repopulate(scope, all.batch.listing, lost);
      answer := Some(journeys);
    }

    method Repopulate(scope: Scope, listing: seq<Id>, lost: map<Id, SetCalls>) returns (journeys: seq<Journey>)
      requires Wired()
      modifies cache
      ensures journeys == RowsOf(repository.rows, ActiveIn(repository.rows, listing))
      ensures Value() == AfterPuts(old(Value()), scope, ActiveIn(repository.rows, listing), lost)
    {
      var active := ActiveIn(repository.rows, listing);
      ActiveInIs(repository.rows, listing);
      PutAll(scope, active, lost);
      journeys := RowsOf(repository.rows, active);
    }
  }

  lemma {:induction false} ActiveInIs(rows: map<Id, Journey>, listing: seq<Id>)
    ensures forall id :: id in ActiveIn(rows, listing) <==> id in listing && id in rows && rows[id].isActive
    ensures Distinct(listing) ==> Distinct(ActiveIn(rows, listing))
    decreases |listing|
  {
    if listing != [] {
      var init := listing[..|listing| - 1];
      ActiveInIs(rows, init);
      assert listing == init + [listing[|listing| - 1]];
    }
  }

  // ---------------------------------------------------------------- what the cache shows

  /** Caching a journey, changing the rebuilt journey and caching that shows the same as changing the
      row itself: nothing is lost on the way through the cache. */
  lemma ChangesCommuteWithCaching(change: Change, row: Journey)
    ensures ToCached(FromCached(ToCached(row))) == ToCached(row)
    ensures ToCached(Applied(change, FromCached(ToCached(row)))) == ToCached(Applied(change, row))
  {
  }

  /** A change that goes through is what the next lookup shows, wherever the lookup is answered. */
  lemma ChangeIsVisible(s: Journal, scope: Scope, id: Id, change: Change, calls: Calls, later: GetCalls)
    requires Coherent(CFG, s, scope) && Keyed(CFG, s.rows)
    requires id in s.rows && Lookup(s, scope, id, calls).Here? && calls.table == Ok && calls.put.redisWrite
    ensures var s' := After(s, scope, Modify(id, change, calls));
            && View(CFG, s'.rows, id) == Some(ToCached(Applied(change, s.rows[id])))
            && var a := GetAnswer(CFG, s', Key(scope, id), later);
               a.Some? ==> a.value == Some(ToCached(Applied(change, s.rows[id])))
  {
    var k := Key(scope, id);
    GetIsTransparent(CFG, s, scope, id, calls.get);
    ChangesCommuteWithCaching(change, s.rows[id]);
    var j := Applied(change, Lookup(s, scope, id, calls).journey);
    var looked := AfterLookup(s, scope, id, calls);
    assert ToCached(s.rows[id]).id == id;
    assert CFG.idOf(j) == id;
    StepKeepsCoherence(CFG, s, Call(scope, Get(id, calls.get)), scope);
    StepKeepsCoherence(CFG, looked, Call(scope, Save(j, calls.put)), scope);
    GetIsTransparent(CFG, AfterSaving(looked, scope, j, calls), scope, id, later);
  }

  // ---------------------------------------------------------------- the index is complete

  predicate IsActive(rows: map<Id, Journey>, id: Id) { id in rows && rows[id].isActive }

  ghost predicate IndexComplete(s: Journal, scope: Scope) {
    forall id :: IsActive(s.rows, id) ==> id in Indexed(s, scope)
  }

  ghost predicate Inv(s: Journal, scope: Scope) {
    Coherent(CFG, s, scope) && Keyed(CFG, s.rows) && IndexComplete(s, scope)
  }

  /** The Redis writes and deletes that follow a row change arrive, and the table does not lose an
      acknowledgement on rows the cache serves. Reads and lookups may fail freely. */
  predicate Steady(r: Request) {
    match r
    case Create(_, calls) => calls.table != AckLost && calls.put == SetCalls(true, true)
    case Modify(_, _, calls) => calls.table != AckLost && calls.put == SetCalls(true, true)
    case Delete(_, calls) => calls.table != AckLost && calls.invalidate.del == Ok
    case _ => true
  }

  ghost predicate Possible(s: Journal, scope: Scope, r: Request) {
    match r
    case Duplicate(_, copy, _) => copy !in s.rows
    case FindActive(all, _, _) => Legal(s, Call(scope, GetAll(0, all)))
    case Warm(listing, _, _) => Lists(listing, s.rows)
    case _ => true
  }

  lemma SavingKeeps(s: Journal, scope: Scope, j: Journey, calls: Calls)
    requires Inv(s, scope) && calls.table != AckLost && calls.put == SetCalls(true, true)
    ensures Inv(AfterSaving(s, scope, j, calls), scope)
  {
    if calls.table == Ok { StepKeepsCoherence(CFG, s, Call(scope, Save(j, calls.put)), scope); }
    IndexStays(s, AfterSaving(s, scope, j, calls), scope, j.id);
  }

  /** Nothing but `changed` became active, and nothing but `changed` left the index. */
  lemma IndexStays(s: Journal, s': Journal, scope: Scope, changed: Id)
    requires IndexComplete(s, scope)
    requires forall id :: id != changed && IsActive(s'.rows, id) ==> IsActive(s.rows, id)
    requires forall id :: id != changed && id in Indexed(s, scope) ==> id in Indexed(s', scope)
    requires IsActive(s'.rows, changed) ==> changed in Indexed(s', scope)
    ensures IndexComplete(s', scope)
  {
    forall id | IsActive(s'.rows, id) ensures id in Indexed(s', scope) {
      if id != changed { assert IsActive(s.rows, id); }
    }
  }

  lemma RemovingKeeps(s: Journal, scope: Scope, id: Id, calls: Calls)
    requires Inv(s, scope) && calls.table != AckLost && calls.invalidate.del == Ok
    ensures Inv(AfterRemoving(s, scope, id, calls), scope)
  {
    if calls.table == Ok { StepKeepsCoherence(CFG, s, Call(scope, Remove(id, calls.invalidate)), scope); }
    IndexStays(s, AfterRemoving(s, scope, id, calls), scope, id);
  }

  lemma LookupKeeps(s: Journal, scope: Scope, id: Id, calls: Calls)
    requires Inv(s, scope)
    ensures Inv(AfterLookup(s, scope, id, calls), scope)
    ensures AfterLookup(s, scope, id, calls).rows == s.rows
    ensures Lookup(s, scope, id, calls).Here? ==> Lookup(s, scope, id, calls).journey.id == id && id in s.rows
  {
    GetIsTransparent(CFG, s, scope, id, calls.get);
    StepKeepsCoherence(CFG, s, Call(scope, Get(id, calls.get)), scope);
  }

  lemma AllKeepsIndex(s: Journal, scope: Scope, all: AllCalls)
    requires Legal(s, Call(scope, GetAll(0, all)))
    ensures AfterAll(CFG, s, scope, 0, all).rows == s.rows
    ensures Indexed(s, scope) <= Indexed(AfterAll(CFG, s, scope, 0, all), scope)
  {
    if all.smembers.Listed? && all.members == [] {
      FallbackKeepsIndex(s, scope, all);
    } else if all.smembers == WrongType(Ok) {
      FallbackKeepsIndex(IndexKeyDropped(s, scope), scope, all);
    }
  }

  lemma FallbackKeepsIndex(s: Journal, scope: Scope, all: AllCalls)
    ensures AfterFallback(CFG, s, scope, 0, all).rows == s.rows
    ensures Indexed(s, scope) <= Indexed(AfterFallback(CFG, s, scope, 0, all), scope)
  {
    var ids := Set(Fallback(s, 0, all));
    assert Indexed(s, scope) <= Indexed(WithIndex(s, scope, ids), scope);
  }

  /** Caching rows keeps everything, and the rows whose index write arrives are indexed after it. */
  lemma {:induction false} PutsKeep(s: Journal, scope: Scope, ids: seq<Id>, lost: map<Id, SetCalls>)
    requires Coherent(CFG, s, scope) && Keyed(CFG, s.rows)
    ensures var s' := AfterPuts(s, scope, ids, lost);
            && s'.rows == s.rows && Coherent(CFG, s', scope) && Indexed(s, scope) <= Indexed(s', scope)
            && forall id :: id in ids && id in s.rows && id !in lost ==> id in Indexed(s', scope)
    decreases |ids|
  {
    if ids != [] {
      var init, id := ids[..|ids| - 1], ids[|ids| - 1];
      assert ids == init + [id];
      PutsKeep(s, scope, init, lost);
      var m := AfterPuts(s, scope, init, lost);
      if id in s.rows {
        var calls := if id in lost then lost[id] else SetCalls(true, true);
        assert m.rows[id := m.rows[id]] == m.rows;
        SaveKeepsCoherenceIff(CFG, m, scope, s.rows[id], calls);
        assert Key(scope, id) in m.redis ==> View(CFG, m.rows, Key(scope, id).id) == Some(m.redis[Key(scope, id)]);
      }
    }
  }

  lemma StepKeepsInv(s: Journal, scope: Scope, r: Request)
    requires Inv(s, scope) && Steady(r) && Possible(s, scope, r)
    ensures Inv(After(s, scope, r), scope)
  {
    match r
    case Create(j, calls) => SavingKeeps(s, scope, j, calls);
    case Modify(id, change, calls) =>
      LookupKeeps(s, scope, id, calls);
      var f := Lookup(s, scope, id, calls);
      if f.Here? { SavingKeeps(AfterLookup(s, scope, id, calls), scope, Applied(change, f.journey), calls); }
    case Delete(id, calls) =>
      LookupKeeps(s, scope, id, calls);
      RemovingKeeps(AfterLookup(s, scope, id, calls), scope, id, calls);
    case Duplicate(id, copy, calls) =>
      LookupKeeps(s, scope, id, calls);
      DuplicateKeeps(AfterLookup(s, scope, id, calls), scope, Lookup(s, scope, id, calls), copy);
    case FindOne(id, calls) => LookupKeeps(s, scope, id, calls);
    case FindActive(all, rowRead, lost) =>
      AllKeepsCoherence(CFG, s, scope, 0, all, scope);
      AllKeepsIndex(s, scope, all);
      PutsKeep(AfterAll(CFG, s, scope, 0, all), scope, ActiveIn(s.rows, all.batch.listing), lost);
    case Warm(listing, rowRead, lost) => PutsKeep(s, scope, ActiveIn(s.rows, listing), lost);
    case ValuesExpire(keys) => StepKeepsCoherence(CFG, s, Call(scope, Expire(keys, {})), scope);
  }

  lemma DuplicateKeeps(s: Journal, scope: Scope, f: Found, copy: Id)
    requires Inv(s, scope) && copy !in s.rows
    ensures f.Here? ==> Inv(s.(rows := s.rows[copy := Copy(f.journey, copy)]), scope)
  {
    if f.Here? {
      var rows := s.rows[copy := Copy(f.journey, copy)];
      assert forall k: Key :: k.id in s.rows ==> View(CFG, rows, k.id) == View(CFG, s.rows, k.id);
      IndexStays(s, s.(rows := rows), scope, copy);
    }
  }

  /** Warming makes the index complete whatever it held before, so long as its index writes arrive. */
  lemma WarmingCompletesTheIndex(s: Journal, scope: Scope, listing: seq<Id>)
    requires Coherent(CFG, s, scope) && Keyed(CFG, s.rows) && Lists(listing, s.rows)
    ensures Inv(After(s, scope, Warm(listing, true, map[])), scope)
  {
    PutsKeep(s, scope, ActiveIn(s.rows, listing), map[]);
    ActiveInIs(s.rows, listing);
  }

  ghost predicate CanServe(s: Journal, scope: Scope, rs: seq<Request>)
    decreases |rs|
  {
    rs == [] || (Possible(s, scope, rs[0]) && CanServe(After(s, scope, rs[0]), scope, rs[1..]))
  }

  function Serve(s: Journal, scope: Scope, rs: seq<Request>): Journal
    decreases |rs|
  {
    if rs == [] then s else Serve(After(s, scope, rs[0]), scope, rs[1..])
  }

  // ---------------------------------------------------------------- findActive is exact

  function Ids(js: seq<Journey>): (ids: seq<Id>)
    ensures |ids| == |js| && forall i :: 0 <= i < |js| ==> ids[i] == js[i].id
    decreases |js|
  {
    if js == [] then [] else Ids(js[..|js| - 1]) + [js[|js| - 1].id]
  }

  /** No journey twice, each an active row as it is now. */
  ghost predicate OnlyActive(js: seq<Journey>, rows: map<Id, Journey>) {
    && Distinct(Ids(js))
    && forall i :: 0 <= i < |js| ==> IsActive(rows, js[i].id) && ToCached(js[i]) == ToCached(rows[js[i].id])
  }

  ghost predicate ExactlyActive(js: seq<Journey>, rows: map<Id, Journey>) {
    OnlyActive(js, rows) && forall id :: IsActive(rows, id) ==> id in Ids(js)
  }

  lemma RowValuesSnoc(rows: map<Id, Journey>, ids: seq<Id>, id: Id)
    requires id in rows
    ensures RowValues(CFG, rows, ids + [id]) == RowValues(CFG, rows, ids) + [ToCached(rows[id])]
  {
    assert (ids + [id])[..|ids|] == ids;
  }

  lemma ActiveOfSnoc(cs: seq<CachedJourney>, c: CachedJourney)
    ensures ActiveOf(cs + [c]) == ActiveOf(cs) + if c.isActive then [c] else []
  {
    assert (cs + [c])[..|cs|] == cs;
  }

  lemma {:induction false} ActiveOfRows(rows: map<Id, Journey>, order: seq<Id>)
    ensures ActiveOf(RowValues(CFG, rows, order)) == RowValues(CFG, rows, ActiveIn(rows, order))
    decreases |order|
  {
    if order != [] {
      var init, id := order[..|order| - 1], order[|order| - 1];
      ActiveOfRows(rows, init);
      var values, active := RowValues(CFG, rows, init), ActiveIn(rows, init);
      if id in rows {
        var c := ToCached(rows[id]);
        assert RowValues(CFG, rows, order) == values + [c] by {
          assert order == init + [id];
          RowValuesSnoc(rows, init, id);
        }
        ActiveOfSnoc(values, c);
        assert RowValues(CFG, rows, active + [id]) == RowValues(CFG, rows, active) + [c] by { RowValuesSnoc(rows, active, id); }
        assert ActiveIn(rows, order) == if rows[id].isActive then active + [id] else active;
      } else {
        assert RowValues(CFG, rows, order) == values && ActiveIn(rows, order) == active;
      }
    }
  }

  /** The rows of ids that exist, position by position. */
  lemma {:induction false} RowsAt(rows: map<Id, Journey>, ids: seq<Id>)
    requires forall id :: id in ids ==> id in rows
    ensures var cs := RowValues(CFG, rows, ids);
            |cs| == |ids| && forall i :: 0 <= i < |ids| ==> cs[i] == ToCached(rows[ids[i]])
    ensures var js := RowsOf(rows, ids);
            |js| == |ids| && forall i :: 0 <= i < |ids| ==> js[i] == rows[ids[i]]
    decreases |ids|
  {
    if ids != [] {
      var init, id := ids[..|ids| - 1], ids[|ids| - 1];
      assert ids == init + [id];
      RowsAt(rows, init);
    }
  }

  lemma ShowsIds(rows: map<Id, Journey>, ids: seq<Id>, js: seq<Journey>)
    requires Distinct(ids) && |js| == |ids|
    requires forall i :: 0 <= i < |ids| ==>
               IsActive(rows, ids[i]) && js[i].id == ids[i] && ToCached(js[i]) == ToCached(rows[ids[i]])
    ensures OnlyActive(js, rows) && Ids(js) == ids
  {
    assert Ids(js) == ids;
  }

  lemma ActiveIdsShow(rows: map<Id, Journey>, ids: seq<Id>)
    requires Keyed(CFG, rows) && Distinct(ids) && forall id :: id in ids ==> IsActive(rows, id)
    ensures var js := Restored(RowValues(CFG, rows, ids)); OnlyActive(js, rows) && Ids(js) == ids
    ensures var js := RowsOf(rows, ids); OnlyActive(js, rows) && Ids(js) == ids
  {
    RowsAt(rows, ids);
    var cs := RowValues(CFG, rows, ids);
    forall i | 0 <= i < |ids|
      ensures IsActive(rows, ids[i]) && rows[ids[i]].id == ids[i]
      ensures Restored(cs)[i].id == ids[i] && ToCached(Restored(cs)[i]) == ToCached(rows[ids[i]])
    {
      assert ids[i] in ids && CFG.idOf(rows[ids[i]]) == ids[i];
      assert Restored(cs)[i] == FromCached(cs[i]) && cs[i] == ToCached(rows[ids[i]]);
    }
    ShowsIds(rows, ids, Restored(cs));
    ShowsIds(rows, ids, RowsOf(rows, ids));
  }

  /** The ids that `findActive` answers. */
  lemma ActiveIds(s: Journal, scope: Scope, all: AllCalls, rowRead: bool) returns (ids: seq<Id>)
    requires Coherent(CFG, s, scope) && Keyed(CFG, s.rows) && Legal(s, Call(scope, GetAll(0, all)))
    requires ActiveAnswer(s, scope, all, rowRead).Some?
    ensures var js := ActiveAnswer(s, scope, all, rowRead).value; OnlyActive(js, s.rows) && Ids(js) == ids
    ensures if AllWorks(CFG, s, scope, 0, all) && exists id :: IsActive(s.rows, id) && id in Indexed(s, scope)
            then forall id :: id in ids <==> IsActive(s.rows, id) && id in Indexed(s, scope)
            else forall id :: id in ids <==> IsActive(s.rows, id)
  {
    var order := AllIsTheIndexOrEverything(CFG, s, scope, all);
    ids := ActiveIn(s.rows, all.batch.listing);
    ActiveInIs(s.rows, all.batch.listing);
    ActiveIdsShow(s.rows, ids);
    if AllWorks(CFG, s, scope, 0, all) {
      ActiveOfRows(s.rows, order);
      ActiveInIs(s.rows, order);
      var cached := ActiveIn(s.rows, order);
      ActiveIdsShow(s.rows, cached);
      assert |RowValues(CFG, s.rows, cached)| == |cached|;
      if cached != [] {
        ids := cached;
        assert cached[0] in cached;
      }
    }
  }

  /** `findActive` never shows a journey twice, nor one that is not active or not current, and it
      shows all of them exactly when the index lists every active journey or none, or the cache
      could not be read. */
  lemma FindActiveIsExactIff(s: Journal, scope: Scope, all: AllCalls, rowRead: bool)
    requires Coherent(CFG, s, scope) && Keyed(CFG, s.rows) && Legal(s, Call(scope, GetAll(0, all)))
    requires ActiveAnswer(s, scope, all, rowRead).Some?
    ensures var js := ActiveAnswer(s, scope, all, rowRead).value;
            && OnlyActive(js, s.rows)
            && (ExactlyActive(js, s.rows) <==>
                  || !AllWorks(CFG, s, scope, 0, all)
                  || (forall id :: IsActive(s.rows, id) ==> id in Indexed(s, scope))
                  || (forall id :: IsActive(s.rows, id) ==> id !in Indexed(s, scope)))
  {
    var ids := ActiveIds(s, scope, all, rowRead);
  }

  /** The promise: once warmed, whatever is created, changed, removed, copied or looked up, and
      whichever value keys vanish, `findActive` answers exactly the active rows. */
  lemma {:induction false} ActiveJourneysAreNeverMissed(s: Journal, scope: Scope, rs: seq<Request>, all: AllCalls, rowRead: bool)
    requires Inv(s, scope) && CanServe(s, scope, rs) && forall r :: r in rs ==> Steady(r)
    requires Legal(Serve(s, scope, rs), Call(scope, GetAll(0, all)))
    requires ActiveAnswer(Serve(s, scope, rs), scope, all, rowRead).Some?
    ensures Inv(Serve(s, scope, rs), scope)
    ensures ExactlyActive(ActiveAnswer(Serve(s, scope, rs), scope, all, rowRead).value, Serve(s, scope, rs).rows)
    decreases |rs|
  {
    if rs == [] {
      FindActiveIsExactIff(s, scope, all, rowRead);
    } else {
      StepKeepsInv(s, scope, rs[0]);
      ActiveJourneysAreNeverMissed(After(s, scope, rs[0]), scope, rs[1..], all, rowRead);
    }
  }

  function AfterLoneSave(s: Journal, scope: Scope, j: Journey): Journal {
    Step(CFG, Step(CFG, s, Call(scope, IndexExpires)), Call(scope, Save(j, SetCalls(true, true))))
  }

  lemma LoneSaveIndexes(s: Journal, scope: Scope, j: Journey)
    requires Coherent(CFG, s, scope) && Keyed(CFG, s.rows)
    ensures var s' := AfterLoneSave(s, scope, j);
            && Coherent(CFG, s', scope) && Keyed(CFG, s'.rows)
            && Indexed(s', scope) == {j.id} && s'.rows == s.rows[j.id := j]
  {
    var expired := Step(CFG, s, Call(scope, IndexExpires));
    StepKeepsCoherence(CFG, expired, Call(scope, Save(j, SetCalls(true, true))), scope);
    assert Indexed(expired, scope) == {};
  }

  /** It fails once the index key expires: saving one active journey then leaves an index that lists
      that journey alone, and `findActive` is exact only if it is the only active one. */
  lemma LoneSaveHidesTheRest(s: Journal, scope: Scope, j: Journey, all: AllCalls)
    requires Coherent(CFG, s, scope) && Keyed(CFG, s.rows) && j.isActive
    requires var s' := AfterLoneSave(s, scope, j);
             Legal(s', Call(scope, GetAll(0, all))) && AllWorks(CFG, s', scope, 0, all)
    ensures var s' := AfterLoneSave(s, scope, j);
            ExactlyActive(ActiveAnswer(s', scope, all, true).value, s'.rows) <==>
              forall id :: IsActive(s'.rows, id) ==> id == j.id
  {
    var s' := AfterLoneSave(s, scope, j);
    LoneSaveIndexes(s, scope, j);
    FindActiveIsExactIff(s', scope, all, true);
    assert IsActive(s'.rows, j.id);
  }

  /** It also fails when the table commits a change but loses the acknowledgement: no cache write
      follows. Coherence then survives exactly if nothing was cached for the row, or it shows alike. */
  lemma LostAcknowledgement(s: Journal, scope: Scope, id: Id, change: Change, calls: Calls)
    requires Coherent(CFG, s, scope) && Keyed(CFG, s.rows) && calls.table == AckLost
    requires Lookup(s, scope, id, calls).Here?
    ensures var looked := AfterLookup(s, scope, id, calls);
            var j := Applied(change, Lookup(s, scope, id, calls).journey);
            Coherent(CFG, After(s, scope, Modify(id, change, calls)), scope) <==>
              Key(scope, id) !in looked.redis || ToCached(j) == looked.redis[Key(scope, id)]
  {
    var looked := AfterLookup(s, scope, id, calls);
    var j := Applied(change, Lookup(s, scope, id, calls).journey);
    GetIsTransparent(CFG, s, scope, id, calls.get);
    StepKeepsCoherence(CFG, s, Call(scope, Get(id, calls.get)), scope);
    assert j.id == id;
    FreshAfterPut(CFG, looked.redis, looked.rows, Key(scope, id), j);
    ByLayer(CFG, After(s, scope, Modify(id, change, calls)), scope);
  }
}
